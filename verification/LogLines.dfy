/** How a container's output becomes published lines (worker/logs.py:56-79): chunks of any size
    are cut at newlines, the unfinished rest is kept back until a flush, and the last lines are
    kept for the tail. */
module LogLines {
  import opened Common
  import LogStream

  function Join(pieces: seq<string>): string {
    if pieces == [] then "" else pieces[0] + Join(pieces[1..])
  }

  lemma {:induction false} JoinAppends(a: seq<string>, b: seq<string>)
    ensures Join(a + b) == Join(a) + Join(b)
  {
    if a == [] {
      assert a + b == b;
    } else {
      JoinAppends(a[1..], b);
      assert (a + b)[1..] == a[1..] + b && (a + b)[0] == a[0];
      assert Join(a + b) == a[0] + Join(a[1..] + b);
      hide Join;
      assert a[0] + (Join(a[1..]) + Join(b)) == a[0] + Join(a[1..]) + Join(b);
    }
  }

  lemma JoinAppendsOne(a: seq<string>, x: string)
    ensures Join(a + [x]) == Join(a) + x
  {
    JoinAppends(a, [x]);
    assert Join([x]) == x + Join([]);
  }

  /** One newline, at the end. */
  predicate IsLine(s: string) {
    s != "" && s[|s| - 1] == '\n' && forall k | 0 <= k < |s| - 1 :: s[k] != '\n'
  }

  function FirstNewline(s: string): (i: nat)
    requires '\n' in s
    ensures i < |s| && s[i] == '\n' && forall k | 0 <= k < i :: s[k] != '\n'
  {
    if s[0] == '\n' then 0 else 1 + FirstNewline(s[1..])
  }

  /** The complete lines of s, each with its newline. */
  function Pieces(s: string): seq<string>
    decreases |s|
  {
    if '\n' !in s then [] else
      var i := FirstNewline(s);
      [s[..i + 1]] + Pieces(s[i + 1..])
  }

  /** What follows the last newline of s. */
  function Rest(s: string): (r: string)
    ensures '\n' !in r
    decreases |s|
  {
    if '\n' !in s then s else Rest(s[FirstNewline(s) + 1..])
  }

  lemma NoPieces(s: string)
    requires '\n' !in s
    ensures Pieces(s) == [] && Rest(s) == s
  {
  }

  lemma PiecesOfFirst(s: string)
    requires '\n' in s
    ensures var i := FirstNewline(s);
      Pieces(s) == [s[..i + 1]] + Pieces(s[i + 1..]) && Rest(s) == Rest(s[i + 1..])
  {
    hide FirstNewline;
  }

  lemma {:induction false} PiecesAreLines(s: string)
    ensures forall p | p in Pieces(s) :: IsLine(p)
    decreases |s|
  {
    if '\n' in s {
      PiecesOfFirst(s);
      hide Pieces, Rest, FirstNewline;
      var i := FirstNewline(s);
      PiecesAreLines(s[i + 1..]);
      assert IsLine(s[..i + 1]);
    }
  }

  lemma JoinFirst(head: string, tail: seq<string>)
    ensures Join([head] + tail) == head + Join(tail)
  {
    assert ([head] + tail)[1..] == tail;
  }

  lemma {:induction false} PiecesAndRest(s: string)
    ensures Join(Pieces(s)) + Rest(s) == s
    decreases |s|
  {
    hide Join, Pieces, Rest, IsLine, FirstNewline;
    if '\n' in s {
      var i := FirstNewline(s);
      var head, tail := s[..i + 1], s[i + 1..];
      PiecesOfFirst(s);
      PiecesAndRest(tail);
      JoinFirst(head, Pieces(tail));
      assert head + Join(Pieces(tail)) + Rest(tail) == head + tail == s;
    } else {
      NoPieces(s);
      JoinNothing();
    }
  }

  lemma JoinNothing()
    ensures Join([]) == ""
  {
  }

  lemma FirstNewlineOfLine(p: string, t: string)
    requires IsLine(p)
    ensures '\n' in p + t && FirstNewline(p + t) == |p| - 1
  {
    assert (p + t)[|p| - 1] == '\n';
    assert forall k | 0 <= k < |p| - 1 :: (p + t)[k] == p[k];
  }

  /** The split at newlines is the only one: any lines followed by a rest without newline are
      the pieces and the rest of their concatenation. */
  lemma {:induction false} SplitIsUnique(lines: seq<string>, rest: string)
    requires (forall p | p in lines :: IsLine(p)) && '\n' !in rest
    ensures Pieces(Join(lines) + rest) == lines && Rest(Join(lines) + rest) == rest
  {
    if lines != [] {
      var p, more := lines[0], Join(lines[1..]) + rest;
      var s := Join(lines) + rest;
      assert s == p + more;
      FirstNewlineOfLine(p, more);
      SplitIsUnique(lines[1..], rest);
      assert s[..|p|] == p && s[|p|..] == more;
    }
  }

  /** Splitting what was kept back together with new text continues the split. */
  lemma SplitContinues(a: string, b: string)
    ensures Pieces(a + b) == Pieces(a) + Pieces(Rest(a) + b)
    ensures Rest(a + b) == Rest(Rest(a) + b)
  {
    var lines, rest := Pieces(a) + Pieces(Rest(a) + b), Rest(Rest(a) + b);
    PiecesAndRest(a);
    PiecesAndRest(Rest(a) + b);
    PiecesAreLines(a);
    PiecesAreLines(Rest(a) + b);
    JoinAppends(Pieces(a), Pieces(Rest(a) + b));
    hide Pieces, Rest, Join, IsLine;
    var j1, j2 := Join(Pieces(a)), Join(Pieces(Rest(a) + b));
    assert j1 + j2 + rest == j1 + (j2 + rest) == j1 + Rest(a) + b;
    assert Join(lines) + rest == a + b;
    SplitIsUnique(lines, rest);
  }

  // ------------------------------------------------------------------ the collector

  datatype State = State(published: seq<string>, partial: string, lines: seq<string>)

  datatype Op = Append(chunk: string) | Flush | Tail

  function Publish(s: State, pieces: seq<string>, maxLines: nat): State {
    s.(published := s.published + pieces, lines := LastN(s.lines + pieces, maxLines))
  }

  lemma PublishOneMore(s: State, done: seq<string>, x: string, rest: string, maxLines: nat)
    ensures Publish(Publish(s, done, maxLines).(partial := rest), [x], maxLines) == Publish(s, done + [x], maxLines).(partial := rest)
  {
    LastNAppend(s.lines + done, [x], maxLines);
    assert s.lines + done + [x] == s.lines + (done + [x]);
    assert s.published + done + [x] == s.published + (done + [x]);
  }

  lemma PublishNothing(s: State, maxLines: nat)
    requires |s.lines| <= maxLines
    ensures Publish(s, [], maxLines) == s
  {
    assert s.lines + [] == s.lines && s.published + [] == s.published;
  }

  function Apply(s: State, op: Op, maxLines: nat): State {
    match op
    case Append(chunk) => Publish(s, Pieces(s.partial + chunk), maxLines).(partial := Rest(s.partial + chunk))
    case _ => if s.partial == "" then s else Publish(s, [s.partial], maxLines).(partial := "")
  }

  /** The collector after the first n calls. */
  function After(ops: seq<Op>, n: nat, maxLines: nat): State
    requires n <= |ops|
  {
    if n == 0 then State([], "", []) else Apply(After(ops, n - 1, maxLines), ops[n - 1], maxLines)
  }

  function Text(op: Op): string {
    match op
    case Append(chunk) => chunk
    case _ => ""
  }

  /** Everything the container wrote in the first n calls. */
  function Input(ops: seq<Op>, n: nat): string
    requires n <= |ops|
  {
    if n == 0 then "" else Input(ops, n - 1) + Text(ops[n - 1])
  }

  /** Published pieces and the rest kept back spell the input, no piece holds more than one
      line, and the kept lines are the last ones published. */
  ghost predicate Spells(s: State, input: string, maxLines: nat) {
    && Join(s.published) + s.partial == input
    && '\n' !in s.partial
    && (forall p | p in s.published :: IsLine(p) || (p != "" && '\n' !in p))
    && s.lines == LastN(s.published, maxLines)
  }

  lemma StepSpells(s: State, op: Op, input: string, maxLines: nat)
    requires Spells(s, input, maxLines)
    ensures Spells(Apply(s, op, maxLines), input + Text(op), maxLines)
  {
    hide IsLine, Join, LastN, Pieces, Rest;
    match op
    case Append(chunk) =>
      var pieces := Pieces(s.partial + chunk);
      PiecesAndRest(s.partial + chunk);
      PiecesAreLines(s.partial + chunk);
      JoinAppends(s.published, pieces);
      LastNAppend(s.published, pieces, maxLines);
      assert Join(s.published) + (s.partial + chunk) == input + chunk;
    case _ =>
      JoinAppendsOne(s.published, s.partial);
      LastNAppend(s.published, [s.partial], maxLines);
  }

  lemma NothingSpellsNothing(maxLines: nat)
    ensures Spells(State([], "", []), "", maxLines)
  {
  }

  /** Nothing is lost, repeated or reordered by any sequence of calls. */
  lemma {:induction false} CollectorKeepsEverything(ops: seq<Op>, n: nat, maxLines: nat)
    requires n <= |ops|
    ensures Spells(After(ops, n, maxLines), Input(ops, n), maxLines)
  {
    hide Spells, Apply;
    if n == 0 {
      NothingSpellsNothing(maxLines);
    } else {
      CollectorKeepsEverything(ops, n - 1, maxLines);
      StepSpells(After(ops, n - 1, maxLines), ops[n - 1], Input(ops, n - 1), maxLines);
    }
  }

  /** After a flush or a tail nothing is kept back: everything written so far is published. */
  lemma FlushLeavesNothing(ops: seq<Op>, n: nat, maxLines: nat)
    requires 0 < n <= |ops| && !ops[n - 1].Append?
    ensures After(ops, n, maxLines).partial == ""
    ensures Join(After(ops, n, maxLines).published) == Input(ops, n)
  {
    CollectorKeepsEverything(ops, n, maxLines);
  }

  ghost predicate OnlyAppends(ops: seq<Op>) {
    forall op | op in ops :: op.Append?
  }

  lemma {:induction false} AppendsSplitTheWhole(ops: seq<Op>, n: nat, maxLines: nat)
    requires n <= |ops| && OnlyAppends(ops)
    ensures var s := After(ops, n, maxLines);
      s.published == Pieces(Input(ops, n)) && s.partial == Rest(Input(ops, n))
  {
    hide Pieces, Rest, LastN, Join;
    if n == 0 {
      NoPieces("");
    } else {
      AppendsSplitTheWhole(ops, n - 1, maxLines);
      SplitContinues(Input(ops, n - 1), ops[n - 1].chunk);
      assert ops[n - 1] in ops;
    }
  }

  /** With the flush only at the end, how the output was cut into chunks does not show: the
      published pieces are the newline split of the whole output and its rest, and the tail is
      the join of the last maxLines of them. */
  lemma ChunkingDoesNotShow(ops: seq<Op>, maxLines: nat)
    requires OnlyAppends(ops)
    ensures var s := Apply(After(ops, |ops|, maxLines), Tail, maxLines);
      var whole := Input(ops, |ops|);
      && s.published == Pieces(whole) + (if Rest(whole) == "" then [] else [Rest(whole)])
      && s.partial == ""
      && Join(s.lines) == Join(LastN(s.published, maxLines))
  {
    AppendsSplitTheWhole(ops, |ops|, maxLines);
    CollectorKeepsEverything(ops, |ops|, maxLines);
    StepSpells(After(ops, |ops|, maxLines), Tail, Input(ops, |ops|), maxLines);
  }

  class LogCollector {
    const topic: LogStream.Topic<string>
    const maxLines: nat
    ghost const earlier: seq<string>   // published before this collector
    ghost var published: seq<string>
    var partial: string
    var lines: seq<string>

    ghost predicate Valid()
      reads this, topic
    {
      topic.Valid() && topic.history == earlier + published && |lines| <= maxLines
    }

    ghost function View(): State
      reads this
    {
      State(published, partial, lines)
    }

    /** `max_lines or settings.job_log_tail_lines`: zero falls back to the setting. */
    constructor (topic: LogStream.Topic<string>, maxLines: nat, tailSetting: nat)
      requires topic.Valid()
      ensures Valid() && View() == State([], "", []) && this.topic == topic && earlier == topic.history
      ensures this.maxLines == if maxLines == 0 then tailSetting else maxLines
    {
      this.topic := topic;
      earlier := topic.history;
      this.maxLines := if maxLines == 0 then tailSetting else maxLines;
      published, partial, lines := [], "", [];
    }

    method PublishLine(line: string)
      requires Valid()
      modifies this, topic
      ensures Valid() && View() == Publish(old(View()), [line], maxLines) && partial == old(partial)
    {
      topic.Publish(line);
      published := published + [line];
      lines := lines + [line];
      if |lines| > maxLines {
        lines := lines[|lines| - maxLines..];
      }
    }

    method AppendChunk(chunk: string)
      requires Valid()
      modifies this, topic
      ensures Valid() && View() == Apply(old(View()), Append(chunk), maxLines)
    {
      hide Pieces, Rest, IsLine, FirstNewline, LastN, Publish;
      PublishNothing(View(), maxLines);
      var start := partial + chunk;
      ghost var done: seq<string> := [];
      partial := start;
      while '\n' in partial
        invariant Valid()
        invariant View() == Publish(old(View()), done, maxLines).(partial := partial)
        invariant Pieces(start) == done + Pieces(partial) && Rest(start) == Rest(partial)
        decreases |partial|
      {
        PiecesOfFirst(partial);
        var i := FirstNewline(partial);
        var fullLine := partial[..i + 1];
        partial := partial[i + 1..];
        PublishLine(fullLine);
        PublishOneMore(old(View()), done, fullLine, partial, maxLines);
        done := done + [fullLine];
      }
      NoPieces(partial);
      assert done + [] == done;
    }

    method FlushPartial()
      requires Valid()
      modifies this, topic
      ensures Valid() && View() == Apply(old(View()), Flush, maxLines)
    {
      if partial == "" {
        return;
      }
      PublishLine(partial);
      partial := "";
    }

    method TailText() returns (text: string)
      requires Valid()
      modifies this, topic
      ensures Valid() && View() == Apply(old(View()), Tail, maxLines)
      ensures text == Join(lines)
    {
      FlushPartial();
      text := Join(lines);
    }
  }
}
