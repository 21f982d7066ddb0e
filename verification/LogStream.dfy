/** The replay list and the live channel of a job's log, built by one publisher in three separate
    Redis commands per message, and what a viewer who replays and then subscribes receives
    (worker/logs.py:24-53, api/services/job_log_stream.py:44-79, api/routers/job_logs.py:74-77).
    N is the length the list is trimmed to. */
module LogStream {
  import opened Common

  /** Where the publisher is inside its PUBLISH, RPUSH, LTRIM group. */
  datatype Phase<M> = Between | Published(m: M) | Pushed

  datatype State<M> = State(history: seq<M>, list: seq<M>, phase: Phase<M>)

  datatype Op<M> = Publish(m: M) | RPush | LTrim

  function Init<M>(): State<M> { State([], [], Between) }

  predicate Enabled<M>(s: State<M>, op: Op<M>) {
    match op
    case Publish(_) => s.phase.Between?
    case RPush => s.phase.Published?
    case LTrim => s.phase.Pushed?
  }

  function Apply<M>(n: nat, s: State<M>, op: Op<M>): State<M>
    requires Enabled(s, op)
  {
    match op
    case Publish(m) => State(s.history + [m], s.list, Published(m))
    case RPush => State(s.history, s.list + [s.phase.m], Pushed)
    case LTrim => State(s.history, LastN(s.list, n), Between)
  }

  ghost predicate Run<M(!new)>(n: nat, states: seq<State<M>>, ops: seq<Op<M>>) {
    && |states| == |ops| + 1
    && states[0] == Init()
    && forall i | 0 <= i < |ops| :: Enabled(states[i], ops[i]) && states[i + 1] == Apply(n, states[i], ops[i])
  }

  /** What LRANGE 0 N-1 answers. */
  function Replay<M>(n: nat, s: State<M>): seq<M> {
    if |s.list| <= n then s.list else s.list[..n]
  }

  /** The list against the history: the last N of what has been pushed, plus an untrimmed one. */
  ghost predicate ListFollows<M(!new)>(n: nat, s: State<M>) {
    match s.phase
    case Between => s.list == LastN(s.history, n)
    case Published(m) => s.history != [] && s.history[|s.history| - 1] == m && s.list == LastN(s.history[..|s.history| - 1], n)
    case Pushed =>
      && s.history != []
      && s.list == LastN(s.history[..|s.history| - 1], n) + [s.history[|s.history| - 1]]
  }

  lemma StepKeepsList<M(!new)>(n: nat, s: State<M>, op: Op<M>)
    requires Enabled(s, op) && ListFollows(n, s)
    ensures ListFollows(n, Apply(n, s, op))
  {
    match op
    case Publish(m) => PublishKeepsList(n, s, m);
    case RPush => PushKeepsList(n, s);
    case LTrim => TrimKeepsList(n, s);
  }

  lemma PublishKeepsList<M(!new)>(n: nat, s: State<M>, m: M)
    requires s.phase.Between? && ListFollows(n, s)
    ensures ListFollows(n, Apply(n, s, Publish(m)))
  {
    hide LastN;
    assert (s.history + [m])[..|s.history|] == s.history;
  }

  lemma PushKeepsList<M(!new)>(n: nat, s: State<M>)
    requires s.phase.Published? && ListFollows(n, s)
    ensures ListFollows(n, Apply(n, s, RPush))
  {
    hide LastN;
  }

  lemma TrimKeepsList<M(!new)>(n: nat, s: State<M>)
    requires s.phase.Pushed? && ListFollows(n, s)
    ensures ListFollows(n, Apply(n, s, LTrim))
  {
    hide LastN;
    var before, last := s.history[..|s.history| - 1], s.history[|s.history| - 1];
    LastNAppend(before, [last], n);
    assert before + [last] == s.history;
  }

  lemma {:induction false} ListIsTheLastMessages<M(!new)>(n: nat, states: seq<State<M>>, ops: seq<Op<M>>, k: nat)
    requires Run(n, states, ops) && k < |states|
    ensures ListFollows(n, states[k])
  {
    hide Apply, ListFollows;
    if k > 0 {
      ListIsTheLastMessages(n, states, ops, k - 1);
      StepKeepsList(n, states[k - 1], ops[k - 1]);
    } else {
      EmptyListFollows<M>(n);
    }
  }

  lemma EmptyListFollows<M(!new)>(n: nat)
    ensures ListFollows<M>(n, Init())
  {
  }

  lemma {:induction false} HistoryGrows<M(!new)>(n: nat, states: seq<State<M>>, ops: seq<Op<M>>, i: nat, j: nat)
    requires Run(n, states, ops) && i <= j < |states|
    ensures states[i].history <= states[j].history
    ensures |states[i].history| == |states[j].history| <==> forall k | i <= k < j :: !ops[k].Publish?
  {
    if i < j {
      HistoryGrows(n, states, ops, i, j - 1);
      assert states[j] == Apply(n, states[j - 1], ops[j - 1]);
    }
  }

  /** LRANGE misses nothing that was published: the publisher is between groups, or has pushed
      and the list is not yet over its length. */
  predicate Quiet<M>(n: nat, s: State<M>) {
    s.phase.Between? || (s.phase.Pushed? && |s.history| <= n)
  }

  /** The first index of the history that the replay does not reach. */
  function ReplayEnd<M>(n: nat, s: State<M>): int {
    |s.history| - if Quiet(n, s) then 0 else 1
  }

  function AtMost(n: int, m: int): int { if m <= n then m else n }

  /** r is the stretch of h that ends before `end`. */
  predicate IsBlock<M(==)>(r: seq<M>, h: seq<M>, end: int) {
    |r| <= end <= |h| && r == h[end - |r|..end]
  }

  lemma LastNIsABlock<M>(h: seq<M>, end: nat, n: nat)
    requires end <= |h|
    ensures IsBlock(LastN(h[..end], n), h, end) && |LastN(h[..end], n)| == if end <= n then end else n
  {
  }

  lemma BlockGrows<M>(r: seq<M>, h: seq<M>, end: nat)
    requires IsBlock(r, h, end) && end < |h|
    ensures IsBlock(r + [h[end]], h, end + 1)
  {
  }

  lemma ReplayWhilePushed<M(!new)>(n: nat, s: State<M>)
    requires s.phase.Pushed? && ListFollows(n, s)
    ensures IsBlock(Replay(n, s), s.history, ReplayEnd(n, s))
    ensures |Replay(n, s)| == AtMost(n, ReplayEnd(n, s))
  {
    hide LastN, IsBlock, Replay;
    var before := |s.history| - 1;
    var r := LastN(s.history[..before], n);
    LastNIsABlock(s.history, before, n);
    ReplayOfOneMore(n, s, r, s.history[before]);
    if |r| < n {
      BlockGrows(r, s.history, before);
    }
  }

  lemma ReplayOfOneMore<M>(n: nat, s: State<M>, r: seq<M>, m: M)
    requires s.list == r + [m] && |r| <= n
    ensures Replay(n, s) == if |r| < n then r + [m] else r
  {
  }

  lemma ReplayIsABlock<M(!new)>(n: nat, s: State<M>)
    requires n >= 1 && ListFollows(n, s)
    ensures IsBlock(Replay(n, s), s.history, ReplayEnd(n, s))
    ensures |Replay(n, s)| == AtMost(n, ReplayEnd(n, s))
  {
    hide LastN, IsBlock;
    match s.phase
    case Between =>
      assert s.history[..|s.history|] == s.history;
      LastNIsABlock(s.history, |s.history|, n);
    case Published(_) => LastNIsABlock(s.history, |s.history| - 1, n);
    case Pushed => ReplayWhilePushed(n, s);
  }

  lemma GapIs<M>(n: nat, s: State<M>)
    ensures ReplayEnd(n, s) == |s.history| <==> Quiet(n, s)
  {
  }

  /** A viewer that reads the list in state i, subscribes in state j and looks in state k has
      received two blocks of the history, [a, b) and then [c, ...): nothing twice, nothing out of
      order, and in the first the last N messages up to b, or all of them. There is no gap exactly when the replay hit no half-done group
      and nothing was published between the two commands. */
  lemma ViewerGetsTwoBlocks<M(!new)>(n: nat, states: seq<State<M>>, ops: seq<Op<M>>, i: nat, j: nat, k: nat)
    returns (a: nat, b: nat, c: nat)
    requires n >= 1 && Run(n, states, ops) && i <= j <= k < |states|
    ensures a <= b <= c <= |states[k].history| && b - a == AtMost(n, b)
    ensures Replay(n, states[i]) == states[k].history[a..b]
    ensures c == |states[j].history| && b == ReplayEnd(n, states[i])
    ensures b == c <==> Quiet(n, states[i]) && forall m | i <= m < j :: !ops[m].Publish?
  {
    hide Replay, ListFollows, Run, ReplayEnd, Quiet;
    HistoryGrows(n, states, ops, i, j);
    HistoryGrows(n, states, ops, j, k);
    ListIsTheLastMessages(n, states, ops, i);
    ReplayIsABlock(n, states[i]);
    GapIs(n, states[i]);
    b, c := ReplayEnd(n, states[i]), |states[j].history|;
    a := b - |Replay(n, states[i])|;
    assert states[i].history[a..b] == states[k].history[a..b];
  }

  // ------------------------------------------------------------------ end of stream

  /** A payload as the viewer parses it. */
  datatype Message = Line(text: string) | Eof(exitCode: Option<int>)

  function UntilEof(ms: seq<Message>): (r: seq<Message>)
    ensures |r| <= |ms| && forall m | m in r :: m.Line?
  {
    if ms == [] || ms[0].Eof? then [] else [ms[0]] + UntilEof(ms[1..])
  }

  lemma {:induction false} UntilEofIsPrefix(ms: seq<Message>)
    ensures UntilEof(ms) <= ms
    ensures |UntilEof(ms)| < |ms| ==> ms[|UntilEof(ms)|].Eof?
  {
    if ms != [] && !ms[0].Eof? {
      UntilEofIsPrefix(ms[1..]);
    }
  }

  lemma CutAtEof(h: seq<Message>, a: nat, end: nat) returns (b: nat)
    requires a <= end <= |h|
    ensures a <= b <= end && UntilEof(h[a..end]) == h[a..b]
    ensures (forall m | a <= m < b :: h[m].Line?) && (b < end ==> h[b].Eof?)
  {
    UntilEofIsPrefix(h[a..end]);
    hide UntilEof;
    var cut := UntilEof(h[a..end]);
    b := a + |cut|;
    assert forall m | 0 <= m < |cut| :: cut[m] == h[a..end][m] == h[a + m];
    forall m | a <= m < b ensures h[m].Line? {
      assert h[m] == cut[m - a];
    }
  }

  /** What reaches the viewer, both parts cut at their first end marker. */
  function Delivery(n: nat, atRange: State<Message>, atSubscribe: State<Message>, now: State<Message>): seq<Message>
    requires |atSubscribe.history| <= |now.history|
  {
    UntilEof(Replay(n, atRange)) + UntilEof(now.history[|atSubscribe.history|..])
  }

  /** The delivery is lines of the history at strictly increasing positions: one run of them
      from the replay and one from the channel. The stream ends for the viewer exactly when an
      end marker is published after it subscribed; one in the replay does not end it. */
  lemma DeliveryIsOrdered(n: nat, states: seq<State<Message>>, ops: seq<Op<Message>>, i: nat, j: nat, k: nat)
    returns (a: nat, b: nat, c: nat, d: nat)
    requires n >= 1 && Run(n, states, ops) && i <= j <= k < |states|
    ensures |states[j].history| <= |states[k].history|
    ensures a <= b <= c <= d <= |states[k].history| && c == |states[j].history|
    ensures var end := ReplayEnd(n, states[i]); a == end - AtMost(n, end)
    ensures Delivery(n, states[i], states[j], states[k]) == states[k].history[a..b] + states[k].history[c..d]
    ensures d < |states[k].history| <==> exists m | c <= m < |states[k].history| :: states[k].history[m].Eof?
    ensures d < |states[k].history| ==> states[k].history[d].Eof?
    ensures b <= ReplayEnd(n, states[i]) <= c && (b < ReplayEnd(n, states[i]) ==> states[k].history[b].Eof?)
  {
    var end;
    a, end, c := ViewerGetsTwoBlocks(n, states, ops, i, j, k);
    var h := states[k].history;
    hide UntilEof, Replay, Run, ReplayEnd, Quiet;
    b := CutAtEof(h, a, end);
    assert h[c..] == h[c..|h|];
    d := CutAtEof(h, c, |h|);
  }

  // ------------------------------------------------------------------ the publisher

  /** The channel and the list of one job. */
  class Topic<M(!new)> {
    ghost var history: seq<M>
    var list: seq<M>
    const cap: nat

    ghost predicate Valid()
      reads this
    {
      cap >= 1 && list == LastN(history, cap)
    }

    constructor (cap: nat)
      requires cap >= 1
      ensures Valid() && history == [] && this.cap == cap
    {
      history, list := [], [];
      this.cap := cap;
    }

    /** `publish_line`: PUBLISH, RPUSH, LTRIM -N -1. */
    method Publish(m: M)
      requires Valid()
      modifies this
      ensures Valid() && history == old(history) + [m]
      ensures list == LastN(old(history) + [m], cap)
      ensures var s := State(old(history), old(list), Between);
        State(history, list, Between) == Apply(cap, Apply(cap, Apply(cap, s, Op.Publish(m)), RPush), LTrim)
    {
      LastNAppend(history, [m], cap);
      history := history + [m];
      list := list + [m];
      if |list| > cap {
        list := list[|list| - cap..];
      }
    }
  }
}
