/** Backpressure thinning of the log relay (api/services/job_log_stream.py:18-79): after a send
    times out only every `interval`-th line is tried. A send's outcome is true when it was
    delivered and false when it timed out. */
module ThinnedRelay {
  import opened Common
  import opened LogStream

  datatype Relay = Relay(thin: bool, markerSent: bool, skipped: nat)

  datatype Output = Marker | Sent(line: string)

  /** What one `send_line` does: the relay after it, what went out, and how many times it called
      itself. */
  datatype Result = Result(relay: Relay, out: seq<Output>, depth: nat)

  function Fresh(): Relay { Relay(false, false, 0) }

  function Skip(r: Relay, interval: nat): bool
    requires interval >= 1
  {
    r.thin && (r.skipped + 1) % interval != 0
  }

  /** One call of `send_line` whose send attempts come out as `outcomes`; attempts after the
      last outcome succeed. */
  function Send(r: Relay, line: string, interval: nat, outcomes: seq<bool>): Result
    requires interval >= 1
    decreases |outcomes|
  {
    var counted := if r.thin then r.(skipped := r.skipped + 1) else r;
    if Skip(r, interval) then Result(counted, [], 0)
    else
      var marks := r.thin && !r.markerSent;
      var marked := if marks then counted.(markerSent := true) else counted;
      var out := if marks then [Marker] else [];
      if outcomes == [] || outcomes[0] then Result(marked, out + [Sent(line)], 0)
      else
        var again := Send(marked.(thin := true, skipped := 0), line, interval, outcomes[1..]);
        Result(again.relay, out + again.out, again.depth + 1)
  }

  /** For an interval of at least two a call recurses at most once, whatever times out, and then
      exactly when its one attempt timed out; the line is then dropped. */
  lemma SendRecursesAtMostOnce(r: Relay, line: string, interval: nat, outcomes: seq<bool>)
    requires interval >= 2
    ensures var s := Send(r, line, interval, outcomes);
      && s.depth <= 1
      && (s.depth == 1 <==> !Skip(r, interval) && outcomes != [] && !outcomes[0])
      && (Sent(line) in s.out <==> !Skip(r, interval) && s.depth == 0)
      && (s.depth == 1 ==> s.relay.thin && s.relay.skipped == 1)
      && s.out == (if !Skip(r, interval) && r.thin && !r.markerSent then [Marker] else [])
                + (if !Skip(r, interval) && s.depth == 0 then [Sent(line)] else [])
      && s.relay.markerSent == (r.markerSent || (!Skip(r, interval) && r.thin))
      && s == Send(r, line, interval, if outcomes == [] then [] else [outcomes[0]])
  {
    if outcomes != [] && !outcomes[0] && !Skip(r, interval) {
      assert 1 % interval != 0;
    }
  }

  /** With an interval of one there is no bound: every timeout is one more call. */
  lemma {:induction false} IntervalOneRecursesPerTimeout(r: Relay, line: string, timeouts: nat)
    ensures Send(r, line, 1, seq(timeouts, _ => false)).depth == timeouts
    decreases timeouts
  {
    if timeouts > 0 {
      var outcomes := seq(timeouts, _ => false);
      assert outcomes[1..] == seq(timeouts - 1, _ => false);
      var marked := if r.thin && !r.markerSent then r.(markerSent := true) else r;
      IntervalOneRecursesPerTimeout(marked.(thin := true, skipped := 0), line, timeouts - 1);
      assert !Skip(r, 1);
    }
  }

  // ------------------------------------------------------------------ whole runs

  /** The relay before line i when the attempt for line k, if one is made, comes out as oks[k]. */
  function RelayAt(lines: seq<string>, oks: seq<bool>, interval: nat, i: nat): Relay
    requires interval >= 1 && i <= |lines| == |oks|
  {
    if i == 0 then Fresh() else Send(RelayAt(lines, oks, interval, i - 1), lines[i - 1], interval, [oks[i - 1]]).relay
  }

  function OutputAt(lines: seq<string>, oks: seq<bool>, interval: nat, i: nat): seq<Output>
    requires interval >= 1 && i <= |lines| == |oks|
  {
    if i == 0 then []
    else OutputAt(lines, oks, interval, i - 1) + Send(RelayAt(lines, oks, interval, i - 1), lines[i - 1], interval, [oks[i - 1]]).out
  }

  /** Line i is tried and gets through. */
  predicate Delivered(lines: seq<string>, oks: seq<bool>, interval: nat, i: nat)
    requires interval >= 1 && i < |lines| == |oks|
  {
    !Skip(RelayAt(lines, oks, interval, i), interval) && oks[i]
  }

  /** The lines delivered among the first i, as the relay sends them. */
  function DeliveredLines(lines: seq<string>, oks: seq<bool>, interval: nat, from: nat, i: nat): seq<Output>
    requires interval >= 1 && from <= i <= |lines| == |oks|
  {
    if i == from then [] else
      DeliveredLines(lines, oks, interval, from, i - 1)
      + (if Delivered(lines, oks, interval, i - 1) then [Sent(lines[i - 1])] else [])
  }

  function AllOf(lines: seq<string>): seq<Output> {
    seq(|lines|, i requires 0 <= i < |lines| => Sent(lines[i]))
  }

  /** Before the first timeout every line is delivered, and nothing but lines. */
  lemma {:induction false} AllDeliveredUntilTimeout(lines: seq<string>, oks: seq<bool>, interval: nat, i: nat)
    requires interval >= 1 && i <= |lines| == |oks|
    requires forall k | 0 <= k < i :: oks[k]
    ensures RelayAt(lines, oks, interval, i) == Fresh()
    ensures OutputAt(lines, oks, interval, i) == AllOf(lines[..i])
    ensures forall k: nat | k < i :: Delivered(lines, oks, interval, k)
  {
    if i > 0 {
      AllDeliveredUntilTimeout(lines, oks, interval, i - 1);
      assert AllOf(lines[..i]) == AllOf(lines[..i - 1]) + [Sent(lines[i - 1])];
    }
  }

  /** t is the first line whose send times out. */
  ghost predicate FirstTimeout(oks: seq<bool>, t: nat) {
    t < |oks| && !oks[t] && forall k | 0 <= k < t :: oks[k]
  }

  /** After the first timeout the relay stays thin, and its counter never claims more drops than
      there were since the last delivery. */
  lemma {:induction false} CounterIsHonest(lines: seq<string>, oks: seq<bool>, interval: nat, t: nat, i: nat)
    requires interval >= 2 && |lines| == |oks| && FirstTimeout(oks, t) && t < i <= |lines|
    ensures var r := RelayAt(lines, oks, interval, i);
      && r.thin && t + r.skipped % interval <= i
      && forall k: nat | i - r.skipped % interval <= k < i :: !Delivered(lines, oks, interval, k)
  {
    hide Send, Skip;
    if i == t + 1 {
      AllDeliveredUntilTimeout(lines, oks, interval, t);
      FirstTimeoutThins(lines[t], interval);
    } else {
      CounterIsHonest(lines, oks, interval, t, i - 1);
      CounterStep(RelayAt(lines, oks, interval, i - 1), lines[i - 1], interval, oks[i - 1]);
    }
  }

  lemma FirstTimeoutThins(line: string, interval: nat)
    requires interval >= 2
    ensures Send(Fresh(), line, interval, [false]).relay == Relay(true, false, 1)
    ensures 1 % interval == 1
  {
    SendRecursesAtMostOnce(Fresh(), line, interval, [false]);
  }

  /** How a thin relay counts: a skipped line adds one, a delivery starts over, and a timeout
      counts the line it drops. */
  lemma CounterStep(r: Relay, line: string, interval: nat, ok: bool)
    requires interval >= 2 && r.thin
    ensures var after := Send(r, line, interval, [ok]).relay;
      && after.thin
      && after.skipped % interval == (if Skip(r, interval) then r.skipped % interval + 1 else if ok then 0 else 1)
  {
    SendCounts(r, line, interval, ok);
    hide Send;
    NextResidue(r.skipped, interval);
    OneIsItsResidue(interval);
  }

  lemma SendCounts(r: Relay, line: string, interval: nat, ok: bool)
    requires interval >= 2 && r.thin
    ensures var after := Send(r, line, interval, [ok]).relay;
      after.thin && after.skipped == if Skip(r, interval) || ok then r.skipped + 1 else 1
  {
    SendRecursesAtMostOnce(r, line, interval, [ok]);
    hide Skip;
  }

  lemma OneIsItsResidue(interval: nat)
    requires interval >= 2
    ensures 1 % interval == 1
  {
  }

  lemma NextResidue(n: nat, d: nat)
    requires d >= 2
    ensures (n + 1) % d == if n % d == d - 1 then 0 else n % d + 1
  {
    var q, r := n / d, n % d;
    assert n == d * q + r;
    if r == d - 1 {
      assert n + 1 == d * (q + 1);
    } else {
      assert n + 1 == d * q + (r + 1);
    }
    DivisionIsUnique(n + 1, d, if r == d - 1 then q + 1 else q, if r == d - 1 then 0 else r + 1);
  }

  lemma Multiple(d: nat, k: int)
    ensures k >= 1 ==> d * k >= d
    ensures k <= -1 ==> d * k + d <= 0
  {
  }

  lemma DivisionIsUnique(n: nat, d: nat, q: nat, r: nat)
    requires d >= 1 && n == d * q + r && r < d
    ensures n % d == r
  {
    var k := q - n / d;
    Multiple(d, k);
    assert n == d * (n / d) + n % d;
    assert d * k == d * q - d * (n / d);
  }

  /** Once something has timed out, each delivered line comes after at least interval - 1
      dropped ones. */
  lemma DeliveriesAreSpaced(lines: seq<string>, oks: seq<bool>, interval: nat, t: nat, i: nat)
    requires interval >= 2 && |lines| == |oks| && FirstTimeout(oks, t) && t < i < |lines|
    requires Delivered(lines, oks, interval, i)
    ensures i >= t + interval - 1
    ensures forall k: nat | i - interval < k < i :: !Delivered(lines, oks, interval, k)
  {
    CounterIsHonest(lines, oks, interval, t, i);
    NextResidue(RelayAt(lines, oks, interval, i).skipped, interval);
  }

  /** While nothing more times out, thinning is regular: exactly every interval-th line after the
      first timeout is delivered, the dropped line counted. */
  lemma ThinningIsRegular(lines: seq<string>, oks: seq<bool>, interval: nat, t: nat, i: nat)
    requires interval >= 2 && |lines| == |oks| && FirstTimeout(oks, t) && t < i < |lines|
    requires forall k | t < k <= i :: oks[k]
    ensures Delivered(lines, oks, interval, i) <==> (i - t + 1) % interval == 0
  {
    hide Send;
    CountsSinceTimeout(lines, oks, interval, t, i);
  }

  lemma {:induction false} CountsSinceTimeout(lines: seq<string>, oks: seq<bool>, interval: nat, t: nat, i: nat)
    requires interval >= 2 && |lines| == |oks| && FirstTimeout(oks, t) && t < i <= |lines|
    requires forall k | t < k < i :: oks[k]
    ensures var r := RelayAt(lines, oks, interval, i); r.thin && r.skipped == i - t
  {
    hide Send, Skip;
    if i == t + 1 {
      AllDeliveredUntilTimeout(lines, oks, interval, t);
      FirstTimeoutThins(lines[t], interval);
    } else {
      CountsSinceTimeout(lines, oks, interval, t, i - 1);
      SendCounts(RelayAt(lines, oks, interval, i - 1), lines[i - 1], interval, true);
    }
  }

  /** Whatever else times out, among any `interval` lines in a row one is tried. */
  lemma OneInEveryIntervalIsTried(lines: seq<string>, oks: seq<bool>, interval: nat, t: nat, i: nat)
    requires interval >= 2 && |lines| == |oks| && FirstTimeout(oks, t) && t < i && i + interval <= |lines|
    ensures exists k | i <= k < i + interval :: !Skip(RelayAt(lines, oks, interval, k), interval)
  {
    hide Send, Skip;
    if forall k | i <= k < i + interval :: Skip(RelayAt(lines, oks, interval, k), interval) {
      SkippingCountsUp(lines, oks, interval, t, i, interval);
      assert false;
    }
  }

  lemma {:induction false} SkippingCountsUp(lines: seq<string>, oks: seq<bool>, interval: nat, t: nat, i: nat, m: nat)
    requires interval >= 2 && |lines| == |oks| && FirstTimeout(oks, t) && t < i && i + m <= |lines|
    requires forall k | i <= k < i + m :: Skip(RelayAt(lines, oks, interval, k), interval)
    ensures RelayAt(lines, oks, interval, i + m).skipped % interval == RelayAt(lines, oks, interval, i).skipped % interval + m
  {
    hide Send, Skip;
    if m > 0 {
      SkippingCountsUp(lines, oks, interval, t, i, m - 1);
      CounterIsHonest(lines, oks, interval, t, i + m - 1);
      CounterStep(RelayAt(lines, oks, interval, i + m - 1), lines[i + m - 1], interval, oks[i + m - 1]);
    }
  }

  lemma MarkerStep(r: Relay, line: string, interval: nat, ok: bool, head: seq<Output>, later: seq<Output>)
    requires interval >= 2 && r.thin && (!r.markerSent ==> later == [])
    ensures var s := Send(r, line, interval, [ok]);
      var more := later + (if !Skip(r, interval) && ok then [Sent(line)] else []);
      && (head + (if r.markerSent then [Marker] else []) + later) + s.out == head + (if s.relay.markerSent then [Marker] else []) + more
      && (!s.relay.markerSent ==> more == [])
  {
    SendRecursesAtMostOnce(r, line, interval, [ok]);
    hide Send;
  }

  /** The whole output: every line up to the first timeout, then at most one marker, and only
      after it the lines that still get through. */
  lemma {:induction false} OneMarkerBeforeThinnedLines(lines: seq<string>, oks: seq<bool>, interval: nat, t: nat, i: nat)
    requires interval >= 2 && |lines| == |oks| && FirstTimeout(oks, t) && t < i <= |lines|
    ensures var r, later := RelayAt(lines, oks, interval, i), DeliveredLines(lines, oks, interval, t + 1, i);
      && OutputAt(lines, oks, interval, i) == AllOf(lines[..t]) + (if r.markerSent then [Marker] else []) + later
      && (!r.markerSent ==> later == [])
  {
    hide Send, Skip, AllOf;
    if i == t + 1 {
      OutputAtFirstTimeout(lines, oks, interval, t);
    } else {
      OneMarkerBeforeThinnedLines(lines, oks, interval, t, i - 1);
      CounterIsHonest(lines, oks, interval, t, i - 1);
      MarkerStep(RelayAt(lines, oks, interval, i - 1), lines[i - 1], interval, oks[i - 1],
                 AllOf(lines[..t]), DeliveredLines(lines, oks, interval, t + 1, i - 1));
    }
  }

  /** The line that times out first is dropped, and no marker is out yet. */
  lemma OutputAtFirstTimeout(lines: seq<string>, oks: seq<bool>, interval: nat, t: nat)
    requires interval >= 2 && |lines| == |oks| && FirstTimeout(oks, t)
    ensures !RelayAt(lines, oks, interval, t + 1).markerSent
    ensures OutputAt(lines, oks, interval, t + 1) == AllOf(lines[..t])
  {
    hide Send, AllOf;
    AllDeliveredUntilTimeout(lines, oks, interval, t);
    SendRecursesAtMostOnce(Fresh(), lines[t], interval, [oks[t]]);
  }

  // ------------------------------------------------------------------ the relay object

  class LogWebSocketRelay {
    var thinMode: bool
    var thinMarkerSent: bool
    var skipped: nat
    ghost var socket: seq<Output>
    const interval: nat

    ghost function View(): Relay
      reads this
    {
      Relay(thinMode, thinMarkerSent, skipped)
    }

    constructor (interval: nat)
      requires interval >= 1
      ensures View() == Fresh() && socket == [] && this.interval == interval
    {
      thinMode, thinMarkerSent, skipped, socket := false, false, 0, [];
      this.interval := interval;
    }

    method SendLine(line: string, outcomes: seq<bool>)
      requires interval >= 1
      modifies this
      ensures var s := Send(old(View()), line, interval, outcomes);
        View() == s.relay && socket == old(socket) + s.out
      decreases |outcomes|
    {
      if thinMode {
        skipped := skipped + 1;
        if skipped % interval != 0 {
          return;
        }
        if !thinMarkerSent {
          socket := socket + [Marker];
          thinMarkerSent := true;
        }
      }
      if outcomes == [] || outcomes[0] {
        socket := socket + [Sent(line)];
      } else {
        thinMode := true;
        skipped := 0;
        SendLine(line, outcomes[1..]);
      }
    }

    /** The loop of `replay_buffer` and of `relay_live`: send lines up to the first end marker.
        `all` is everything this viewer is to be sent, of which `from` lines already were. */
    method SendUntilEof(messages: seq<Message>, oks: seq<bool>, ghost all: seq<string>, from: nat) returns (sent: nat, ended: bool)
      requires interval >= 1 && |all| == |oks| && from + |UntilEof(messages)| <= |all|
      requires all[from..from + |UntilEof(messages)|] == Texts(UntilEof(messages))
      requires View() == RelayAt(all, oks, interval, from) && socket == OutputAt(all, oks, interval, from)
      modifies this
      ensures sent == |UntilEof(messages)| && (ended <==> exists m | m in messages :: m.Eof?)
      ensures View() == RelayAt(all, oks, interval, from + sent) && socket == OutputAt(all, oks, interval, from + sent)
    {
      hide Send, UntilEof;
      UntilEofIsPrefix(messages);
      sent, ended := 0, false;
      while sent < |messages|
        invariant sent <= |UntilEof(messages)| && forall k | 0 <= k < sent :: messages[k].Line?
        invariant View() == RelayAt(all, oks, interval, from + sent) && socket == OutputAt(all, oks, interval, from + sent)
      {
        if messages[sent].Eof? {
          EofEndsHere(messages, sent);
          return sent, true;
        }
        LineIsBeforeEof(messages, sent);
        assert all[from + sent] == all[from..from + |UntilEof(messages)|][sent];
        SendLine(messages[sent].text, [oks[from + sent]]);
        sent := sent + 1;
      }
    }

    /** `stream_job_logs` for a job that is not finished: replay, subscribe, relay, and tell the
        viewer about the end only when the channel did. */
    method StreamJobLogs(replay: seq<Message>, live: seq<Message>, oks: seq<bool>) returns (eofSent: bool)
      requires interval >= 1 && View() == Fresh() && socket == []
      requires |oks| == |UntilEof(replay) + UntilEof(live)|
      modifies this
      ensures var all := Texts(UntilEof(replay) + UntilEof(live));
        socket == OutputAt(all, oks, interval, |all|)
      ensures eofSent <==> exists m | m in live :: m.Eof?
    {
      hide Send, UntilEof;
      ghost var all := Texts(UntilEof(replay) + UntilEof(live));
      ghost var first := |UntilEof(replay)|;
      assert all[0..first] == Texts(UntilEof(replay));
      var n, _ := SendUntilEof(replay, oks, all, 0);
      assert all[n..n + |UntilEof(live)|] == Texts(UntilEof(live));
      n, eofSent := SendUntilEof(live, oks, all, n);
    }
  }

  function Texts(ms: seq<Message>): (r: seq<string>)
    requires forall m | m in ms :: m.Line?
    ensures |r| == |ms| && forall i | 0 <= i < |r| :: r[i] == ms[i].text
  {
    seq(|ms|, i requires 0 <= i < |ms| => ms[i].text)
  }

  lemma EofEndsHere(ms: seq<Message>, i: nat)
    requires i < |ms| && ms[i].Eof? && i <= |UntilEof(ms)|
    ensures i == |UntilEof(ms)|
  {
    UntilEofIsPrefix(ms);
    hide UntilEof;
    assert forall k | 0 <= k < |UntilEof(ms)| :: UntilEof(ms)[k].Line? && ms[k].Line?;
  }

  lemma LineIsBeforeEof(ms: seq<Message>, i: nat)
    requires i < |ms| && ms[i].Line? && i <= |UntilEof(ms)|
    ensures i < |UntilEof(ms)| && UntilEof(ms)[i] == ms[i]
  {
    UntilEofIsPrefix(ms);
  }
}
