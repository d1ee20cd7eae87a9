/** A server copy: which deliveries it executes, and its cycle of registering, serving and losing the broker. */
module Server {
  import opened Common
  import opened TimeArithmetic

  // ---- Sequence ids

  const LARGEST := UINT32_SIZE - 1

  /** The increment of a 32-bit id. */
  function Successor(id: nat): nat {
    if id == LARGEST then 0 else id + 1
  }

  datatype Receipt = Receipt(next: nat, execute: bool)

  /** `next` is the id expected from now on; zero stands for any id, at the start and after a wrap. */
  function Receive(requestId: nat, id: nat): Receipt {
    var expected := if requestId == 0 then id else requestId;
    if id == expected then Receipt(Successor(expected), true) else Receipt(expected, false)
  }

  /** The ids executed out of a stream of deliveries. */
  function Executed(requestId: nat, ids: seq<nat>): seq<nat>
    decreases |ids|
  {
    if ids == [] then []
    else
      var r := Receive(requestId, ids[0]);
      (if r.execute then [ids[0]] else []) + Executed(r.next, ids[1..])
  }

  function ExpectedAfter(requestId: nat, ids: seq<nat>): nat
    decreases |ids|
  {
    if ids == [] then requestId else ExpectedAfter(Receive(requestId, ids[0]).next, ids[1..])
  }

  predicate AllBelow(ids: seq<nat>, bound: nat) {
    forall i :: 0 <= i < |ids| ==> ids[i] < bound
  }

  /** Ids off the wire have 32 bits. */
  predicate AllIds(ids: seq<nat>) {
    AllBelow(ids, UINT32_SIZE)
  }

  /** The largest id is never delivered, so the expected id does not wrap. */
  predicate BelowWrap(ids: seq<nat>) {
    AllBelow(ids, LARGEST)
  }

  function Run(first: nat, n: nat): seq<nat> {
    seq(n, k => first + k)
  }

  lemma RunStep(first: nat, n: nat)
    ensures [first] + Run(first + 1, n) == Run(first, n + 1)
    ensures Run(first, n) + [first + n] == Run(first, n + 1)
  {
  }

  lemma {:induction false} ExecutedWereDelivered(requestId: nat, ids: seq<nat>)
    ensures forall id :: id in Executed(requestId, ids) ==> id in ids
    decreases |ids|
  {
    if ids != [] {
      ExecutedWereDelivered(Receive(requestId, ids[0]).next, ids[1..]);
    }
  }

  lemma {:induction false} ExecutesUpwards(requestId: nat, ids: seq<nat>)
    requires 0 < requestId < UINT32_SIZE && AllIds(ids) && LARGEST !in Executed(requestId, ids)
    ensures Executed(requestId, ids) == Run(requestId, |Executed(requestId, ids)|)
    ensures ExpectedAfter(requestId, ids) == requestId + |Executed(requestId, ids)| < UINT32_SIZE
    decreases |ids|
  {
    if ids != [] {
      var r := Receive(requestId, ids[0]);
      var tail := Executed(r.next, ids[1..]);
      assert Executed(requestId, ids) == (if r.execute then [ids[0]] else []) + tail;
      ExecutesUpwards(r.next, ids[1..]);
      if r.execute {
        RunStep(requestId, |tail|);
      } else {
        assert [] + tail == tail;
      }
    }
  }

  /** The first id seen is executed and tells the process what to expect next. */
  lemma FirstDelivery(ids: seq<nat>)
    requires ids != []
    ensures Executed(0, ids) != [] && Executed(0, ids)[0] == ids[0]
    ensures ids[0] < LARGEST ==> Executed(0, ids) == [ids[0]] + Executed(ids[0] + 1, ids[1..])
    ensures ids[0] < LARGEST ==> ExpectedAfter(0, ids) == ExpectedAfter(ids[0] + 1, ids[1..])
  {
  }

  lemma FollowsFirst(first: nat, rest: seq<nat>)
    requires first < LARGEST && AllIds(rest) && LARGEST !in Executed(first + 1, rest)
    ensures var tail := Executed(first + 1, rest);
            && [first] + tail == Run(first, |tail| + 1)
            && ExpectedAfter(first + 1, rest) == first + 1 + |tail| < UINT32_SIZE
  {
    ExecutesUpwards(first + 1, rest);
    RunStep(first, |Executed(first + 1, rest)|);
  }

  lemma NotInTail(first: nat, tail: seq<nat>, id: nat)
    requires id !in [first] + tail
    ensures id != first && id !in tail
  {
    assert ([first] + tail)[0] == first;
    assert forall i :: 0 <= i < |tail| ==> tail[i] == ([first] + tail)[i + 1];
  }

  /** Until the largest id is executed, what is executed is a consecutive run from the first id seen. */
  lemma ConsecutiveBeforeWrap(ids: seq<nat>)
    requires ids != [] && AllIds(ids) && LARGEST !in Executed(0, ids)
    ensures |Executed(0, ids)| > 0 && Executed(0, ids) == Run(ids[0], |Executed(0, ids)|)
    ensures ExpectedAfter(0, ids) == ids[0] + |Executed(0, ids)| < UINT32_SIZE
  {
    FirstDelivery(ids);
    assert ids[0] in Executed(0, ids);
    NotInTail(ids[0], Executed(ids[0] + 1, ids[1..]), LARGEST);
    FollowsFirst(ids[0], ids[1..]);
  }

  /** One delivery after a stream. */
  lemma LastDelivery(ids: seq<nat>)
    requires ids != []
    ensures var before, id := ids[..|ids| - 1], ids[|ids| - 1];
            var r := Receive(ExpectedAfter(0, before), id);
            && Executed(0, ids) == Executed(0, before) + (if r.execute then [id] else [])
            && ExpectedAfter(0, ids) == r.next
  {
    var before, id := ids[..|ids| - 1], ids[|ids| - 1];
    assert ids == before + [id];
    Split(0, before, [id]);
    OneDelivery(ExpectedAfter(0, before), id);
  }

  /** Where the largest id is executed for the first time, and the process forgets what it expects. */
  lemma {:induction false} FirstWrap(ids: seq<nat>) returns (k: nat)
    requires AllIds(ids) && LARGEST in Executed(0, ids)
    ensures 0 < k <= |ids| && LARGEST !in Executed(0, ids[..k - 1])
    ensures Executed(0, ids[..k]) == Executed(0, ids[..k - 1]) + [LARGEST] && ExpectedAfter(0, ids[..k]) == 0
    decreases |ids|
  {
    var before := ids[..|ids| - 1];
    LastDelivery(ids);
    if LARGEST in Executed(0, before) {
      k := FirstWrap(before);
      assert before[..k] == ids[..k] && before[..k - 1] == ids[..k - 1];
    } else {
      k := |ids|;
      assert ids[..k] == ids;
    }
  }

  /** After the wrap the next delivery is executed whatever its id, so the run does not go on. */
  lemma WrapBreaksRun(ids: seq<nat>)
    requires ids != [] && AllIds(ids) && LARGEST in Executed(0, ids[..|ids| - 1])
    ensures Executed(0, ids) != Run(ids[0], |Executed(0, ids)|)
  {
    var before := ids[..|ids| - 1];
    var k := FirstWrap(before);
    var rest := ids[k..];
    assert before[..k] == ids[..k] && ids == ids[..k] + rest;
    Split(0, ids[..k], rest);
    var head, tail := Executed(0, ids[..k]), Executed(0, rest);
    assert tail[0] == rest[0] == ids[k];
    assert Executed(0, ids)[|head| - 1] == LARGEST && Executed(0, ids)[|head|] == ids[k];
  }

  lemma ConsecutiveToTheLast(ids: seq<nat>)
    requires ids != [] && AllIds(ids) && LARGEST !in Executed(0, ids[..|ids| - 1])
    ensures Executed(0, ids) == Run(ids[0], |Executed(0, ids)|)
  {
    var before, id := ids[..|ids| - 1], ids[|ids| - 1];
    LastDelivery(ids);
    if before == [] {
      assert Executed(0, ids) == [id] == Run(id, 1);
    } else {
      ConsecutiveBeforeWrap(before);
      ExtendRun(ids[0], Executed(0, before), ExpectedAfter(0, before), id);
    }
  }

  /** An id that is executed after a run is the next one of the run. */
  lemma ExtendRun(first: nat, run: seq<nat>, expected: nat, id: nat)
    requires run == Run(first, |run|) && 0 < expected == first + |run|
    ensures var r := Receive(expected, id);
            var all := run + (if r.execute then [id] else []);
            all == Run(first, |all|)
  {
    RunStep(first, |run|);
    assert run + [] == run;
  }

  /**
   * Whatever is delivered, in whatever order: the ids executed are a consecutive run from the first one seen
   * if and only if nothing is delivered after the largest id has been executed.
   */
  lemma ConsecutiveIff(ids: seq<nat>)
    requires ids != [] && AllIds(ids)
    ensures Executed(0, ids) == Run(ids[0], |Executed(0, ids)|) <==> LARGEST !in Executed(0, ids[..|ids| - 1])
  {
    if LARGEST in Executed(0, ids[..|ids| - 1]) {
      WrapBreaksRun(ids);
    } else {
      ConsecutiveToTheLast(ids);
    }
  }

  /** In particular while ids stay below the largest. */
  lemma ExecutedIsConsecutive(ids: seq<nat>)
    requires ids != [] && BelowWrap(ids)
    ensures |Executed(0, ids)| > 0 && Executed(0, ids) == Run(ids[0], |Executed(0, ids)|)
    ensures ExpectedAfter(0, ids) == ids[0] + |Executed(0, ids)|
  {
    ExecutedWereDelivered(0, ids);
    ConsecutiveBeforeWrap(ids);
  }

  predicate NoIdTwice(ids: seq<nat>) {
    forall i, j :: 0 <= i < j < |ids| ==> ids[i] != ids[j]
  }

  /** However often an id is delivered, a process executes it at most once, up to the largest id. */
  lemma AtMostOnce(ids: seq<nat>)
    requires AllIds(ids) && (ids != [] ==> LARGEST !in Executed(0, ids[..|ids| - 1]))
    ensures NoIdTwice(Executed(0, ids))
  {
    if ids != [] {
      ConsecutiveIff(ids);
    }
  }

  /** The largest id comes last in the run that it ends. */
  lemma LargestIsLast(xs: seq<nat>)
    requires xs != [] && LARGEST !in Executed(0, xs[..|xs| - 1]) && LARGEST in Executed(0, xs)
    ensures Executed(0, xs) != [] && Executed(0, xs)[|Executed(0, xs)| - 1] == LARGEST
    ensures ExpectedAfter(0, xs) == 0
  {
    LastDelivery(xs);
  }

  lemma RunUpToLargest(xs: seq<nat>)
    requires xs != [] && AllIds(xs) && LARGEST !in Executed(0, xs[..|xs| - 1]) && LARGEST in Executed(0, xs)
    ensures Executed(0, xs) == Run(xs[0], UINT32_SIZE - xs[0])
  {
    ConsecutiveIff(xs);
    LargestIsLast(xs);
    var n := |Executed(0, xs)|;
    assert Run(xs[0], n)[n - 1] == xs[0] + (n - 1);
  }

  lemma ExecutedAreIds(ids: seq<nat>)
    requires AllIds(ids)
    ensures AllIds(Executed(0, ids))
  {
    ExecutedWereDelivered(0, ids);
    forall i | 0 <= i < |Executed(0, ids)| ensures Executed(0, ids)[i] <= LARGEST {
      assert Executed(0, ids)[i] in ids;
    }
  }

  /** A run up to the largest id and more ids after it: when no id comes twice. */
  lemma RunAndMoreIff(first: nat, tail: seq<nat>)
    requires first <= LARGEST && AllIds(tail)
    requires AllBelow(tail, first) ==> NoIdTwice(tail)
    ensures NoIdTwice(Run(first, UINT32_SIZE - first) + tail) <==> AllBelow(tail, first)
  {
    var head := Run(first, UINT32_SIZE - first);
    var all := head + tail;
    if i :| 0 <= i < |tail| && tail[i] >= first {
      assert all[tail[i] - first] == tail[i] && all[|head| + i] == tail[i];
    }
  }

  /**
   * Beyond it: once the largest id has been executed, no id is executed twice if and only if all that is
   * executed from then on lies below the first id the process has seen.
   */
  lemma AtMostOnceAfterWrapIff(xs: seq<nat>, ys: seq<nat>)
    requires xs != [] && AllIds(xs) && AllIds(ys)
    requires LARGEST !in Executed(0, xs[..|xs| - 1]) && LARGEST in Executed(0, xs)
    ensures NoIdTwice(Executed(0, xs + ys)) <==> AllBelow(Executed(0, ys), xs[0])
  {
    var tail := Executed(0, ys);
    RunUpToLargest(xs);
    LargestIsLast(xs);
    Split(0, xs, ys);
    ExecutedAreIds(ys);
    if AllBelow(tail, xs[0]) {
      AtMostOnceBelow(ys, xs[0]);
    }
    RunAndMoreIff(xs[0], tail);
  }

  lemma AtMostOnceBelow(ys: seq<nat>, bound: nat)
    requires AllIds(ys) && bound <= LARGEST && AllBelow(Executed(0, ys), bound)
    ensures NoIdTwice(Executed(0, ys))
  {
    if ys != [] {
      ConsecutiveBeforeWrap(ys);
    }
  }

  /** For instance, the largest id is executed each time it comes. */
  lemma WrapRepeats()
    ensures Executed(0, [LARGEST, LARGEST]) == [LARGEST, LARGEST]
  {
    assert [LARGEST, LARGEST][1..] == [LARGEST];
    assert Executed(0, [LARGEST]) == [LARGEST] + Executed(0, []);
  }

  predicate Ascending(ids: seq<nat>) {
    forall i, j :: 0 <= i < j < |ids| ==> ids[i] <= ids[j]
  }

  ghost predicate Gapless(ids: seq<nat>) {
    forall i, j :: 0 <= i < j < |ids| && j == i + 1 ==> ids[i] <= ids[j] <= ids[i] + 1
  }

  lemma {:induction false} Split(requestId: nat, xs: seq<nat>, ys: seq<nat>)
    ensures Executed(requestId, xs + ys) == Executed(requestId, xs) + Executed(ExpectedAfter(requestId, xs), ys)
    ensures ExpectedAfter(requestId, xs + ys) == ExpectedAfter(ExpectedAfter(requestId, xs), ys)
    decreases |xs|
  {
    if xs == [] {
      assert xs + ys == ys;
    } else {
      var r := Receive(requestId, xs[0]);
      var first := if r.execute then [xs[0]] else [];
      assert (xs + ys)[0] == xs[0] && (xs + ys)[1..] == xs[1..] + ys;
      Split(r.next, xs[1..], ys);
      var tail, more := Executed(r.next, xs[1..]), Executed(ExpectedAfter(requestId, xs), ys);
      assert first + (tail + more) == (first + tail) + more;
    }
  }

  lemma {:induction false} GaplessFrom(requestId: nat, ids: seq<nat>)
    requires ids != [] && Gapless(ids) && BelowWrap(ids) && 0 < requestId && ids[0] <= requestId <= ids[0] + 1
    ensures ExpectedAfter(requestId, ids) == ids[|ids| - 1] + 1
    decreases |ids|
  {
    var r := Receive(requestId, ids[0]);
    assert r.next == ids[0] + 1;
    if |ids| > 1 {
      GaplessFrom(r.next, ids[1..]);
    }
  }

  /** A stream without gaps and without going back is executed once per id, from its first to its last. */
  lemma GaplessIsExecutedInFull(ids: seq<nat>)
    requires ids != [] && Gapless(ids) && BelowWrap(ids)
    ensures Executed(0, ids) == Run(ids[0], |Executed(0, ids)|)
    ensures ids[0] + |Executed(0, ids)| == ids[|ids| - 1] + 1
  {
    ExecutedIsConsecutive(ids);
    if |ids| > 1 {
      var rest := ids[1..];
      assert Gapless(rest) && BelowWrap(rest) && rest[|rest| - 1] == ids[|ids| - 1];
      assert Receive(0, ids[0]).next == ids[0] + 1;
      GaplessFrom(ids[0] + 1, rest);
    }
  }

  lemma {:induction false} NotPastTheLast(requestId: nat, ids: seq<nat>)
    requires ids != [] && Ascending(ids) && BelowWrap(ids) && requestId <= ids[0] + 1
    ensures 0 < ExpectedAfter(requestId, ids) <= ids[|ids| - 1] + 1
    decreases |ids|
  {
    var r := Receive(requestId, ids[0]);
    assert 0 < r.next <= ids[0] + 1;
    if |ids| > 1 {
      NotPastTheLast(r.next, ids[1..]);
    }
  }

  lemma {:induction false} StuckBehind(requestId: nat, ids: seq<nat>)
    requires 0 < requestId && forall i :: 0 <= i < |ids| ==> requestId < ids[i]
    ensures Executed(requestId, ids) == []
  {
    if ids != [] {
      StuckBehind(requestId, ids[1..]);
    }
  }

  /** After one gap in an ascending stream the process executes nothing any more. */
  lemma GapIsFinal(ids: seq<nat>, i: nat)
    requires Ascending(ids) && BelowWrap(ids) && i + 1 < |ids| && ids[i + 1] > ids[i] + 1
    ensures Executed(0, ids) == Executed(0, ids[..i + 1])
  {
    assert ids == ids[..i + 1] + ids[i + 1..];
    StuckAfter(ids[..i + 1], ids[i + 1..]);
  }

  lemma StuckAfter(xs: seq<nat>, ys: seq<nat>)
    requires xs != [] && Ascending(xs) && BelowWrap(xs)
    requires forall i :: 0 <= i < |ys| ==> ys[i] > xs[|xs| - 1] + 1
    ensures Executed(0, xs + ys) == Executed(0, xs)
  {
    Split(0, xs, ys);
    NotPastTheLast(0, xs);
    StuckBehind(ExpectedAfter(0, xs), ys);
  }

  // ---- The loop

  datatype PollItem = PongSocket | ReplySocket

  datatype Module = Module(heartbeat: bool, id: nat)

  datatype Server = Server(
    requestId: nat,
    pingId: nat,
    items: seq<PollItem>,
    regOk: bool,
    pingLoss: int,
    deadline: Timespec)

  /** What one round of the loop meets: its clock readings, a message of the broker, the registrator's answer. */
  datatype Turn = Turn(
    now: Timespec,
    inbox: Option<Module>,
    received: Timespec,
    checked: bool,
    port: int,
    joined: Timespec,
    missed: Timespec)

  datatype Act = Execute(id: nat) | Duplicate | PongBroker | PongChecker | Joined | MissedPing | BrokerDead

  datatype Progress = Going(state: Server, acts: seq<Act>) | Stopped

  const PATIENCE := HEARTBEAT_INTERVAL + WCDPING

  function Init(deadline: Timespec): Server {
    Server(0, 0, [PongSocket], false, 0, deadline)
  }

  function Serve(s: Server, t: Turn): Progress {
    if !s.regOk || t.inbox.None? then Going(s, [])
    else
      var s' := s.(deadline := AddMs(t.received, PATIENCE));
      var m := t.inbox.value;
      if m.heartbeat then Going(s'.(pingId := Receive(s.pingId, m.id).next), [PongBroker])
      else
        var r := Receive(s.requestId, m.id);
        Going(s'.(requestId := r.next), [if r.execute then Execute(m.id) else Duplicate])
  }

  function Join(s: Server, t: Turn): Progress {
    if s.regOk then Going(s, [])
    else if 0 < t.port < UINT16_SIZE then
      Going(s.(items := s.items + [ReplySocket], regOk := true, pingLoss := 0,
               deadline := AddMs(t.joined, PATIENCE)), [Joined])
    else if t.port == 0 then Stopped
    else Going(s, [])
  }

  function Watch(s: Server, t: Turn): Progress {
    if !Expired(t.now, s.deadline) || !s.regOk then Going(s, [])
    else
      var s' := s.(deadline := AddMs(t.missed, PATIENCE), pingLoss := s.pingLoss + 1);
      if s'.pingLoss == LIVENESS then
        Going(s'.(items := if s.items == [] then [] else s.items[..|s.items| - 1], regOk := false),
              [MissedPing, BrokerDead])
      else Going(s', [MissedPing])
  }

  function Round(s: Server, t: Turn): Progress {
    var p := Serve(s, t);
    var checker := if t.checked then [PongChecker] else [];
    match Join(p.state, t)
    case Stopped => Stopped
    case Going(s', joined) =>
      var w := Watch(s', t);
      Going(w.state, p.acts + checker + joined + w.acts)
  }

  /** Polling index 1 is meaningful exactly while registered, and what is dropped is the reply socket. */
  predicate PollSet(s: Server) {
    s.items == if s.regOk then [PongSocket, ReplySocket] else [PongSocket]
  }

  /** How many ping timeouts the log shows since the last registration; pings received do not count. */
  function Misses(log: seq<Act>): nat {
    if log == [] then 0
    else
      match log[|log| - 1]
      case Joined => 0
      case MissedPing => Misses(log[..|log| - 1]) + 1
      case _ => Misses(log[..|log| - 1])
  }

  /** Whether the log leaves the copy registered. */
  function Registered(log: seq<Act>): bool {
    log != [] &&
    match log[|log| - 1]
    case Joined => true
    case BrokerDead => false
    case _ => Registered(log[..|log| - 1])
  }

  /** The broker is declared dead at the third miss after a registration, and at no other point. */
  ghost predicate DeadAtThird(log: seq<Act>) {
    forall k :: 0 <= k < |log| ==>
      (log[k] == BrokerDead ==> Registered(log[..k]) && Misses(log[..k]) == LIVENESS)
  }

  ghost predicate Consistent(s: Server, log: seq<Act>) {
    && PollSet(s)
    && s.regOk == Registered(log)
    && s.pingLoss == Misses(log)
    && (s.regOk ==> s.pingLoss < LIVENESS)
    && DeadAtThird(log)
  }

  lemma LogStep(log: seq<Act>, a: Act)
    ensures Misses(log + [a]) == if a == Joined then 0 else if a == MissedPing then Misses(log) + 1 else Misses(log)
    ensures Registered(log + [a]) == if a == Joined then true else if a == BrokerDead then false else Registered(log)
    ensures DeadAtThird(log) && (a == BrokerDead ==> Registered(log) && Misses(log) == LIVENESS)
            ==> DeadAtThird(log + [a])
  {
    var all := log + [a];
    assert all[..|log|] == log;
    forall k | 0 <= k < |log| ensures all[..k] == log[..k] && all[k] == log[k] {
    }
  }

  lemma ServeConsistent(s: Server, t: Turn, log: seq<Act>)
    requires Consistent(s, log)
    ensures Consistent(Serve(s, t).state, log + Serve(s, t).acts)
  {
    var acts := Serve(s, t).acts;
    if acts == [] {
      assert log + acts == log;
    } else {
      LogStep(log, acts[0]);
      assert log + acts == log + [acts[0]];
    }
  }

  lemma JoinConsistent(s: Server, t: Turn, log: seq<Act>)
    requires Consistent(s, log) && Join(s, t).Going?
    ensures Consistent(Join(s, t).state, log + Join(s, t).acts)
  {
    if s.regOk || t.port < 0 || t.port >= UINT16_SIZE {
      assert Join(s, t) == Going(s, []);
      assert log + [] == log;
    } else {
      LogStep(log, Joined);
      assert Join(s, t).acts == [Joined];
    }
  }

  lemma WatchConsistent(s: Server, t: Turn, log: seq<Act>)
    requires Consistent(s, log)
    ensures Consistent(Watch(s, t).state, log + Watch(s, t).acts)
  {
    var acts := Watch(s, t).acts;
    if acts == [] {
      assert log + acts == log;
    } else {
      LogStep(log, MissedPing);
      if |acts| == 2 {
        LogStep(log + [MissedPing], BrokerDead);
        assert log + acts == log + [MissedPing] + [BrokerDead];
      }
    }
  }

  lemma CheckerConsistent(s: Server, log: seq<Act>, checked: bool)
    requires Consistent(s, log)
    ensures Consistent(s, log + if checked then [PongChecker] else [])
  {
    LogStep(log, PongChecker);
    assert log + [] == log;
  }

  lemma Regroup(log: seq<Act>, a: seq<Act>, b: seq<Act>, c: seq<Act>, d: seq<Act>)
    ensures log + (a + b + c + d) == log + a + b + c + d
  {
  }

  lemma RoundConsistent(s: Server, t: Turn, log: seq<Act>, s': Server, log': seq<Act>)
    requires Consistent(s, log) && Round(s, t).Going?
    requires s' == Round(s, t).state && log' == log + Round(s, t).acts
    ensures Consistent(s', log')
  {
    var p := Serve(s, t);
    var checker := if t.checked then [PongChecker] else [];
    var j := Join(p.state, t);
    var w := Watch(j.state, t);
    ServeConsistent(s, t, log);
    CheckerConsistent(p.state, log + p.acts, t.checked);
    JoinConsistent(p.state, t, log + p.acts + checker);
    WatchConsistent(j.state, t, log + p.acts + checker + j.acts);
    Regroup(log, p.acts, checker, j.acts, w.acts);
  }

  /** A process from its start, with everything it did. */
  function Play(s: Server, ts: seq<Turn>): Progress {
    if ts == [] then Going(s, [])
    else
      match Play(s, ts[..|ts| - 1])
      case Stopped => Stopped
      case Going(s', acts) =>
        match Round(s', ts[|ts| - 1])
        case Stopped => Stopped
        case Going(s'', more) => Going(s'', acts + more)
  }

  /**
   * In every run: the poll set has its second entry exactly while the copy is registered, and the broker
   * is declared dead at exactly the third ping timeout since registration, however many pings came
   * between the timeouts.
   */
  lemma {:induction false} ServerRuns(deadline: Timespec, ts: seq<Turn>)
    requires Play(Init(deadline), ts).Going?
    ensures var p := Play(Init(deadline), ts);
            Consistent(p.state, p.acts)
  {
    if ts != [] {
      var p := Play(Init(deadline), ts[..|ts| - 1]);
      ServerRuns(deadline, ts[..|ts| - 1]);
      var q := Play(Init(deadline), ts);
      RoundConsistent(p.state, ts[|ts| - 1], p.acts, q.state, q.acts);
    }
  }

  /** The request ids a process takes in while registered. */
  function Delivered(s: Server, ts: seq<Turn>): seq<nat> {
    if ts == [] then []
    else
      match Play(s, ts[..|ts| - 1])
      case Stopped => []
      case Going(s', _) =>
        Delivered(s, ts[..|ts| - 1]) + Taken(s', ts[|ts| - 1])
  }

  function Executions(acts: seq<Act>): seq<nat> {
    if acts == [] then []
    else Executions(acts[..|acts| - 1]) + if acts[|acts| - 1].Execute? then [acts[|acts| - 1].id] else []
  }

  lemma {:induction false} ExecutionsConcat(a: seq<Act>, b: seq<Act>)
    ensures Executions(a + b) == Executions(a) + Executions(b)
  {
    if b == [] {
      assert a + b == a;
    } else {
      ExecutionsConcat(a, b[..|b| - 1]);
      assert (a + b)[..|a + b| - 1] == a + b[..|b| - 1];
    }
  }

  lemma {:induction false} NoExecutions(acts: seq<Act>)
    requires forall i :: 0 <= i < |acts| ==> !acts[i].Execute?
    ensures Executions(acts) == []
  {
    if acts != [] {
      NoExecutions(acts[..|acts| - 1]);
    }
  }

  lemma OnlyFirstExecutes(a: seq<Act>, b: seq<Act>, c: seq<Act>, d: seq<Act>)
    requires Executions(b) == Executions(c) == Executions(d) == []
    ensures Executions(a + b + c + d) == Executions(a)
  {
    ExecutionsConcat(a, b);
    ExecutionsConcat(a + b, c);
    ExecutionsConcat(a + b + c, d);
  }

  function Taken(s: Server, t: Turn): seq<nat> {
    if s.regOk && t.inbox.Some? && !t.inbox.value.heartbeat then [t.inbox.value.id] else []
  }

  lemma ServeExecutes(s: Server, t: Turn)
    ensures Executions(Serve(s, t).acts) == Executed(s.requestId, Taken(s, t))
    ensures Serve(s, t).state.requestId == ExpectedAfter(s.requestId, Taken(s, t))
  {
    var acts := Serve(s, t).acts;
    if acts != [] {
      assert acts[..0] == [];
      assert Executions(acts) == if acts[0].Execute? then [acts[0].id] else [];
      OneDelivery(s.requestId, t.inbox.value.id);
    }
  }

  lemma RestExecutesNothing(s: Server, t: Turn)
    ensures Executions(if t.checked then [PongChecker] else []) == []
    ensures Join(s, t).Going? ==> Executions(Join(s, t).acts) == [] && Join(s, t).state.requestId == s.requestId
    ensures Executions(Watch(s, t).acts) == [] && Watch(s, t).state.requestId == s.requestId
  {
    assert Executions([]) == [];
    NoExecutions(if t.checked then [PongChecker] else []);
    if Join(s, t).Going? {
      NoExecutions(Join(s, t).acts);
    }
    NoExecutions(Watch(s, t).acts);
  }

  lemma RoundExecutes(s: Server, t: Turn)
    requires Round(s, t).Going?
    ensures Executions(Round(s, t).acts) == Executed(s.requestId, Taken(s, t))
    ensures Round(s, t).state.requestId == ExpectedAfter(s.requestId, Taken(s, t))
  {
    var p := Serve(s, t);
    var checker := if t.checked then [PongChecker] else [];
    var j := Join(p.state, t);
    var w := Watch(j.state, t);
    ServeExecutes(s, t);
    RestExecutesNothing(p.state, t);
    RestExecutesNothing(j.state, t);
    OnlyFirstExecutes(p.acts, checker, j.acts, w.acts);
  }

  /**
   * Over a whole life, across any number of lost and found brokers, what a process executes is what id
   * tracking makes of the stream it received: registering again does not start the ids anew.
   */
  lemma {:induction false} LifeFollowsTracking(deadline: Timespec, ts: seq<Turn>)
    requires Play(Init(deadline), ts).Going?
    ensures var p := Play(Init(deadline), ts);
            && Executions(p.acts) == Executed(0, Delivered(Init(deadline), ts))
            && p.state.requestId == ExpectedAfter(0, Delivered(Init(deadline), ts))
  {
    if ts != [] {
      var before, t := ts[..|ts| - 1], ts[|ts| - 1];
      var p := Play(Init(deadline), before);
      var ids := Delivered(Init(deadline), before);
      LifeFollowsTracking(deadline, before);
      RoundExecutes(p.state, t);
      ExecutionsConcat(p.acts, Round(p.state, t).acts);
      Split(0, ids, Taken(p.state, t));
    }
  }

  lemma OneDelivery(requestId: nat, id: nat)
    ensures Executed(requestId, [id]) == if Receive(requestId, id).execute then [id] else []
    ensures ExpectedAfter(requestId, [id]) == Receive(requestId, id).next
  {
    assert [id][1..] == [];
  }

  /** The process object. Faults of sockets and threads are not modelled. */
  class RsfServer {
    var requestId: nat
    var pingId: nat
    var items: seq<PollItem>
    var regOk: bool
    var pingLoss: int
    var deadline: Timespec
    var acts: seq<Act>

    function State(): Server
      reads this
    {
      Server(requestId, pingId, items, regOk, pingLoss, deadline)
    }

    constructor (garbage: Timespec)
      ensures State() == Init(garbage) && acts == []
    {
      requestId, pingId, items, regOk, pingLoss, deadline, acts := 0, 0, [PongSocket], false, 0, garbage, [];
    }

    method TakeRequest(id: nat)
      modifies this`requestId, this`acts
      ensures requestId == Receive(old(requestId), id).next
      ensures acts == old(acts) + [if Receive(old(requestId), id).execute then Execute(id) else Duplicate]
    {
      if requestId == 0 {
        requestId := id;
      }
      if id == requestId {
        requestId := Successor(requestId);
        acts := acts + [Execute(id)];
      } else {
        acts := acts + [Duplicate];
      }
    }

    method TakePing(id: nat)
      modifies this`pingId, this`acts
      ensures pingId == Receive(old(pingId), id).next && acts == old(acts) + [PongBroker]
    {
      if pingId == 0 {
        pingId := id;
      }
      if id == pingId {
        pingId := Successor(pingId);
      }
      acts := acts + [PongBroker];
    }

    method DoServe(t: Turn)
      modifies this
      ensures State() == Serve(old(State()), t).state && acts == old(acts) + Serve(old(State()), t).acts
    {
      if regOk && t.inbox.Some? {
        deadline := AddMs(t.received, PATIENCE);
        if !t.inbox.value.heartbeat {
          TakeRequest(t.inbox.value.id);
        } else {
          TakePing(t.inbox.value.id);
        }
      }
    }

    /** False when a refused registration makes the process exit. */
    method DoJoin(t: Turn) returns (going: bool)
      modifies this
      ensures match Join(old(State()), t)
              case Going(s, more) => going && State() == s && acts == old(acts) + more
              case Stopped => !going
    {
      if !regOk {
        if 0 < t.port < UINT16_SIZE {
          items := items + [ReplySocket];
          regOk, pingLoss := true, 0;
          deadline := AddMs(t.joined, PATIENCE);
          acts := acts + [Joined];
        } else if t.port == 0 {
          return false;
        }
      }
      going := true;
    }

    method DoWatch(t: Turn)
      requires items != []
      modifies this
      ensures State() == Watch(old(State()), t).state && acts == old(acts) + Watch(old(State()), t).acts
    {
      if Expired(t.now, deadline) && regOk {
        deadline := AddMs(t.missed, PATIENCE);
        pingLoss := pingLoss + 1;
        acts := acts + [MissedPing];
        if pingLoss == LIVENESS {
          items := items[..|items| - 1];
          regOk := false;
          acts := acts + [BrokerDead];
        }
      }
    }

    /** One round of `step`. */
    method DoRound(t: Turn) returns (going: bool)
      requires items != []
      modifies this
      ensures match Round(old(State()), t)
              case Going(s, more) => going && State() == s && acts == old(acts) + more
              case Stopped => !going
    {
      ghost var s, before := State(), acts;
      DoServe(t);
      if t.checked {
        acts := acts + [PongChecker];
      }
      going := DoJoin(t);
      if going {
        DoWatch(t);
        Regroup(before, Serve(s, t).acts, if t.checked then [PongChecker] else [],
                Join(Serve(s, t).state, t).acts, Watch(Join(Serve(s, t).state, t).state, t).acts);
      }
    }
  }
}
