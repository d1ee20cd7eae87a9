/** Heartbeat timers, over every run: what each was last set by, and when it expires. */
module Timers {
  import opened Common
  import opened TimeArithmetic
  import opened BrokerMachine
  import opened Registry
  import opened Routing

  const INTERVAL_NS := HEARTBEAT_INTERVAL * 1_000_000

  /** The clock reading with which the event sets the timer of service `s`, if it does. */
  function Sets(b: Broker, e: Event, b': Broker, s: Service): Option<Timespec> {
    match e
    case Registering(t, clock) => if t == s && s !in b.available && s in b'.available then Some(clock) else None
    case Requesting(_, t, _, _, rearm) => if t == s && s in b.services then Some(rearm) else None
    case Beating(_, _, rearm) => if ChecksService(b, e, s) then Some(rearm) else None
    case _ => None
  }

  /** The clock reading with which step `i` sets the timer of the service. */
  function SetAt(bs: seq<Broker>, es: seq<Event>, s: Service, i: nat): Option<Timespec>
    requires i < |es| < |bs|
  {
    Sets(bs[i], es[i], bs[i + 1], s)
  }

  /** The clock reading of the last of the first `i` steps that sets the timer of service `s`. */
  function LastSet(bs: seq<Broker>, es: seq<Event>, s: Service, i: nat): Option<Timespec>
    requires i <= |es| < |bs|
  {
    if i == 0 then None
    else if SetAt(bs, es, s, i - 1).Some? then SetAt(bs, es, s, i - 1)
    else LastSet(bs, es, s, i - 1)
  }

  /** Timer `k` runs out one interval after the clock reading. */
  predicate RunsFrom(b: Broker, k: nat, start: Option<Timespec>) {
    && k < |b.timeouts| && start.Some?
    && Total(b.timeouts[k]) == Total(start.value) + INTERVAL_NS
    && b.timeouts[k].nsec == start.value.nsec
  }

  // ---- One event

  lemma OneInterval(clock: Timespec)
    ensures AddMs(clock, HEARTBEAT_INTERVAL) == Carry(Timespec(clock.sec + 2, clock.nsec))
    ensures Total(AddMs(clock, HEARTBEAT_INTERVAL)) == Total(clock) + INTERVAL_NS
    ensures Normalized(clock) ==> AddMs(clock, HEARTBEAT_INTERVAL).nsec == clock.nsec
  {
    AddMsIsExact(clock, HEARTBEAT_INTERVAL);
    if Normalized(clock) {
      WholeSeconds(clock, HEARTBEAT_INTERVAL);
    }
  }

  ghost predicate ClockOk(e: Event) {
    match e
    case Registering(_, clock) => Normalized(clock)
    case Requesting(_, _, _, clock, rearm) => Normalized(clock) && Normalized(rearm)
    case Beating(_, now, rearm) => Normalized(now) && Normalized(rearm)
    case Sweeping(now) => Normalized(now)
    case _ => true
  }

  /** Positions and timers stay, but for what the event sets. */
  ghost predicate TimersMove(b: Broker, e: Event, b': Broker) {
    && b.available <= b'.available && |b'.timeouts| == |b'.available|
    && forall k :: 0 <= k < |b'.available| ==>
         match Sets(b, e, b', b'.available[k])
         case Some(clock) => b'.timeouts[k] == AddMs(clock, HEARTBEAT_INTERVAL)
         case None => k < |b.timeouts| && b'.timeouts[k] == b.timeouts[k]
  }

  lemma PositionIsUnique(ss: seq<Service>, k: nat)
    requires NoRepeats(ss) && k < |ss|
    ensures IndexOf(ss, ss[k]) == k
  {
    assert ss[k] !in ss[..k];
    IndexOfIs(ss, ss[k], k);
  }

  lemma RegistrationSets(b: Broker, e: Event)
    requires Valid(b) && e.Registering?
    ensures TimersMove(b, e, Step(b, e).state)
  {
  }

  lemma RequestSets(b: Broker, e: Event)
    requires Valid(b) && e.Requesting? && Step(b, e).Ok?
    ensures TimersMove(b, e, Step(b, e).state)
  {
    forall k | 0 <= k < |b.available| ensures IndexOf(b.available, b.available[k]) == k {
      PositionIsUnique(b.available, k);
    }
  }

  /** An expired timer is set again, at its own position and no other. */
  lemma BeatSets(b: Broker, e: Event)
    requires Valid(b) && e.Beating? && Step(b, e).Ok?
    ensures TimersMove(b, e, Step(b, e).state)
    ensures Step(b, e).state.timeouts
         == if Beats(b, e, e.index) then b.timeouts[e.index := AddMs(e.rearm, HEARTBEAT_INTERVAL)] else b.timeouts
  {
    if Beats(b, e, e.index) {
      PositionIsUnique(b.available, e.index);
    }
  }

  /** Each event sets exactly the timers that it is to set, and no other moves. */
  lemma StepSets(b: Broker, e: Event)
    requires Valid(b) && Step(b, e).Ok?
    ensures TimersMove(b, e, Step(b, e).state)
  {
    match e
    case Registering(_, _) => RegistrationSets(b, e);
    case Requesting(_, _, _, _, _) => RequestSets(b, e);
    case Beating(_, _, _) => BeatSets(b, e);
    case _ =>
  }

  // ---- Whole runs

  /**
   * In every run: the timer of an available service runs from the last clock reading among its becoming
   * available, the requests accepted for it, and its own expired heartbeats, and from nothing else.
   */
  lemma {:induction false} TimersRunFromLastSet(nmr: nat, bs: seq<Broker>, es: seq<Event>, i: nat, k: nat)
    requires nmr < UINT8_SIZE && IsTrace(nmr, bs, es) && i < |bs| && k < |bs[i].available|
    requires forall j :: 0 <= j < i ==> ClockOk(es[j])
    ensures RunsFrom(bs[i], k, LastSet(bs, es, bs[i].available[k], i))
    ensures Normalized(LastSet(bs, es, bs[i].available[k], i).value)
  {
    if i > 0 {
      assert TraceStep(bs, es, i - 1) && ClockOk(es[i - 1]);
      StepSets(bs[i - 1], es[i - 1]);
      match Sets(bs[i - 1], es[i - 1], bs[i], bs[i].available[k])
      case Some(clock) => OneInterval(clock);
      case None => TimersRunFromLastSet(nmr, bs, es, i - 1, k);
    }
  }

  /**
   * When a service is checked: at a heartbeat of its position later than one interval after its timer was last
   * set.
   */
  lemma CheckedIff(nmr: nat, bs: seq<Broker>, es: seq<Event>, i: nat, k: nat)
    requires nmr < UINT8_SIZE && IsTrace(nmr, bs, es) && i < |es| && k < |bs[i].available|
    requires forall j :: 0 <= j <= i ==> ClockOk(es[j])
    requires es[i].Beating? && es[i].index == k
    ensures var start := LastSet(bs, es, bs[i].available[k], i);
            start.Some? && (ChecksService(bs[i], es[i], bs[i].available[k]) <==>
                          Total(es[i].now) > Total(start.value) + INTERVAL_NS)
  {
    assert TraceStep(bs, es, i) && ClockOk(es[i]);
    TimersRunFromLastSet(nmr, bs, es, i, k);
    CompareFollowsTotal(es[i].now, bs[i].timeouts[k]);
  }

  /** Clock readings that set the timer of the service never run back. */
  ghost predicate SetForwards(bs: seq<Broker>, es: seq<Event>, s: Service)
    requires |es| < |bs|
  {
    forall i, j :: 0 <= i < j < |es| && SetAt(bs, es, s, i).Some? && SetAt(bs, es, s, j).Some? ==>
      Total(SetAt(bs, es, s, i).value) <= Total(SetAt(bs, es, s, j).value)
  }

  lemma {:induction false} LastSetIsLater(bs: seq<Broker>, es: seq<Event>, s: Service, i: nat, j: nat)
    requires |es| < |bs| && i < j <= |es| && SetForwards(bs, es, s)
    requires SetAt(bs, es, s, i).Some?
    ensures LastSet(bs, es, s, j).Some?
    ensures Total(LastSet(bs, es, s, j).value) >= Total(SetAt(bs, es, s, i).value)
    decreases j
  {
    if j > i + 1 && SetAt(bs, es, s, j - 1).None? {
      LastSetIsLater(bs, es, s, i, j - 1);
    }
  }

  /**
   * Two checks of one service lie more than one interval apart: the later one comes more than
   * HEARTBEAT_INTERVAL after the clock reading with which the earlier one set the timer again.
   */
  lemma ChecksLieApart(nmr: nat, bs: seq<Broker>, es: seq<Event>, s: Service, i: nat, j: nat)
    requires nmr < UINT8_SIZE && IsTrace(nmr, bs, es) && i < j < |es|
    requires (forall n :: 0 <= n <= j ==> ClockOk(es[n])) && SetForwards(bs, es, s)
    requires ChecksService(bs[i], es[i], s) && ChecksService(bs[j], es[j], s)
    ensures Total(es[j].now) > Total(es[i].rearm) + INTERVAL_NS
  {
    CheckedIff(nmr, bs, es, j, es[j].index);
    assert SetAt(bs, es, s, i) == Some(es[i].rearm);
    LastSetIsLater(bs, es, s, i, j);
  }
}
