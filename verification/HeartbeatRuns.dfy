/** The heartbeat results carried over to runs of the whole broker. */
module HeartbeatRuns {
  import opened Common
  import opened TimeArithmetic
  import opened Database
  import opened BrokerMachine
  import opened Registry
  import opened Heartbeats

  /** What a broker event means to the slots of a registered service; a registration does not name its copy. */
  function BeatOf(b: Broker, e: Event, s: Service): seq<Beat> {
    match e
    case Registering(t, _) => if t == s then [Again(0)] else []
    case Ponging(t, copy) => if t == s then [Pong(copy)] else []
    case Beating(i, now, _) =>
      if i < |b.timeouts| == |b.available| && Expired(now, b.timeouts[i]) && b.available[i] == s then [Check] else []
    case _ => []
  }

  /** The beats of service `s` from step `lo` up to step `hi` of a run. */
  function BeatsOf(bs: seq<Broker>, es: seq<Event>, s: Service, lo: nat, hi: nat): seq<Beat>
    requires lo <= hi <= |es| < |bs|
  {
    if lo == hi then [] else BeatsOf(bs, es, s, lo, hi - 1) + BeatOf(bs[hi - 1], es[hi - 1], s)
  }

  ghost predicate SameSlots(r: ServiceRecord, q: ServiceRecord) {
    r.registered == q.registered && r.reliable == q.reliable && r.newPong == q.newPong && r.lostPong == q.lostPong
  }

  lemma ApplySame(r: ServiceRecord, q: ServiceRecord, nmr: nat, b: Beat)
    requires |r.newPong| == |r.lostPong| == nmr && SameSlots(r, q)
    ensures SameSlots(Apply(r, nmr, b), Apply(q, nmr, b))
  {
    if b.Check? {
      assert Charged(r) == Charged(q);
      assert CheckRecord(r).lostPong == CheckRecord(q).lostPong;
      assert CheckRecord(r).newPong == CheckRecord(q).newPong;
    }
  }

  ghost predicate Moves(b: Broker, e: Event, s: Service, b': Broker)
    requires Valid(b) && s in b.services
  {
    && s in b'.services
    && SameSlots(b'.services[s],
                 if BeatOf(b, e, s) == [] then b.services[s] else Apply(b.services[s], b.nmr, BeatOf(b, e, s)[0]))
  }

  lemma HeartbeatMoves(b: Broker, e: Event, s: Service)
    requires Valid(b) && s in b.services && e.Beating? && Step(b, e).Ok?
    ensures Moves(b, e, s, Step(b, e).state)
  {
  }

  lemma RequestMoves(b: Broker, e: Event, s: Service)
    requires Valid(b) && s in b.services && (e.Requesting? || e.Replying?) && Step(b, e).Ok?
    ensures Moves(b, e, s, Step(b, e).state)
  {
  }

  lemma SweepMoves(b: Broker, e: Event, s: Service)
    requires Valid(b) && s in b.services && e.Sweeping? && Step(b, e).Ok?
    ensures Moves(b, e, s, Step(b, e).state)
  {
    SweepFromKeeps(b.services, b.nmr, b.available, 0, e.now);
    assert Step(b, e).state.services[s] == b.services[s].(requests := Step(b, e).state.services[s].requests);
  }

  /** One event moves the slots of a registered service by its beat, if it has one. */
  lemma StepBeats(b: Broker, e: Event, s: Service)
    requires Valid(b) && s in b.services && Step(b, e).Ok?
    ensures Moves(b, e, s, Step(b, e).state)
  {
    match e
    case Registering(t, _) =>
    case Ponging(t, copy) =>
    case Beating(_, _, _) => HeartbeatMoves(b, e, s);
    case Requesting(_, _, _, _, _) => RequestMoves(b, e, s);
    case Replying(_, _, _, _) => RequestMoves(b, e, s);
    case Sweeping(now) => SweepMoves(b, e, s);
  }

  /** One more event after the beats `beats`. */
  lemma BeatsStep(b: Broker, e: Event, s: Service, beats: seq<Beat>)
    requires Valid(b) && s in b.services && Step(b, e).Ok? && SameSlots(b.services[s], After(b.nmr, beats))
    ensures var b' := Step(b, e).state;
            s in b'.services && SameSlots(b'.services[s], After(b.nmr, beats + BeatOf(b, e, s)))
  {
    StepBeats(b, e, s);
    var beat := BeatOf(b, e, s);
    if beat != [] {
      ApplySame(b.services[s], After(b.nmr, beats), b.nmr, beat[0]);
      assert (beats + beat)[..|beats|] == beats;
    } else {
      assert beats + beat == beats;
    }
  }

  lemma FirstRegistration(b: Broker, e: Event, s: Service)
    requires Valid(b) && s !in b.services && e.Registering? && e.service == s
    ensures var b' := Step(b, e).state;
            s in b'.services && SameSlots(b'.services[s], After(b.nmr, []))
  {
  }

  /**
   * From its first registration on, the slots and counters of a service are what its beats make of a
   * fresh record, in every run of the broker.
   */
  lemma {:induction false} SlotsFollowBeats(nmr: nat, bs: seq<Broker>, es: seq<Event>, s: Service, m: nat, i: nat)
    requires nmr < UINT8_SIZE && IsTrace(nmr, bs, es) && m < i < |bs|
    requires s !in bs[m].services && es[m].Registering? && es[m].service == s
    ensures Valid(bs[i]) && bs[i].nmr == nmr && s in bs[i].services
    ensures SameSlots(bs[i].services[s], After(nmr, BeatsOf(bs, es, s, m + 1, i)))
  {
    assert TraceStep(bs, es, i - 1);
    AvailabilityCount(nmr, bs, es, i, s);
    AvailabilityCount(nmr, bs, es, i - 1, s);
    if i > m + 1 {
      SlotsFollowBeats(nmr, bs, es, s, m, i - 1);
      BeatsStep(bs[i - 1], es[i - 1], s, BeatsOf(bs, es, s, m + 1, i - 1));
    } else {
      FirstRegistration(bs[m], es[m], s);
    }
  }

  // ---- Naming the copies behind the registrations

  /** `named` is `bs` with each re-registration attributed to a copy. */
  ghost predicate Attributes(named: seq<Beat>, bs: seq<Beat>) {
    && |named| == |bs|
    && forall k :: 0 <= k < |bs| ==> if bs[k].Again? then named[k].Again? else named[k] == bs[k]
  }

  lemma {:induction false} NamesDoNotMatter(nmr: nat, named: seq<Beat>, bs: seq<Beat>)
    requires Attributes(named, bs)
    ensures After(nmr, named) == After(nmr, bs)
  {
    if bs != [] {
      NamesDoNotMatter(nmr, named[..|bs| - 1], bs[..|bs| - 1]);
    }
  }

  lemma SameSets(r: ServiceRecord, q: ServiceRecord)
    requires SameSlots(r, q) && |q.newPong| == |q.lostPong|
    ensures LiveSlots(r) == LiveSlots(q) && Charged(r) == Charged(q)
  {
  }

  /** A service with room for a copy takes it and tells it its port, which is not the refusal. */
  lemma RoomIsGranted(nmr: nat, bs: seq<Broker>, es: seq<Event>, s: Service, i: nat, clock: Timespec)
    requires nmr < UINT8_SIZE && IsTrace(nmr, bs, es) && i < |bs| && |bs[i].services| <= MAX_SERVICES
    requires s in bs[i].services && bs[i].services[s].registered < bs[i].nmr
    ensures GetRegistration(bs[i], s, clock).out == [RegistrationReply(bs[i].services[s].dealerSocket)]
    ensures bs[i].services[s].dealerSocket != REG_FAIL
  {
    RegistryInvariant(nmr, bs, es, i);
  }

  /**
   * In every run of the broker whose copies behave as in `CopyAccounting`: the number of copies a ready
   * service forwards to is the number of its live slots plus those awaiting a pong, at most `nmr`; a check
   * takes no more off than there is; and a written-off copy that registers again is told the service's port
   * and not REG_FAIL.
   */
  lemma BrokerCopyAccounting(nmr: nat, bs: seq<Broker>, es: seq<Event>, s: Service, m: nat, i: nat,
                             named: seq<Beat>, j: nat, clock: Timespec)
    requires 0 < nmr < UINT8_SIZE && IsTrace(nmr, bs, es) && m < i < |bs|
    requires s !in bs[m].services && es[m].Registering? && es[m].service == s
    requires Attributes(named, BeatsOf(bs, es, s, m + 1, i))
    requires Disciplined(nmr, named) && Ready(nmr, named)
    ensures s in bs[i].services
    ensures var r := bs[i].services[s];
            && r.registered == r.reliable == |LiveSlots(r)| + |Awaiting(nmr, named)| <= nmr
            && |r.newPong| == |r.lostPong| && |Charged(r)| <= r.registered
            && (Orderly(nmr, named, Again(j)) ==> r.registered < nmr)
            && (Orderly(nmr, named, Again(j)) && |bs[i].services| <= MAX_SERVICES ==>
                  && GetRegistration(bs[i], s, clock).out == [RegistrationReply(r.dealerSocket)]
                  && r.dealerSocket != REG_FAIL)
  {
    var beats := BeatsOf(bs, es, s, m + 1, i);
    SlotsFollowBeats(nmr, bs, es, s, m, i);
    NamesDoNotMatter(nmr, named, beats);
    CopyAccounting(nmr, named, j);
    SameSets(bs[i].services[s], After(nmr, named));
    if Orderly(nmr, named, Again(j)) && |bs[i].services| <= MAX_SERVICES {
      RoomIsGranted(nmr, bs, es, s, i, clock);
    }
  }

  /**
   * In every run of the broker, whatever copies do: while the headcount of a service has never been negative,
   * both its counters are the headcount, and an expired timer takes more off them than there is exactly if
   * it makes the headcount negative.
   */
  lemma BrokerWrapsIff(nmr: nat, bs: seq<Broker>, es: seq<Event>, s: Service, m: nat, i: nat)
    requires 0 < nmr < UINT8_SIZE && IsTrace(nmr, bs, es) && m < i < |bs|
    requires s !in bs[m].services && es[m].Registering? && es[m].service == s
    requires HeadcountHolds(nmr, BeatsOf(bs, es, s, m + 1, i))
    ensures s in bs[i].services
    ensures var r := bs[i].services[s];
            && |r.newPong| == |r.lostPong|
            && r.registered == r.reliable == Headcount(nmr, BeatsOf(bs, es, s, m + 1, i)) <= nmr
            && (i < |es| && BeatOf(bs[i], es[i], s) == [Check] ==>
                  (|Charged(r)| <= r.registered <==> Headcount(nmr, BeatsOf(bs, es, s, m + 1, i + 1)) >= 0))
  {
    var beats := BeatsOf(bs, es, s, m + 1, i);
    SlotsFollowBeats(nmr, bs, es, s, m, i);
    NeverWrapsIff(nmr, beats);
    SameSets(bs[i].services[s], After(nmr, beats));
    if i < |es| && BeatOf(bs[i], es[i], s) == [Check] {
      assert BeatsOf(bs, es, s, m + 1, i + 1) == beats + [Check];
      WrapStep(nmr, beats, Check);
    }
  }

  lemma CheckWritesOff(nmr: nat, beats: seq<Beat>, j: nat)
    requires j < nmr
    ensures var rounds := Rounds(beats + [Check], j);
            After(nmr, beats).lostPong[j] < LIVENESS == After(nmr, beats + [Check]).lostPong[j]
            <==> Silent(rounds) == Patience(rounds)
  {
    SlotFollowsHistory(nmr, beats, j);
    assert (beats + [Check])[..|beats|] == beats;
    WriteOffTiming(nmr, beats, j);
  }

  /** In every run, an expired heartbeat timer writes off exactly the copies silent for their full patience. */
  lemma BrokerWriteOff(nmr: nat, bs: seq<Broker>, es: seq<Event>, s: Service, m: nat, i: nat, j: nat)
    requires nmr < UINT8_SIZE && IsTrace(nmr, bs, es) && m < i < |es| && j < nmr
    requires s !in bs[m].services && es[m].Registering? && es[m].service == s
    requires BeatOf(bs[i], es[i], s) == [Check]
    ensures s in bs[i].services && s in bs[i + 1].services
    ensures |bs[i].services[s].lostPong| == |bs[i + 1].services[s].lostPong| == nmr
    ensures var rounds := Rounds(BeatsOf(bs, es, s, m + 1, i + 1), j);
            bs[i].services[s].lostPong[j] < LIVENESS == bs[i + 1].services[s].lostPong[j]
            <==> Silent(rounds) == Patience(rounds)
  {
    SlotsFollowBeats(nmr, bs, es, s, m, i);
    SlotsFollowBeats(nmr, bs, es, s, m, i + 1);
    var beats := BeatsOf(bs, es, s, m + 1, i);
    assert BeatsOf(bs, es, s, m + 1, i + 1) == beats + [Check];
    assert bs[i].services[s].lostPong == After(nmr, beats).lostPong;
    assert bs[i + 1].services[s].lostPong == After(nmr, beats + [Check]).lostPong;
    CheckWritesOff(nmr, beats, j);
  }
}
