/** What goes out for a request, a heartbeat and a registration: how often, to whom, through which dealer. */
module Routing {
  import opened Common
  import opened TimeArithmetic
  import opened Voting
  import opened BrokerMachine
  import opened Registry

  /** The output goes out through a dealer that is bound to the port of service `s`. */
  predicate Through(b: Broker, o: Output, s: Service) {
    && s in b.services && (o.Forward? || o.Ping?)
    && o.dealer < |b.dealers| && b.dealers[o.dealer] == b.services[s].dealerSocket
  }

  // ---- Requests

  /** What goes out for a request of the client: one copy each for the reliable copies of its service. */
  ghost predicate Forwarded(b: Broker, e: Event, out: seq<Output>)
    requires e.Requesting? && e.service in b.services
  {
    var r := b.services[e.service];
    && |out| == r.reliable
    && forall o :: o in out ==>
         && o.Forward? && o.service == e.service && o.client == e.client && o.params == e.params
         && o.id == r.requestId
  }

  /** Where services became available in order: each copy of a request goes through the dealer of its service. */
  lemma RequestGoesOut(b: Broker, e: Event)
    requires Valid(b) && RegistryOk(b) && InOrder(b) && e.Requesting? && e.service in b.available
    ensures Step(b, e).Ok? && Forwarded(b, e, Step(b, e).out)
    ensures forall o :: o in Step(b, e).out ==> Through(b, o, e.service)
  {
    var k :| 0 <= k < |b.available| && b.available[k] == e.service;
    RequestHandledIff(b, e);
    RoutingIff(b, k);
  }

  /** In any order: they all go through that dealer if and only if the service has the index of its position. */
  lemma RequestGoesOutIff(b: Broker, e: Event, k: nat)
    requires Valid(b) && RegistryOk(b) && e.Requesting? && k < |b.available| && b.available[k] == e.service
    requires Step(b, e).Ok?
    ensures Forwarded(b, e, Step(b, e).out)
    ensures b.services[e.service].reliable > 0 ==>
              ((forall o :: o in Step(b, e).out ==> Through(b, o, e.service)) <==>
               b.services[e.service].dealerIndex == k)
  {
    RoutingIff(b, k);
    var out := Step(b, e).out;
    if b.services[e.service].reliable > 0 {
      assert out[0] in out;
    }
  }

  /** A request for a service never registered is refused and changes nothing. */
  lemma UnknownIsRefused(b: Broker, e: Event)
    requires Valid(b) && e.Requesting? && e.service !in b.services
    ensures Step(b, e) == Ok(b, [Answer(e.client, NotAvailable)])
  {
  }

  // ---- Request ids

  /** How many requests for `s` the broker has accepted in the first `i` steps. */
  function AcceptedBefore(bs: seq<Broker>, es: seq<Event>, s: Service, i: nat): nat
    requires i <= |es| < |bs|
  {
    if i == 0 then 0
    else
      AcceptedBefore(bs, es, s, i - 1)
      + if es[i - 1].Requesting? && es[i - 1].service == s && s in bs[i - 1].services then 1 else 0
  }

  lemma QuietIds(b: Broker, e: Event, s: Service)
    requires Valid(b) && Step(b, e).Ok? && s in b.services && (e.Registering? || e.Ponging? || e.Beating?)
    ensures s in Step(b, e).state.services && Step(b, e).state.services[s].requestId == b.services[s].requestId
  {
    match e
    case Registering(_, _) =>
    case Ponging(_, _) =>
    case Beating(_, _, _) =>
  }

  lemma SweepIds(b: Broker, e: Event, s: Service)
    requires Valid(b) && Step(b, e).Ok? && s in b.services && e.Sweeping?
    ensures s in Step(b, e).state.services && Step(b, e).state.services[s].requestId == b.services[s].requestId
    ensures Step(b, e).state.services[s].pingId == b.services[s].pingId
  {
    SweepFromKeeps(b.services, b.nmr, b.available, 0, e.now);
    assert Step(b, e).state.services[s] == b.services[s].(requests := Step(b, e).state.services[s].requests);
  }

  lemma RequestTakesId(b: Broker, e: Event, s: Service)
    requires Valid(b) && e.Requesting? && Step(b, e).Ok? && s in b.services
    ensures s in Step(b, e).state.services
    ensures Step(b, e).state.services[s].requestId
         == (b.services[s].requestId + if e.service == s then 1 else 0) % UINT32_SIZE
  {
  }

  lemma ReplyTakesNoId(b: Broker, e: Event, s: Service)
    requires Valid(b) && e.Replying? && Step(b, e).Ok? && s in b.services
    ensures s in Step(b, e).state.services && Step(b, e).state.services[s].requestId == b.services[s].requestId
  {
  }

  /** Only an accepted request of the service takes an id of it. */
  lemma StepTakesId(b: Broker, e: Event, s: Service)
    requires Valid(b) && Step(b, e).Ok? && s in b.services
    ensures s in Step(b, e).state.services
    ensures Step(b, e).state.services[s].requestId
         == (b.services[s].requestId + if e.Requesting? && e.service == s then 1 else 0) % UINT32_SIZE
  {
    match e
    case Sweeping(_) => SweepIds(b, e, s);
    case Requesting(_, _, _, _, _) => RequestTakesId(b, e, s);
    case Replying(_, _, _, _) => ReplyTakesNoId(b, e, s);
    case _ => QuietIds(b, e, s);
  }

  lemma NewServiceStarts(b: Broker, e: Event, s: Service)
    requires Valid(b) && Step(b, e).Ok? && s !in b.services && s in Step(b, e).state.services
    ensures e.Registering? && e.service == s
    ensures Step(b, e).state.services[s].requestId == 0
    ensures (Step(b, e).state.services[s].pingId + 1) % UINT32_SIZE == 0
  {
    if !e.Registering? {
      OthersKeepRegistry(b, e);
      assert false;
    }
  }

  lemma CountOn(id: nat, n: nat, more: nat)
    requires id == n % UINT32_SIZE
    ensures (id + more) % UINT32_SIZE == (n + more) % UINT32_SIZE
  {
  }

  /** The service has been asked `n` times. */
  ghost predicate Asked(b: Broker, s: Service, n: nat) {
    if s in b.services then b.services[s].requestId == n % UINT32_SIZE else n == 0
  }

  lemma StepAsks(b: Broker, e: Event, s: Service, n: nat)
    requires Valid(b) && Step(b, e).Ok? && Asked(b, s, n)
    ensures Asked(Step(b, e).state, s, n + if e.Requesting? && e.service == s && s in b.services then 1 else 0)
  {
    if s in b.services {
      StepTakesId(b, e, s);
      CountOn(b.services[s].requestId, n, if e.Requesting? && e.service == s then 1 else 0);
    } else if s in Step(b, e).state.services {
      NewServiceStarts(b, e, s);
    }
  }

  /** In every run, the requests of a service are numbered from zero on, modulo 2^32. */
  lemma {:induction false} RequestsAreNumbered(nmr: nat, bs: seq<Broker>, es: seq<Event>, i: nat, s: Service)
    requires nmr < UINT8_SIZE && IsTrace(nmr, bs, es) && i < |bs|
    ensures Valid(bs[i]) && Asked(bs[i], s, AcceptedBefore(bs, es, s, i))
  {
    if i == 0 {
      InitIsValid(nmr);
    } else {
      RequestsAreNumbered(nmr, bs, es, i - 1, s);
      assert TraceStep(bs, es, i - 1);
      StepKeepsValid(bs[i - 1], es[i - 1]);
      StepAsks(bs[i - 1], es[i - 1], s, AcceptedBefore(bs, es, s, i - 1));
    }
  }

  // ---- Pings

  /** The timer at position `k` has expired. */
  predicate Beats(b: Broker, e: Event, k: nat) {
    e.Beating? && e.index == k && k < |b.available| == |b.timeouts| && Expired(e.now, b.timeouts[k])
  }

  /** The pings that go out: one for each copy that is reliable after the check, under the id of the check. */
  lemma PingsGoOut(b: Broker, e: Event, k: nat)
    requires Valid(b) && RegistryOk(b) && Beats(b, e, k) && k < UINT8_SIZE
    ensures Step(b, e).Ok? && b.available[k] in Step(b, e).state.services
    ensures var s, b', out := b.available[k], Step(b, e).state, Step(b, e).out;
            && |out| == b'.services[s].reliable
            && forall o :: o in out ==> o.Ping? && o.id == b'.services[s].pingId && Through(b', o, s)
  {
    var s := b.available[k];
    RoutingIff(b, k);
    assert Step(b, e).state.services[s].dealerSocket == b.services[s].dealerSocket;
    assert Step(b, e).state.dealers == b.dealers;
  }

  /** From the 257th available service on, pings go through the dealer of another one, as many as that has copies. */
  lemma PingsGoAstray(b: Broker, e: Event, k: nat)
    requires Valid(b) && RegistryOk(b) && Beats(b, e, k) && k >= UINT8_SIZE
    ensures Step(b, e).Ok? && b.available[k % UINT8_SIZE] in b.services && b.available[k] in Step(b, e).state.services
    ensures var s, t, b', out := b.available[k], b.available[k % UINT8_SIZE], Step(b, e).state, Step(b, e).out;
            && |out| == b.services[t].reliable
            && forall o :: o in out ==>
                 o.Ping? && o.id == b'.services[s].pingId && Through(b', o, t) && !Through(b', o, s)
  {
    var s, t := b.available[k], b.available[k % UINT8_SIZE];
    RoutingIff(b, k);
    SamePortSamePosition(b, k % UINT8_SIZE, k % UINT8_SIZE);
    assert s != t;
    assert Step(b, e).state.services[s].dealerSocket == b.services[s].dealerSocket;
    assert Step(b, e).state.services[t] == b.services[t];
  }

  /** A timer that has not expired, or is none, sends nothing and changes nothing. */
  lemma NoBeatNoPing(b: Broker, e: Event)
    requires Valid(b) && e.Beating? && !Beats(b, e, e.index)
    ensures Step(b, e) == Ok(b, [])
  {
  }

  /** The event is an expired timer of the service. */
  predicate ChecksService(b: Broker, e: Event, s: Service) {
    e.Beating? && Beats(b, e, e.index) && b.available[e.index] == s
  }

  /** How many heartbeat checks of `s` the first `i` steps have made. */
  function ChecksBefore(bs: seq<Broker>, es: seq<Event>, s: Service, i: nat): nat
    requires i <= |es| < |bs|
  {
    if i == 0 then 0
    else ChecksBefore(bs, es, s, i - 1) + if ChecksService(bs[i - 1], es[i - 1], s) then 1 else 0
  }

  lemma BeatMovesPingId(b: Broker, e: Event, s: Service)
    requires Valid(b) && e.Beating? && s in b.services
    ensures Step(b, e).Ok? && s in Step(b, e).state.services
    ensures Step(b, e).state.services[s].pingId
         == (b.services[s].pingId + if ChecksService(b, e, s) then 1 else 0) % UINT32_SIZE
  {
  }

  lemma MessageKeepsPingId(b: Broker, e: Event, s: Service)
    requires Valid(b) && !e.Beating? && !e.Sweeping? && Step(b, e).Ok? && s in b.services
    ensures s in Step(b, e).state.services
    ensures Step(b, e).state.services[s].pingId == b.services[s].pingId < UINT32_SIZE
  {
    match e
    case Requesting(_, _, _, _, _) =>
    case Replying(_, _, _, _) =>
    case Registering(_, _) =>
    case Ponging(_, _) =>
  }

  /** Only a check of the service moves its ping id. */
  lemma StepMovesPingId(b: Broker, e: Event, s: Service)
    requires Valid(b) && Step(b, e).Ok? && s in b.services
    ensures s in Step(b, e).state.services
    ensures Step(b, e).state.services[s].pingId
         == (b.services[s].pingId + if ChecksService(b, e, s) then 1 else 0) % UINT32_SIZE
  {
    match e
    case Sweeping(_) => SweepIds(b, e, s);
    case Beating(_, _, _) => BeatMovesPingId(b, e, s);
    case _ => MessageKeepsPingId(b, e, s);
  }

  /** The service has been checked `n` times: its next ping carries `n`. */
  ghost predicate CheckedTimes(b: Broker, s: Service, n: nat) {
    if s in b.services then (b.services[s].pingId + 1) % UINT32_SIZE == n % UINT32_SIZE else n == 0
  }

  lemma PingAfter(id: nat, id': nat, n: nat, more: bool)
    requires id < UINT32_SIZE && (id + 1) % UINT32_SIZE == n % UINT32_SIZE
    requires id' == (id + if more then 1 else 0) % UINT32_SIZE
    ensures (id' + 1) % UINT32_SIZE == (n + if more then 1 else 0) % UINT32_SIZE
    ensures more ==> id' == n % UINT32_SIZE
  {
    if more {
      CountOn(id', n, 1);
    }
  }

  lemma StepChecks(b: Broker, e: Event, s: Service, n: nat)
    requires Valid(b) && Step(b, e).Ok? && CheckedTimes(b, s, n)
    ensures CheckedTimes(Step(b, e).state, s, n + if ChecksService(b, e, s) then 1 else 0)
    ensures ChecksService(b, e, s) ==>
              s in Step(b, e).state.services && Step(b, e).state.services[s].pingId == n % UINT32_SIZE
  {
    if s in b.services {
      StepMovesPingId(b, e, s);
      PingAfter(b.services[s].pingId, Step(b, e).state.services[s].pingId, n, ChecksService(b, e, s));
    } else if s in Step(b, e).state.services {
      NewServiceStarts(b, e, s);
    }
  }

  /** In every run, the pings of a service are numbered from zero on, one number for each check, modulo 2^32. */
  lemma {:induction false} PingsAreNumbered(nmr: nat, bs: seq<Broker>, es: seq<Event>, i: nat, s: Service)
    requires nmr < UINT8_SIZE && IsTrace(nmr, bs, es) && i < |bs|
    ensures Valid(bs[i]) && CheckedTimes(bs[i], s, ChecksBefore(bs, es, s, i))
  {
    if i == 0 {
      InitIsValid(nmr);
    } else {
      PingsAreNumbered(nmr, bs, es, i - 1, s);
      assert TraceStep(bs, es, i - 1);
      StepKeepsValid(bs[i - 1], es[i - 1]);
      StepChecks(bs[i - 1], es[i - 1], s, ChecksBefore(bs, es, s, i - 1));
    }
  }

  /**
   * In every run with ports below the wrap: an expired timer at one of the first 256 positions sends one ping
   * for each copy its service has left, through the dealer of the service, and the pings of a service are
   * numbered from zero on, modulo 2^32.
   */
  lemma {:induction false} PingsInRun(nmr: nat, bs: seq<Broker>, es: seq<Event>, i: nat, k: nat)
    requires nmr < UINT8_SIZE && IsTrace(nmr, bs, es) && i < |es| && |bs[i].services| <= MAX_SERVICES
    requires Beats(bs[i], es[i], k) && k < UINT8_SIZE
    ensures Valid(bs[i]) && bs[i].available[k] in bs[i + 1].services
    ensures var s, out := bs[i].available[k], Step(bs[i], es[i]).out;
            && |out| == bs[i + 1].services[s].reliable
            && forall o :: o in out ==>
                 o.Ping? && o.id == ChecksBefore(bs, es, s, i) % UINT32_SIZE && Through(bs[i + 1], o, s)
  {
    var s := bs[i].available[k];
    RegistryInvariant(nmr, bs, es, i);
    assert TraceStep(bs, es, i);
    PingsGoOut(bs[i], es[i], k);
    PingsAreNumbered(nmr, bs, es, i, s);
    StepChecks(bs[i], es[i], s, ChecksBefore(bs, es, s, i));
  }

  /**
   * In every run with ports below the wrap whose services became ready in order: an accepted request goes out
   * once for each reliable copy of its service, through the dealer of the service, under the number of requests
   * accepted for it before, modulo 2^32.
   */
  lemma {:induction false} RequestsInRun(nmr: nat, bs: seq<Broker>, es: seq<Event>, i: nat)
    requires nmr < UINT8_SIZE && IsTrace(nmr, bs, es) && i < |es| && |bs[i].services| <= MAX_SERVICES
    requires forall j :: 0 <= j < i ==> NextInLine(bs, es, j)
    requires es[i].Requesting? && es[i].service in bs[i].services
    ensures Valid(bs[i])
    ensures var s, out := es[i].service, Step(bs[i], es[i]).out;
            && Forwarded(bs[i], es[i], out)
            && forall o :: o in out ==> Through(bs[i], o, s) && o.id == AcceptedBefore(bs, es, s, i) % UINT32_SIZE
  {
    RegistryInvariant(nmr, bs, es, i);
    StaysInOrder(nmr, bs, es, i);
    RequestsAreNumbered(nmr, bs, es, i, es[i].service);
    assert TraceStep(bs, es, i);
    RequestHandledIff(bs[i], es[i]);
    RequestGoesOut(bs[i], es[i]);
  }

  // ---- Registrations

  /**
   * What the registrator is told: a new service its own port, one with room the port it has, and a service with
   * `nmr` copies refuses. REG_FAIL is told exactly then.
   */
  lemma RefusedIff(b: Broker, s: Service, clock: Timespec)
    requires Valid(b) && RegistryOk(b) && |GetRegistration(b, s, clock).state.services| <= MAX_SERVICES
    ensures var b', out := GetRegistration(b, s, clock).state, GetRegistration(b, s, clock).out;
            && s in b'.services
            && (out == [RegistrationReply(REG_FAIL)] <==> s in b.services && b.services[s].registered >= b.nmr)
            && (out == [RegistrationReply(b'.services[s].dealerSocket)]
                <==> (s in b.services ==> b.services[s].registered < b.nmr))
            && (s in b.services && b.services[s].registered >= b.nmr ==> b' == b)
  {
    StepKeepsRegistry(b, Registering(s, clock));
  }
}
