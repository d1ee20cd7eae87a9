/** Registration, ports and routing, over every run of the broker whatever its clients and copies do. */
module Registry {
  import opened Common
  import opened TimeArithmetic
  import opened Requests
  import opened Database
  import opened BrokerMachine
  import opened Deadlines
  import opened BrokerRuns

  /** Any run at all: no discipline is asked of clients, copies or clocks. */
  ghost predicate IsTrace(nmr: nat, bs: seq<Broker>, es: seq<Event>) {
    && |bs| == |es| + 1 && bs[0] == Init(nmr)
    && forall i :: 0 <= i < |es| ==> TraceStep(bs, es, i)
  }

  ghost predicate TraceStep(bs: seq<Broker>, es: seq<Event>, i: nat)
    requires i < |es| && |bs| == |es| + 1
  {
    Valid(bs[i]) && Step(bs[i], es[i]).Ok? && Step(bs[i], es[i]).state == bs[i + 1]
  }

  /** Beyond this many services the 16-bit ports start over. */
  const MAX_SERVICES := UINT16_SIZE - DEALER_START_PORT

  ghost predicate RegistryOk(b: Broker) {
    && b.nextIndex == |b.services| && b.nextPort == (DEALER_START_PORT + |b.services|) % UINT16_SIZE
    && IndexOk(b.services)
    && DealersOk(b)
  }

  /** The dealer indices number the services from zero, and each port is its index past the start port. */
  ghost predicate IndexOk(services: Services) {
    && (forall s :: s in services ==>
          services[s].dealerIndex < |services|
          && services[s].dealerSocket == DEALER_START_PORT + services[s].dealerIndex)
    && (forall s, t :: s in services && t in services && s != t ==>
          services[s].dealerIndex != services[t].dealerIndex)
    && (forall k :: 0 <= k < |services| ==> Owned(services, k))
  }

  ghost predicate DealersOk(b: Broker) {
    && |b.dealers| == |b.available|
    && forall k :: 0 <= k < |b.available| ==>
         b.available[k] in b.services && b.dealers[k] == b.services[b.available[k]].dealerSocket
  }

  ghost predicate Owned(services: Services, k: nat) {
    exists s :: s in services && services[s].dealerIndex == k
  }

  ghost predicate SameRegistry(b: Broker, b': Broker) {
    && b'.services.Keys == b.services.Keys
    && b'.nextIndex == b.nextIndex && b'.nextPort == b.nextPort && b'.nmr == b.nmr
    && b'.available == b.available && b'.dealers == b.dealers
    && forall s :: s in b.services ==>
         b'.services[s].dealerIndex == b.services[s].dealerIndex
         && b'.services[s].dealerSocket == b.services[s].dealerSocket
         && (s !in b.available ==> b'.services[s].registered == b.services[s].registered)
  }

  lemma RequestKeepsRegistry(b: Broker, e: Event)
    requires Valid(b) && e.Requesting? && Step(b, e).Ok?
    ensures SameRegistry(b, Step(b, e).state)
  {
  }

  lemma ReplyKeepsRegistry(b: Broker, e: Event)
    requires Valid(b) && e.Replying? && Step(b, e).Ok?
    ensures SameRegistry(b, Step(b, e).state)
  {
  }

  /** Only registrations change who is registered, where, and who is available. */
  lemma OthersKeepRegistry(b: Broker, e: Event)
    requires Valid(b) && !e.Registering? && Step(b, e).Ok?
    ensures SameRegistry(b, Step(b, e).state)
  {
    match e
    case Requesting(_, _, _, _, _) => RequestKeepsRegistry(b, e);
    case Replying(_, _, _, _) => ReplyKeepsRegistry(b, e);
    case Sweeping(now) => SweepKeepsRegistry(b, now);
    case Ponging(_, _) =>
    case Beating(_, _, _) =>
  }

  lemma SweepKeepsRegistry(b: Broker, now: Timespec)
    requires Valid(b) && CheckPendingRequests(b, now).Ok?
    ensures SameRegistry(b, CheckPendingRequests(b, now).state)
  {
    SweepFromKeeps(b.services, b.nmr, b.available, 0, now);
    var services := CheckPendingRequests(b, now).state.services;
    assert forall s :: s in b.services ==> services[s] == b.services[s].(requests := services[s].requests);
  }

  lemma SameIndex(services: Services, services': Services)
    requires IndexOk(services) && services'.Keys == services.Keys
    requires forall s :: s in services ==>
               services'[s].dealerIndex == services[s].dealerIndex
               && services'[s].dealerSocket == services[s].dealerSocket
    ensures IndexOk(services') && |services'| == |services|
  {
    assert |services'| == |services'.Keys| == |services.Keys|;
    forall k | 0 <= k < |services'| ensures Owned(services', k) {
      assert Owned(services, k);
      var s :| s in services && services[s].dealerIndex == k;
      assert services'[s].dealerIndex == k;
    }
  }

  lemma NextIsOwned(services: Services, s: Service, r: ServiceRecord, k: nat)
    requires s !in services && r.dealerIndex == |services|
    requires k < |services| ==> Owned(services, k)
    requires k <= |services|
    ensures Owned(services[s := r], k)
  {
    var services' := services[s := r];
    if k == |services| {
      assert services'[s].dealerIndex == k;
    } else {
      var t :| t in services && services[t].dealerIndex == k;
      assert services'[t].dealerIndex == k;
    }
  }

  lemma OneMore(services: Services, s: Service, r: ServiceRecord)
    requires s !in services
    ensures |services[s := r]| == |services| + 1
  {
    assert services[s := r].Keys == services.Keys + {s};
    assert |services[s := r]| == |services[s := r].Keys|;
  }

  lemma NextIndex(services: Services, s: Service, r: ServiceRecord)
    requires IndexOk(services) && s !in services
    requires r.dealerIndex == |services| && r.dealerSocket == DEALER_START_PORT + |services|
    ensures IndexOk(services[s := r]) && |services[s := r]| == |services| + 1
  {
    var services' := services[s := r];
    OneMore(services, s, r);
    forall t | t in services' ensures services'[t] == if t == s then r else services[t] {
    }
    forall k | 0 <= k < |services'| ensures Owned(services', k) {
      NextIsOwned(services, s, r, k);
    }
  }

  lemma SameKeepsRegistry(b: Broker, b': Broker)
    requires RegistryOk(b) && SameRegistry(b, b')
    ensures RegistryOk(b')
  {
    SameIndex(b.services, b'.services);
  }

  lemma NewServiceKeepsRegistry(b: Broker, s: Service, clock: Timespec)
    requires Valid(b) && RegistryOk(b) && s !in b.services && |b.services| < MAX_SERVICES
    ensures RegistryOk(GetRegistration(b, s, clock).state)
  {
    NextIndex(b.services, s, FreshRecord(b.nmr, b.nextPort, b.nextIndex));
  }

  /** The dealer that a service gets when it becomes available is bound to the port it was told. */
  lemma NewDealer(b: Broker, s: Service, clock: Timespec)
    requires Valid(b) && DealersOk(b) && s in b.services
    ensures DealersOk(GetRegistration(b, s, clock).state)
  {
    var b' := GetRegistration(b, s, clock).state;
    assert forall t :: t in b.services ==> b'.services[t].dealerSocket == b.services[t].dealerSocket;
    assert forall k :: 0 <= k < |b.available| ==> b'.available[k] == b.available[k] && b'.dealers[k] == b.dealers[k];
  }

  lemma OldServiceFields(b: Broker, s: Service, clock: Timespec)
    requires s in b.services
    ensures var b' := GetRegistration(b, s, clock).state;
            && b'.services.Keys == b.services.Keys && b'.nextIndex == b.nextIndex && b'.nextPort == b.nextPort
            && forall t :: t in b.services ==>
                 b'.services[t].dealerIndex == b.services[t].dealerIndex
                 && b'.services[t].dealerSocket == b.services[t].dealerSocket
  {
  }

  lemma OldServiceKeepsRegistry(b: Broker, s: Service, clock: Timespec)
    requires Valid(b) && RegistryOk(b) && s in b.services
    ensures RegistryOk(GetRegistration(b, s, clock).state)
  {
    OldServiceFields(b, s, clock);
    SameIndex(b.services, GetRegistration(b, s, clock).state.services);
    NewDealer(b, s, clock);
  }

  lemma StepKeepsRegistry(b: Broker, e: Event)
    requires Valid(b) && Step(b, e).Ok?
    ensures b.services.Keys <= Step(b, e).state.services.Keys
    ensures |b.services| <= |Step(b, e).state.services|
    ensures RegistryOk(b) && |Step(b, e).state.services| <= MAX_SERVICES ==> RegistryOk(Step(b, e).state)
  {
    var b' := Step(b, e).state;
    assert |b.services| == |b.services.Keys| && |b'.services| == |b'.services.Keys|;
    if !e.Registering? {
      OthersKeepRegistry(b, e);
      if RegistryOk(b) {
        SameKeepsRegistry(b, b');
      }
    } else if e.service in b.services {
      assert b'.services.Keys == b.services.Keys;
      if RegistryOk(b) {
        OldServiceKeepsRegistry(b, e.service, e.clock);
      }
    } else {
      assert b'.services.Keys == b.services.Keys + {e.service};
      if RegistryOk(b) && |b'.services| <= MAX_SERVICES {
        NewServiceKeepsRegistry(b, e.service, e.clock);
      }
    }
  }

  /**
   * In every run the dealer indices are a bijection from the registered services onto 0..next-1, a
   * service's port is the start port plus its index, and dealer `k` is bound to the port of the k-th
   * available service, as long as the ports do not wrap.
   */
  lemma {:induction false} RegistryInvariant(nmr: nat, bs: seq<Broker>, es: seq<Event>, i: nat)
    requires nmr < UINT8_SIZE && IsTrace(nmr, bs, es) && i < |bs| && |bs[i].services| <= MAX_SERVICES
    ensures Valid(bs[i]) && RegistryOk(bs[i])
    ensures NoRepeats(bs[i].available) && |bs[i].dealers| == |bs[i].timeouts| == |bs[i].available|
    ensures |bs[i].items| == |bs[i].dealers| + 3
  {
    if i == 0 {
      InitIsValid(nmr);
    } else {
      assert TraceStep(bs, es, i - 1);
      StepKeepsRegistry(bs[i - 1], es[i - 1]);
      StepKeepsValid(bs[i - 1], es[i - 1]);
      RegistryInvariant(nmr, bs, es, i - 1);
    }
  }

  // ---- When a service becomes available

  function Registrations(es: seq<Event>, s: Service): nat {
    if es == [] then 0
    else Registrations(es[..|es| - 1], s) + if es[|es| - 1].Registering? && es[|es| - 1].service == s then 1 else 0
  }

  /** What the registrations of `s` so far say about it. */
  ghost predicate CountsFor(b: Broker, s: Service, n: nat) {
    && (s in b.services <==> n > 0)
    && (b.nmr <= 1 ==> s !in b.available && (s in b.services ==> b.services[s].registered == 1))
    && (b.nmr > 1 ==> (s in b.available <==> n >= b.nmr))
    && (b.nmr > 1 && 0 < n < b.nmr && s in b.services ==> b.services[s].registered == n)
  }

  lemma StepCounts(b: Broker, e: Event, s: Service, n: nat)
    requires Valid(b) && Step(b, e).Ok? && CountsFor(b, s, n)
    ensures CountsFor(Step(b, e).state, s, n + if e.Registering? && e.service == s then 1 else 0)
  {
    if !e.Registering? {
      OthersKeepRegistry(b, e);
    } else {
      RegistrationCounts(b, e.service, e.clock, s, n);
    }
  }

  lemma RegistrationCounts(b: Broker, t: Service, clock: Timespec, s: Service, n: nat)
    requires Valid(b) && CountsFor(b, s, n)
    ensures CountsFor(GetRegistration(b, t, clock).state, s, n + if t == s then 1 else 0)
  {
    var b' := GetRegistration(b, t, clock).state;
    assert t != s ==> (s in b'.available <==> s in b.available);
    assert s in b.available ==> s in b.services;
  }

  lemma {:induction false} AvailabilityCount(nmr: nat, bs: seq<Broker>, es: seq<Event>, i: nat, s: Service)
    requires nmr < UINT8_SIZE && IsTrace(nmr, bs, es) && i < |bs|
    ensures Valid(bs[i]) && bs[i].nmr == nmr && CountsFor(bs[i], s, Registrations(es[..i], s))
  {
    if i == 0 {
      InitIsValid(nmr);
    } else {
      AvailabilityCount(nmr, bs, es, i - 1, s);
      assert TraceStep(bs, es, i - 1);
      StepCounts(bs[i - 1], es[i - 1], s, Registrations(es[..i - 1], s));
      StepKeepsValid(bs[i - 1], es[i - 1]);
      StepKeepsNmr(bs[i - 1], es[i - 1]);
      assert es[..i][..i - 1] == es[..i - 1];
    }
  }

  /**
   * A service is available exactly from its `nmr`-th registration on, for ever after; with a redundancy
   * of one or none no service ever becomes available.
   */
  lemma AvailableIff(nmr: nat, bs: seq<Broker>, es: seq<Event>, i: nat, s: Service)
    requires nmr < UINT8_SIZE && IsTrace(nmr, bs, es) && i < |bs|
    ensures s in bs[i].available <==> nmr >= 2 && Registrations(es[..i], s) >= nmr
  {
    AvailabilityCount(nmr, bs, es, i, s);
  }

  // ---- Routing

  /** The dealer `get_request` sends through exists and is bound to the service's own port. */
  predicate RequestsRouted(b: Broker, s: Service)
    requires s in b.services
  {
    var d := b.services[s].dealerIndex;
    d < |b.dealers| && b.dealers[d] == b.services[s].dealerSocket
  }

  /** The dealer `ping_server` sends through is bound to the port of the service at position `k`. */
  predicate PingsRouted(b: Broker, k: nat)
    requires k < |b.available| == |b.dealers| && b.available[k] in b.services
  {
    b.dealers[k % UINT8_SIZE] == b.services[b.available[k]].dealerSocket
  }

  lemma SamePortSamePosition(b: Broker, j: nat, k: nat)
    requires Valid(b) && RegistryOk(b) && j < |b.available| && k < |b.available|
    ensures b.dealers[j] == b.services[b.available[k]].dealerSocket <==> j == k
  {
    var s, t := b.available[j], b.available[k];
    if b.dealers[j] == b.services[t].dealerSocket {
      assert b.services[s].dealerIndex == b.services[t].dealerIndex;
    }
  }

  /**
   * Requests for the k-th available service go to its own dealer if and only if it was the k-th service
   * to register at all; its pings do so if and only if the position fits a byte.
   */
  lemma RoutingIff(b: Broker, k: nat)
    requires Valid(b) && RegistryOk(b) && k < |b.available|
    ensures RequestsRouted(b, b.available[k]) <==> b.services[b.available[k]].dealerIndex == k
    ensures PingsRouted(b, k) <==> k < UINT8_SIZE
  {
    var d := b.services[b.available[k]].dealerIndex;
    if d < |b.dealers| {
      SamePortSamePosition(b, d, k);
    }
    SamePortSamePosition(b, k, k);
    SamePortSamePosition(b, k % UINT8_SIZE, k);
  }

  /** Services became available in the order of their first registration. */
  ghost predicate InOrder(b: Broker) {
    forall k :: 0 <= k < |b.available| ==>
      b.available[k] in b.services && b.services[b.available[k]].dealerIndex == k
  }

  /** A step keeps the order if and only if a service it makes available is the next one in line. */
  lemma InOrderStep(b: Broker, e: Event)
    requires Valid(b) && InOrder(b) && Step(b, e).Ok?
    ensures var b' := Step(b, e).state;
            InOrder(b') <==>
            (|b'.available| > |b.available| ==>
               e.Registering? && e.service in b.services && b.services[e.service].dealerIndex == |b.available|)
  {
    if !e.Registering? {
      OthersKeepRegistry(b, e);
    } else {
      InOrderRegistration(b, e.service, e.clock);
    }
  }

  lemma InOrderRegistration(b: Broker, s: Service, clock: Timespec)
    requires Valid(b) && InOrder(b)
    ensures var b' := GetRegistration(b, s, clock).state;
            InOrder(b') <==>
            (|b'.available| > |b.available| ==>
               s in b.services && b.services[s].dealerIndex == |b.available|)
  {
    var b' := GetRegistration(b, s, clock).state;
    assert forall k :: 0 <= k < |b.available| ==> b'.available[k] == b.available[k];
    if |b'.available| > |b.available| {
      assert b'.available[|b.available|] == s;
      assert b'.services[s].dealerIndex == b.services[s].dealerIndex;
    }
  }

  /** A service that step `j` makes available is the next one in order of first registration. */
  ghost predicate NextInLine(bs: seq<Broker>, es: seq<Event>, j: nat)
    requires j < |es| && |bs| == |es| + 1
  {
    |bs[j + 1].available| > |bs[j].available| ==>
      && es[j].Registering? && es[j].service in bs[j].services
      && bs[j].services[es[j].service].dealerIndex == |bs[j].available|
  }

  lemma InOrderNext(bs: seq<Broker>, es: seq<Event>, j: nat)
    requires j < |es| && |bs| == |es| + 1
    requires TraceStep(bs, es, j) && NextInLine(bs, es, j) && InOrder(bs[j])
    ensures InOrder(bs[j + 1])
  {
    InOrderStep(bs[j], es[j]);
  }

  lemma {:induction false} StaysInOrder(nmr: nat, bs: seq<Broker>, es: seq<Event>, i: nat)
    requires nmr < UINT8_SIZE && IsTrace(nmr, bs, es) && i < |bs|
    requires forall j :: 0 <= j < i ==> NextInLine(bs, es, j)
    ensures InOrder(bs[i])
  {
    if i > 0 {
      StaysInOrder(nmr, bs, es, i - 1);
      assert TraceStep(bs, es, i - 1);
      InOrderNext(bs, es, i - 1);
    }
  }

  /**
   * In every run whose services became ready in the order of their first registration, the dealer that
   * requests for an available service go through, the one its pings go through, and the one bound to its
   * port are the same; and every index into the dealers and timers is in bounds.
   */
  lemma RoutingAgreement(nmr: nat, bs: seq<Broker>, es: seq<Event>, i: nat, k: nat)
    requires nmr < UINT8_SIZE && IsTrace(nmr, bs, es) && i < |bs| && |bs[i].services| <= MAX_SERVICES
    requires forall j :: 0 <= j < i ==> NextInLine(bs, es, j)
    requires k < |bs[i].available|
    ensures var b := bs[i];
            && |b.dealers| == |b.timeouts| == |b.available| && b.available[k] in b.services
            && b.services[b.available[k]].dealerIndex == k == IndexOf(b.available, b.available[k])
            && RequestsRouted(b, b.available[k])
            && (PingsRouted(b, k) <==> k < UINT8_SIZE)
  {
    RegistryInvariant(nmr, bs, es, i);
    StaysInOrder(nmr, bs, es, i);
    RoutingIff(bs[i], k);
    assert bs[i].available[k] !in bs[i].available[..k];
    IndexOfIs(bs[i].available, bs[i].available[k], k);
  }

  /** With routing in order, a request is handled exactly when its service is unknown or available. */
  lemma RequestHandledIff(b: Broker, e: Event)
    requires Valid(b) && e.Requesting?
    ensures InOrder(b) ==> (Step(b, e).Ok? <==> e.service !in b.services || e.service in b.available)
    ensures Step(b, e).Ok? <==>
            e.service !in b.services ||
            (e.service in b.available &&
             (b.services[e.service].reliable > 0 ==> b.services[e.service].dealerIndex < |b.dealers|))
  {
    if InOrder(b) && e.service in b.available {
      var k :| 0 <= k < |b.available| && b.available[k] == e.service;
    }
  }

  /** When the broker stops: exactly these events, in any state a run can reach. */
  lemma FaultIff(b: Broker, e: Event)
    requires Sound(b) && InOrder(b)
    ensures Step(b, e).Failed? <==>
            match e
            case Registering(_, _) => false
            case Requesting(_, s, _, _, _) => s in b.services && s !in b.available
            case Replying(s, _, _, duplicated) => !duplicated && s !in b.services
            case Ponging(s, copy) => s !in b.services || copy >= b.nmr
            case Beating(_, _, _) => false
            case Sweeping(now) => WillExit(b.services, b.available, 0, now)
  {
    match e
    case Requesting(_, _, _, _, _) => RequestHandledIff(b, e);
    case Replying(s, c, v, duplicated) =>
      if !duplicated && s in b.services {
        var rs := b.services[s].requests;
        if k :| 0 <= k < |rs| && rs[k].client == c {
          ReplyEffect(b, s, k, v);
        } else {
          NoResults(rs, c);
        }
      }
    case Sweeping(now) =>
      UndecidedIsCountable(b.services, b.nmr);
      SweepEffect(b.services, b.nmr, b.available, 0, now);
    case Registering(_, _) =>
    case Ponging(_, _) =>
    case Beating(_, _, _) =>
  }
}
