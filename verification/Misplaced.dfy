/**
 * A service at a position that is not its number, for every redundancy: a run with a lock-step client that is
 * answered twice for one request, and goes on to break the books of the voter.
 */
module Misplaced {
  import opened Common
  import opened TimeArithmetic
  import opened Voting
  import opened Requests
  import opened Database
  import opened BrokerMachine
  import opened Deadlines
  import opened BrokerRuns
  import opened Fleet

  ghost predicate Reached(nmr: nat, x: Session) {
    exists xs, es, outs :: IsLockStepRun(nmr, xs, es, outs) && xs[|es|] == x
  }

  lemma LongerRun(nmr: nat, xs: seq<Session>, es: seq<Event>, outs: seq<seq<Output>>, x: Session, e: Event,
                  out: seq<Output>)
    requires IsLockStepRun(nmr, xs, es, outs)
    requires LockStep(xs + [x], es + [e], outs + [out], |es|)
    ensures IsLockStepRun(nmr, xs + [x], es + [e], outs + [out])
  {
    forall i | 0 <= i < |es + [e]| ensures LockStep(xs + [x], es + [e], outs + [out], i) {
      if i < |es| {
        assert LockStep(xs, es, outs, i);
      }
    }
  }

  lemma ReachedNext(nmr: nat, x: Session, e: Event, out: seq<Output>, x': Session)
    requires Reached(nmr, x) && Next(x, e, out, x')
    requires e.Requesting? ==> x.asked[e.client] <= x.answered[e.client]
    ensures Reached(nmr, x')
  {
    var xs, es, outs :| IsLockStepRun(nmr, xs, es, outs) && xs[|es|] == x;
    assert LockStep(xs + [x'], es + [e], outs + [out], |es|);
    LongerRun(nmr, xs, es, outs, x', e, out);
    assert (xs + [x'])[|es + [e]|] == x';
  }

  /** All copies of service 1 have registered, then one of service 0. Service 1 is at position 0. */
  function Crossed(nmr: nat, id: nat, requests: seq<RequestRecord>, timer: Timespec): Broker {
    Registered(nmr, 1, nmr).(
      services := map[1 := Entry(nmr, nmr, id, requests), 0 := FreshRecord(nmr, DEALER_START_PORT + 1, 1)],
      nextIndex := 2, nextPort := DEALER_START_PORT + 2, timeouts := [timer])
  }

  lemma CrossedIsValid(nmr: nat, id: nat, requests: seq<RequestRecord>, timer: Timespec)
    requires nmr < UINT8_SIZE && id < UINT32_SIZE
    ensures Valid(Crossed(nmr, id, requests, timer))
  {
    RegisteredIsValid(nmr, 1, nmr);
  }

  lemma {:induction false} CopiesRegister(nmr: nat, n: nat)
    requires 2 <= nmr < UINT8_SIZE && 0 < n <= nmr
    ensures Reached(nmr, Session(Registered(nmr, 1, n), multiset{}, multiset{}))
  {
    var e, out := Registering(1, T0), [RegistrationReply(DEALER_START_PORT)];
    NoAnswers(out);
    if n == 1 {
      var x := Session(Init(nmr), multiset{}, multiset{});
      assert IsLockStepRun(nmr, [x], [], []);
      assert Reached(nmr, x);
      FirstRegisters(nmr, 1);
      ReachedNext(nmr, x, e, out, Session(Registered(nmr, 1, 1), multiset{}, multiset{}));
    } else {
      CopiesRegister(nmr, n - 1);
      NextRegisters(nmr, 1, n - 1);
      ReachedNext(nmr, Session(Registered(nmr, 1, n - 1), multiset{}, multiset{}), e, out,
                  Session(Registered(nmr, 1, n), multiset{}, multiset{}));
    }
  }

  lemma OtherRegisters(nmr: nat)
    requires 2 <= nmr < UINT8_SIZE
    ensures Reached(nmr, Session(Crossed(nmr, 0, [], Timespec(2, 0)), multiset{}, multiset{}))
  {
    CopiesRegister(nmr, nmr);
    RegisteredIsValid(nmr, 1, nmr);
    var b, out := Registered(nmr, 1, nmr), [RegistrationReply(DEALER_START_PORT + 1)];
    NoAnswers(out);
    assert b.services[0 := FreshRecord(nmr, DEALER_START_PORT + 1, 1)] == Crossed(nmr, 0, [], Timespec(2, 0)).services;
    assert Step(b, Registering(0, T0)) == Ok(Crossed(nmr, 0, [], Timespec(2, 0)), out);
    ReachedNext(nmr, Session(b, multiset{}, multiset{}), Registering(0, T0), out,
                Session(Crossed(nmr, 0, [], Timespec(2, 0)), multiset{}, multiset{}));
  }

  /** A request for service 1 is taken in. */
  lemma Requested(nmr: nat, id: nat, rs: seq<RequestRecord>, timer: Timespec, now: Timespec)
    requires 0 < nmr < UINT8_SIZE && id < 2
    ensures var b := Crossed(nmr, id, rs, timer);
            var e := Requesting(0, 1, "", now, now);
            && Valid(b) && Step(b, e).Ok? && AnswersIn(Step(b, e).out) == multiset{}
            && Step(b, e).state == Crossed(nmr, id + 1, rs + [RequestRecord(0, [], AddMs(now, REQUEST_TIMEOUT))],
                                           AddMs(now, HEARTBEAT_INTERVAL))
  {
    CrossedIsValid(nmr, id, rs, timer);
    var b := Crossed(nmr, id, rs, timer);
    var e := Requesting(0, 1, "", now, now);
    var rs' := rs + [RequestRecord(0, [], AddMs(now, REQUEST_TIMEOUT))];
    assert b.services[1 := Entry(nmr, nmr, id + 1, rs')] == Crossed(nmr, id + 1, rs', timer).services;
    assert Accept(b, 0, 1, now) == Crossed(nmr, id + 1, rs', timer);
    assert IndexOf([1], 1) == 0;
    assert [timer][0 := AddMs(now, HEARTBEAT_INTERVAL)] == [AddMs(now, HEARTBEAT_INTERVAL)];
    NoAnswers(Step(b, e).out);
  }

  lemma CrossedIsOrderly(nmr: nat, id: nat, r: RequestRecord, timer: Timespec)
    requires 0 < nmr < UINT8_SIZE && id < UINT32_SIZE && |r.results| < UINT8_SIZE
    ensures var b := Crossed(nmr, id, [r], timer);
            && Valid(b) && UniqueClients(b.services) && AllCountable(b.services) && Located(b.services, b.available)
            && b.available == [1]
  {
    CrossedIsValid(nmr, id, [r], timer);
  }

  lemma OneIsLate(r: RequestRecord, nmr: nat, now: Timespec)
    requires |r.results| < UINT8_SIZE && Expired(now, r.timeout)
    ensures Late([r], now) == [r] && Notices([r], nmr) == [Answer(r.client, TimeoutVerdict(r, nmr))]
  {
    assert [r][1..] == [];
  }

  /** One available service with one expired request. */
  lemma OneNotice(services: Services, nmr: nat, s: Service, r: RequestRecord, now: Timespec)
    requires s in services && services[s].requests == [r] && AllCountable(services)
    requires |r.results| < UINT8_SIZE && Expired(now, r.timeout)
    ensures AllNotices(services, nmr, [s], 0, now) == [Answer(r.client, TimeoutVerdict(r, nmr))]
  {
    OneIsLate(r, nmr, now);
    assert AllNotices(services, nmr, [s], 1, now) == [];
  }

  /** The one request is past its deadline: it is answered and kept. */
  lemma AnsweredAndKept(nmr: nat, id: nat, r: RequestRecord, timer: Timespec, now: Timespec)
    requires 0 < nmr < UINT8_SIZE && id < UINT32_SIZE && |r.results| < UINT8_SIZE && Expired(now, r.timeout)
    ensures Valid(Crossed(nmr, id, [r], timer))
    ensures Step(Crossed(nmr, id, [r], timer), Sweeping(now))
         == Ok(Crossed(nmr, id, [r], timer), [Answer(r.client, TimeoutVerdict(r, nmr))])
  {
    var b := Crossed(nmr, id, [r], timer);
    CrossedIsOrderly(nmr, id, r, timer);
    OneNotice(b.services, nmr, 1, r, now);
    SweepEffect(b.services, nmr, b.available, 0, now);
    assert Purged(b.services, b.available, 0, now) == b.services;
  }

  const FIRST := RequestRecord(0, [], Timespec(5, 0))

  /** The request is past its deadline, and `answered` is what its client has been told so far. */
  function Told(nmr: nat, answered: multiset<Client>): Session {
    Session(Crossed(nmr, 1, [FIRST], Timespec(2, 0)), multiset{0}, answered)
  }

  lemma Asks(nmr: nat)
    requires 2 <= nmr < UINT8_SIZE
    ensures Reached(nmr, Told(nmr, multiset{}))
  {
    OtherRegisters(nmr);
    Requested(nmr, 0, [], Timespec(2, 0), T0);
    var x := Session(Crossed(nmr, 0, [], Timespec(2, 0)), multiset{}, multiset{});
    var e := Requesting(0, 1, "", T0, T0);
    assert [] + [FIRST] == [FIRST];
    ReachedNext(nmr, x, e, Step(x.b, e).out, Told(nmr, multiset{}));
  }

  lemma IsToldAgain(nmr: nat, answered: multiset<Client>)
    requires 2 <= nmr < UINT8_SIZE && Reached(nmr, Told(nmr, answered))
    ensures Next(Told(nmr, answered), Sweeping(T6), [Answer(0, NotReliable)], Told(nmr, answered + multiset{0}))
    ensures Reached(nmr, Told(nmr, answered + multiset{0}))
  {
    var out := [Answer(0, NotReliable)];
    AnsweredAndKept(nmr, 1, FIRST, Timespec(2, 0), T6);
    assert AnswersIn(out) == multiset{0} by {
      assert out[1..] == [];
    }
    ReachedNext(nmr, Told(nmr, answered), Sweeping(T6), out, Told(nmr, answered + multiset{0}));
  }

  /**
   * For every redundancy of two or more there is a run with a lock-step client that asks once and is
   * answered twice, by two deadline passes, and the broker still holds its request.
   */
  lemma AnsweredTwice(nmr: nat)
    requires 2 <= nmr < UINT8_SIZE
    ensures exists x, x' ::
              && Reached(nmr, x) && Next(x, Sweeping(T6), [Answer(0, NotReliable)], x') && Reached(nmr, x')
              && x.asked[0] == 1 && x.answered[0] == 1 && x'.asked[0] == 1 && x'.answered[0] == 2
              && Waiting(x'.b.services, 0) && !Conserved(x')
  {
    Asks(nmr);
    IsToldAgain(nmr, multiset{});
    assert multiset{} + multiset{0} == multiset{0};
    IsToldAgain(nmr, multiset{0});
    var x' := Told(nmr, multiset{0} + multiset{0});
    assert x'.b.services[1].requests[0].client == 0;
    assert HasClient(x'.b.services[1].requests, 0);
    assert x'.asked[0] == 1 && x'.answered[0] == 2;
  }

  // ---- Asking again

  const T12 := Timespec(12, 0)

  /** Both of the client's requests, with `k` results that all say `v` in each. */
  function Both(k: nat, v: int): seq<RequestRecord> {
    [FIRST.(results := seq(k, _ => v)), Second(k, v)]
  }

  function Second(k: nat, v: int): RequestRecord {
    RequestRecord(0, seq(k, _ => v), Timespec(11, 0))
  }

  /** Told once, the client has asked again while the broker still holds its first request. */
  function Doubled(nmr: nat, requests: seq<RequestRecord>, answered: multiset<Client>): Session {
    Session(Crossed(nmr, 2, requests, Timespec(8, 0)), multiset{0, 0}, answered)
  }

  lemma AsksAgain(nmr: nat, v: int)
    requires 2 <= nmr < UINT8_SIZE
    ensures Reached(nmr, Doubled(nmr, Both(0, v), multiset{0}))
  {
    Asks(nmr);
    IsToldAgain(nmr, multiset{});
    assert multiset{} + multiset{0} == multiset{0};
    Requested(nmr, 1, [FIRST], Timespec(2, 0), T6);
    var x := Told(nmr, multiset{0});
    var e := Requesting(0, 1, "", T6, T6);
    assert Both(0, v) == [FIRST] + [RequestRecord(0, [], AddMs(T6, REQUEST_TIMEOUT))] by {
      assert seq(0, _ => v) == [];
    }
    ReachedNext(nmr, x, e, Step(x.b, e).out, Doubled(nmr, Both(0, v), multiset{0}));
  }

  lemma BothGrow(k: nat, v: int)
    ensures AddResult(Both(k, v), 0, v) == Both(k + 1, v)
    ensures LastResults(Both(k, v), 0) == Some(seq(k, _ => v))
    ensures Erase(Both(k, v), 0) == [Second(k, v)]
  {
    assert seq(k, _ => v) + [v] == seq(k + 1, _ => v);
    assert Both(k, v)[2..] == [];
  }

  lemma CrossedSettled(nmr: nat, rs: seq<RequestRecord>, rs': seq<RequestRecord>)
    ensures Settle(Crossed(nmr, 2, rs, Timespec(8, 0)), 1, rs') == Crossed(nmr, 2, rs', Timespec(8, 0))
  {
    assert WithRequests(Crossed(nmr, 2, rs, Timespec(8, 0)).services, 1, rs')
        == Crossed(nmr, 2, rs', Timespec(8, 0)).services;
  }

  /** A result is stored in both requests; the last one needed closes the first of them only. */
  lemma BothCount(nmr: nat, k: nat, v: int)
    requires 2 <= nmr < UINT8_SIZE && k <= nmr / 2
    ensures GetResponse(Crossed(nmr, 2, Both(k, v), Timespec(8, 0)), 1, 0, v, false)
         == if k < nmr / 2 then Ok(Crossed(nmr, 2, Both(k + 1, v), Timespec(8, 0)), [])
            else Ok(Crossed(nmr, 2, [Second(k + 1, v)], Timespec(8, 0)), [Answer(0, Available(v))])
  {
    BothGrow(k, v);
    BothGrow(k + 1, v);
    CrossedSettled(nmr, Both(k, v), Both(k + 1, v));
    CrossedSettled(nmr, Both(k + 1, v), [Second(k + 1, v)]);
    UnanimousDecision(k + 1, v, nmr);
  }

  lemma {:induction false} ResultsComeIn(nmr: nat, k: nat, v: int)
    requires 2 <= nmr < UINT8_SIZE && k <= nmr / 2
    ensures Reached(nmr, Doubled(nmr, Both(k, v), multiset{0}))
  {
    if k == 0 {
      AsksAgain(nmr, v);
    } else {
      ResultsComeIn(nmr, k - 1, v);
      BothCount(nmr, k - 1, v);
      CrossedIsValid(nmr, 2, Both(k - 1, v), Timespec(8, 0));
      ReachedNext(nmr, Doubled(nmr, Both(k - 1, v), multiset{0}), Replying(1, 0, v, false), [],
                  Doubled(nmr, Both(k, v), multiset{0}));
    }
  }

  lemma LastResultComesIn(nmr: nat, v: int)
    requires 2 <= nmr < UINT8_SIZE
    ensures Reached(nmr, Doubled(nmr, [Second(nmr / 2 + 1, v)], multiset{0, 0}))
  {
    var out := [Answer(0, Available(v))];
    ResultsComeIn(nmr, nmr / 2, v);
    BothCount(nmr, nmr / 2, v);
    CrossedIsValid(nmr, 2, Both(nmr / 2, v), Timespec(8, 0));
    assert AnswersIn(out) == multiset{0} by {
      assert out[1..] == [];
    }
    ReachedNext(nmr, Doubled(nmr, Both(nmr / 2, v), multiset{0}), Replying(1, 0, v, false), out,
                Doubled(nmr, [Second(nmr / 2 + 1, v)], multiset{0, 0}));
  }

  /**
   * For every redundancy of two or more: once the client asks again while the broker holds its first request,
   * a request with a majority among its results may be left waiting, and a deadline pass answers
   * SERVICE_AVAILABLE.
   */
  lemma MajorityIsLeftWaiting(nmr: nat, v: int)
    requires 2 <= nmr < UINT8_SIZE
    ensures exists x, r :: Reached(nmr, x) && 1 in x.b.services && r in x.b.services[1].requests
                           && HasMajority(r.results, nmr, v)
                           && Valid(x.b) && Step(x.b, Sweeping(T12)) == Ok(x.b, [Answer(0, Available(v))])
  {
    var r := Second(nmr / 2 + 1, v);
    var x := Doubled(nmr, [r], multiset{0, 0});
    LastResultComesIn(nmr, v);
    AllAlike(nmr / 2 + 1, v);
    ElectFindsMajority(r.results, nmr);
    AnsweredAndKept(nmr, 2, r, Timespec(8, 0), T12);
    assert r in x.b.services[1].requests;
  }
}
