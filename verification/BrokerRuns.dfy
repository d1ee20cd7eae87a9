/**
 * Whole runs of the broker. `IsRun`: no request is accepted from a client that waits. `IsLockStepRun`: a client asks
 * only when it has been answered as often as it has asked; with misaligned deadline passes it may wait even then.
 */
module BrokerRuns {
  import opened Common
  import opened TimeArithmetic
  import opened Voting
  import opened Requests
  import opened Database
  import opened BrokerMachine
  import opened Deadlines

  /** The broker with two tallies: how often each client has asked, and how often it was answered. */
  datatype Session = Session(b: Broker, asked: multiset<Client>, answered: multiset<Client>)

  function AnswersIn(out: seq<Output>): multiset<Client> {
    if out == [] then multiset{}
    else if out[0].Answer? then multiset{out[0].client} + AnswersIn(out[1..])
    else AnswersIn(out[1..])
  }

  function Asks(e: Event): multiset<Client> {
    if e.Requesting? then multiset{e.client} else multiset{}
  }

  ghost predicate Next(x: Session, e: Event, out: seq<Output>, x': Session) {
    && Valid(x.b) && Step(x.b, e) == Ok(x'.b, out)
    && x'.asked == x.asked + Asks(e) && x'.answered == x.answered + AnswersIn(out)
  }

  /** The broker holds no request of a client whose request it accepts. */
  ghost predicate Permitted(b: Broker, e: Event) {
    e.Requesting? && e.service in b.services ==> !Waiting(b.services, e.client)
  }

  /** States, the events between them, and what each event made the broker send. */
  ghost predicate IsRun(nmr: nat, xs: seq<Session>, es: seq<Event>, outs: seq<seq<Output>>) {
    && |xs| == |es| + 1 && |outs| == |es|
    && xs[0] == Session(Init(nmr), multiset{}, multiset{})
    && forall i :: 0 <= i < |es| ==> RunStep(xs, es, outs, i)
  }

  ghost predicate RunStep(xs: seq<Session>, es: seq<Event>, outs: seq<seq<Output>>, i: nat)
    requires i < |es| == |outs| && |xs| == |es| + 1
  {
    Permitted(xs[i].b, es[i]) && Next(xs[i], es[i], outs[i], xs[i + 1])
  }

  // ---- The invariant

  ghost predicate Waiting(services: Services, c: Client) {
    exists s :: s in services && HasClient(services[s].requests, c)
  }

  /** A request that still waits has fewer than `nmr` results, and none of them in the majority. */
  ghost predicate Undecided(services: Services, nmr: nat)
    requires nmr < UINT8_SIZE
  {
    forall s :: s in services ==> UndecidedList(services[s].requests, nmr)
  }

  ghost predicate UndecidedList(rs: seq<RequestRecord>, nmr: nat)
    requires nmr < UINT8_SIZE
  {
    forall i :: 0 <= i < |rs| ==> |rs[i].results| < nmr && Decide(rs[i].results, nmr).None?
  }

  /** No client waits twice, requests wait at available services, and none that waits is decided. */
  ghost predicate Sound(b: Broker) {
    && Valid(b) && 0 < b.nmr
    && UniqueClients(b.services) && OnlyAvailableWait(b)
    && Undecided(b.services, b.nmr)
  }

  function Tally(p: bool): nat {
    if p then 1 else 0
  }

  /** Every client has been answered as often as it asked, but for the one request it may be waiting for. */
  ghost predicate Conserved(x: Session) {
    forall c :: x.asked[c] == x.answered[c] + Tally(Waiting(x.b.services, c))
  }

  ghost predicate Good(x: Session) {
    Sound(x.b) && Conserved(x)
  }

  /** Whoever is answered stops waiting, whoever asks starts, and no one else does either. */
  ghost predicate Settles(b: Broker, e: Event, out: seq<Output>, b': Broker) {
    forall c :: AnswersIn(out)[c] + Tally(Waiting(b'.services, c)) == Tally(Waiting(b.services, c)) + Asks(e)[c]
  }

  lemma ConservedIff(x: Session, e: Event, out: seq<Output>, x': Session)
    requires Conserved(x) && Next(x, e, out, x')
    ensures Conserved(x') <==> Settles(x.b, e, out, x'.b)
  {
    forall c
      ensures x'.asked[c] == x'.answered[c] + Tally(Waiting(x'.b.services, c))
         <==> AnswersIn(out)[c] + Tally(Waiting(x'.b.services, c)) == Tally(Waiting(x.b.services, c)) + Asks(e)[c]
    {
      assert x.asked[c] == x.answered[c] + Tally(Waiting(x.b.services, c));
      assert x'.asked[c] == x.asked[c] + Asks(e)[c] && x'.answered[c] == x.answered[c] + AnswersIn(out)[c];
    }
  }

  lemma UndecidedMeansNoMajority(rs: seq<int>, nmr: nat, v: int)
    requires |rs| < nmr < UINT8_SIZE && Decide(rs, nmr).None?
    ensures !HasMajority(rs, nmr, v) && Elect(rs, nmr).None?
  {
    ElectFindsMajority(rs, nmr);
    VotesBound(rs, v);
    if Elect(rs, nmr).Some? {
      VotesBound(rs, Elect(rs, nmr).value);
    }
  }

  // ---- Steps that leave the request lists alone

  ghost predicate SameLists(before: Services, after: Services) {
    && before.Keys <= after.Keys
    && forall s :: s in after ==> after[s].requests == if s in before then before[s].requests else []
  }

  lemma SameListsKeepSound(b: Broker, b': Broker)
    requires Sound(b) && Valid(b') && b'.nmr == b.nmr && SameLists(b.services, b'.services)
    requires b.available <= b'.available
    ensures Sound(b')
    ensures forall c :: Waiting(b.services, c) == Waiting(b'.services, c)
  {
    forall c ensures Waiting(b.services, c) == Waiting(b'.services, c) {
      if s :| s in b.services && HasClient(b.services[s].requests, c) {
        assert HasClient(b'.services[s].requests, c);
      }
      if s :| s in b'.services && HasClient(b'.services[s].requests, c) {
        assert HasClient(b.services[s].requests, c);
      }
    }
  }

  lemma {:induction false} NoAnswers(out: seq<Output>)
    requires forall i :: 0 <= i < |out| ==> !out[i].Answer?
    ensures AnswersIn(out) == multiset{}
  {
    if out != [] {
      NoAnswers(out[1..]);
    }
  }

  ghost predicate Quiet(b: Broker, out: seq<Output>, b': Broker) {
    && SameLists(b.services, b'.services) && AnswersIn(out) == multiset{}
    && b'.nmr == b.nmr && b.available <= b'.available
  }

  lemma QuietRegistration(b: Broker, s: Service, clock: Timespec)
    ensures Quiet(b, GetRegistration(b, s, clock).out, GetRegistration(b, s, clock).state)
  {
    NoAnswers(GetRegistration(b, s, clock).out);
  }

  lemma QuietHeartbeat(b: Broker, i: nat, now: Timespec, rearm: Timespec)
    requires Valid(b) && Heartbeat(b, i, now, rearm).Ok?
    ensures Quiet(b, Heartbeat(b, i, now, rearm).out, Heartbeat(b, i, now, rearm).state)
  {
    NoAnswers(Heartbeat(b, i, now, rearm).out);
  }

  /** Registrations, pongs and heartbeats touch no request and answer no client. */
  lemma QuietStep(b: Broker, e: Event)
    requires Valid(b) && (e.Registering? || e.Ponging? || e.Beating?) && Step(b, e).Ok?
    ensures Quiet(b, Step(b, e).out, Step(b, e).state)
  {
    match e
    case Registering(s, clock) => QuietRegistration(b, s, clock);
    case Beating(i, now, rearm) => QuietHeartbeat(b, i, now, rearm);
    case Ponging(s, copy) =>
  }

  lemma QuietKeepsSound(b: Broker, e: Event)
    requires Sound(b) && (e.Registering? || e.Ponging? || e.Beating?) && Step(b, e).Ok?
    ensures Sound(Step(b, e).state) && Settles(b, e, Step(b, e).out, Step(b, e).state)
  {
    StepKeepsValid(b, e);
    QuietStep(b, e);
    SameListsKeepSound(b, Step(b, e).state);
  }

  // ---- A request

  lemma AppendedClient(rs: seq<RequestRecord>, r: RequestRecord, c: Client)
    ensures HasClient(rs + [r], c) <==> HasClient(rs, c) || r.client == c
  {
    if HasClient(rs, c) {
      var i :| 0 <= i < |rs| && rs[i].client == c;
      assert (rs + [r])[i].client == c;
    }
    if r.client == c {
      assert (rs + [r])[|rs|].client == c;
    }
  }

  /** What an accepted request does to the lists. */
  lemma RequestAppends(b: Broker, e: Event)
    requires Valid(b) && e.Requesting? && e.service in b.services && Step(b, e).Ok?
    ensures var b' := Step(b, e).state;
            && b'.services == Accept(b, e.client, e.service, e.clock).services
            && e.service in b.available && b'.available == b.available && b'.nmr == b.nmr
    ensures AnswersIn(Step(b, e).out) == multiset{}
  {
    NoAnswers(Step(b, e).out);
  }

  /** A record added for a client that does not wait yet. */
  lemma AppendList(services: Services, s: Service, r: RequestRecord, services': Services)
    requires UniqueClients(services) && s in services && !Waiting(services, r.client)
    requires services'.Keys == services.Keys && services'[s].requests == services[s].requests + [r]
    requires forall t :: t in services && t != s ==> services'[t].requests == services[t].requests
    ensures UniqueClients(services')
    ensures forall c :: Waiting(services', c) <==> Waiting(services, c) || c == r.client
  {
    var rs := services[s].requests;
    forall c ensures HasClient(services'[s].requests, c) <==> HasClient(rs, c) || c == r.client {
      AppendedClient(rs, r, c);
    }
    assert forall t :: t in services ==> !HasClient(services[t].requests, r.client);
    assert Distinct(rs + [r]);
    forall c ensures Waiting(services', c) <==> Waiting(services, c) || c == r.client {
      if t :| t in services && HasClient(services[t].requests, c) {
        assert HasClient(services'[t].requests, c);
      }
      assert c == r.client ==> HasClient(services'[s].requests, c);
    }
  }

  lemma RequestingKeepsSound(b: Broker, e: Event)
    requires Sound(b) && e.Requesting? && Permitted(b, e) && Step(b, e).Ok?
    ensures Sound(Step(b, e).state) && Settles(b, e, Step(b, e).out, Step(b, e).state)
  {
    StepKeepsValid(b, e);
    if e.service !in b.services {
      assert AnswersIn([Answer(e.client, NotAvailable)]) == multiset{e.client};
    } else {
      RequestAppends(b, e);
      var r := RequestRecord(e.client, [], AddMs(e.clock, REQUEST_TIMEOUT));
      AppendList(b.services, e.service, r, Step(b, e).state.services);
      assert UndecidedList(b.services[e.service].requests + [r], b.nmr);
    }
  }

  /** Where a request is accepted, no client waits twice afterwards if and only if the asking one did not wait. */
  lemma UniqueAfterRequestIff(b: Broker, e: Event)
    requires Valid(b) && UniqueClients(b.services) && e.Requesting? && e.service in b.services && Step(b, e).Ok?
    ensures UniqueClients(Step(b, e).state.services) <==> !Waiting(b.services, e.client)
  {
    var services, services' := b.services, Step(b, e).state.services;
    RequestAppends(b, e);
    var r := RequestRecord(e.client, [], AddMs(e.clock, REQUEST_TIMEOUT));
    var rs := services[e.service].requests;
    assert services'[e.service].requests == rs + [r];
    if t :| t in services && HasClient(services[t].requests, e.client) {
      AppendedClient(rs, r, e.client);
      if t == e.service {
        var i :| 0 <= i < |rs| && rs[i].client == e.client;
        assert (rs + [r])[i].client == (rs + [r])[|rs|].client;
        assert !Distinct(services'[t].requests);
      } else {
        assert HasClient(services'[t].requests, e.client) && HasClient(services'[e.service].requests, e.client);
      }
    } else {
      AppendList(services, e.service, r, services');
    }
  }

  // ---- A reply

  /** The list when record `k`, the only one of its client, takes one more result. */
  lemma AddToOne(rs: seq<RequestRecord>, k: nat, v: int)
    requires Distinct(rs) && k < |rs|
    ensures var c, results := rs[k].client, rs[k].results + [v];
            && AddResult(rs, c, v) == rs[k := rs[k].(results := results)]
            && LastResults(AddResult(rs, c, v), c) == Some(results)
            && Erase(AddResult(rs, c, v), c) == rs[..k] + rs[k + 1..]
  {
    var c := rs[k].client;
    var added := AddResult(rs, c, v);
    assert added == rs[k := rs[k].(results := rs[k].results + [v])];
    LastResultsOf(added, k);
    EraseOne(added, k);
    assert added[..k] + added[k + 1..] == rs[..k] + rs[k + 1..];
  }

  /** With one record for the client, a reply either extends it undecided or closes it. */
  function Counted(b: Broker, s: Service, k: nat, v: int): Outcome
    requires s in b.services && k < |b.services[s].requests|
    requires |b.services[s].requests[k].results| + 1 < UINT8_SIZE
  {
    var rs := b.services[s].requests;
    var results := rs[k].results + [v];
    match Decide(results, b.nmr)
    case None => Ok(Settle(b, s, rs[k := rs[k].(results := results)]), [])
    case Some(verdict) => Ok(Settle(b, s, rs[..k] + rs[k + 1..]), [Answer(rs[k].client, verdict)])
  }

  lemma ReplyEffect(b: Broker, s: Service, k: nat, v: int)
    requires s in b.services && k < |b.services[s].requests| && Distinct(b.services[s].requests)
    requires |b.services[s].requests[k].results| + 1 < UINT8_SIZE
    ensures GetResponse(b, s, b.services[s].requests[k].client, v, false) == Counted(b, s, k, v)
  {
    var rs := b.services[s].requests;
    AddToOne(rs, k, v);
    var b' := Settle(b, s, AddResult(rs, rs[k].client, v));
    assert Settle(b', s, rs[..k] + rs[k + 1..]) == Settle(b, s, rs[..k] + rs[k + 1..]);
  }

  lemma IgnoredReply(b: Broker, e: Event)
    requires Valid(b) && e.Replying? && Step(b, e).Ok?
    requires e.duplicated || (e.service in b.services && !HasClient(b.services[e.service].requests, e.client))
    ensures Step(b, e) == Ok(b, [])
  {
    if !e.duplicated {
      NoResults(b.services[e.service].requests, e.client);
      assert WithRequests(b.services, e.service, b.services[e.service].requests) == b.services;
    }
  }

  /** Replacing one list by one with no new clients: only the dropped clients stop waiting. */
  lemma ReplaceList(services: Services, s: Service, rs: seq<RequestRecord>)
    requires UniqueClients(services) && s in services && Distinct(rs)
    requires forall c :: HasClient(rs, c) ==> HasClient(services[s].requests, c)
    ensures UniqueClients(WithRequests(services, s, rs))
    ensures forall c :: Waiting(WithRequests(services, s, rs), c) <==>
                        Waiting(services, c) && (HasClient(services[s].requests, c) ==> HasClient(rs, c))
  {
    var services' := WithRequests(services, s, rs);
    forall c
      ensures Waiting(services', c) <==>
              Waiting(services, c) && (HasClient(services[s].requests, c) ==> HasClient(rs, c))
    {
      if HasClient(services[s].requests, c) {
        assert Waiting(services, c);
        assert forall t :: t in services && t != s ==> !HasClient(services'[t].requests, c);
        assert HasClient(rs, c) ==> HasClient(services'[s].requests, c);
      } else {
        assert !HasClient(services'[s].requests, c);
        if t :| t in services && HasClient(services[t].requests, c) {
          assert HasClient(services'[t].requests, c);
        }
        if t :| t in services' && HasClient(services'[t].requests, c) {
          assert HasClient(services[t].requests, c);
        }
      }
    }
  }

  lemma ExtendedKeepsSound(b: Broker, s: Service, k: nat, results: seq<int>)
    requires Sound(b) && s in b.services && k < |b.services[s].requests|
    requires |results| < b.nmr && Decide(results, b.nmr).None?
    ensures var rs := b.services[s].requests;
            var b' := Settle(b, s, rs[k := rs[k].(results := results)]);
            Sound(b') && forall c :: Waiting(b'.services, c) <==> Waiting(b.services, c)
  {
    var rs := b.services[s].requests;
    var rs' := rs[k := rs[k].(results := results)];
    forall c ensures HasClient(rs', c) <==> HasClient(rs, c) {
      if i :| 0 <= i < |rs| && rs[i].client == c {
        assert rs'[i].client == c;
      }
      if i :| 0 <= i < |rs'| && rs'[i].client == c {
        assert rs[i].client == c;
      }
    }
    SettleKeepsValid(b, s, rs');
    ReplaceList(b.services, s, rs');
  }

  lemma RemovedClient(rs: seq<RequestRecord>, k: nat, c: Client)
    requires Distinct(rs) && k < |rs|
    ensures HasClient(rs[..k] + rs[k + 1..], c) <==> HasClient(rs, c) && c != rs[k].client
  {
    var rest := rs[..k] + rs[k + 1..];
    if i :| 0 <= i < |rest| && rest[i].client == c {
      assert rs[if i < k then i else i + 1].client == c;
    }
    if i :| 0 <= i < |rs| && rs[i].client == c && i != k {
      assert rest[if i < k then i else i - 1].client == c;
    }
  }

  lemma ClosedKeepsSound(b: Broker, s: Service, k: nat)
    requires Sound(b) && s in b.services && k < |b.services[s].requests|
    ensures var rs := b.services[s].requests;
            var b' := Settle(b, s, rs[..k] + rs[k + 1..]);
            && Sound(b') && Waiting(b.services, rs[k].client)
            && forall c :: Waiting(b'.services, c) <==> Waiting(b.services, c) && c != rs[k].client
  {
    var rs := b.services[s].requests;
    var rs' := rs[..k] + rs[k + 1..];
    forall c ensures HasClient(rs', c) <==> HasClient(rs, c) && c != rs[k].client {
      RemovedClient(rs, k, c);
    }
    SettleKeepsValid(b, s, rs');
    ReplaceList(b.services, s, rs');
    assert HasClient(rs, rs[k].client);
  }

  lemma CountedKeepsSound(b: Broker, s: Service, k: nat, v: int, e: Event)
    requires Sound(b) && s in b.services && k < |b.services[s].requests|
    requires |b.services[s].requests[k].results| < b.nmr && !e.Requesting?
    ensures var o := Counted(b, s, k, v);
            Sound(o.state) && Settles(b, e, o.out, o.state)
  {
    var rs := b.services[s].requests;
    var results := rs[k].results + [v];
    match Decide(results, b.nmr)
    case None =>
      assert |results| < b.nmr;
      ExtendedKeepsSound(b, s, k, results);
    case Some(verdict) =>
      assert AnswersIn([Answer(rs[k].client, verdict)]) == multiset{rs[k].client};
      ClosedKeepsSound(b, s, k);
  }

  lemma ReplyingKeepsSound(b: Broker, e: Event)
    requires Sound(b) && e.Replying? && Step(b, e).Ok?
    ensures Sound(Step(b, e).state) && Settles(b, e, Step(b, e).out, Step(b, e).state)
  {
    if e.duplicated || !HasClient(b.services[e.service].requests, e.client) {
      IgnoredReply(b, e);
    } else {
      var rs := b.services[e.service].requests;
      var k :| 0 <= k < |rs| && rs[k].client == e.client;
      ReplyEffect(b, e.service, k, e.result);
      CountedKeepsSound(b, e.service, k, e.result, e);
    }
  }

  // ---- A deadline pass

  lemma {:induction false} NoticesTally(rs: seq<RequestRecord>, nmr: nat, c: Client)
    requires Distinct(rs) && Countable(rs)
    ensures AnswersIn(Notices(rs, nmr))[c] == if HasClient(rs, c) then 1 else 0
  {
    if rs != [] {
      var rest := rs[1..];
      NoticesTally(rest, nmr, c);
      assert Notices(rs, nmr)[1..] == Notices(rest, nmr);
      if i :| 0 <= i < |rest| && rest[i].client == c {
        assert rs[i + 1].client == c;
      }
      if i :| 0 <= i < |rs| && rs[i].client == c && i > 0 {
        assert rest[i - 1].client == c;
      }
    }
  }

  lemma {:induction false} AnswersConcat(a: seq<Output>, b: seq<Output>)
    ensures AnswersIn(a + b) == AnswersIn(a) + AnswersIn(b)
  {
    if a == [] {
      assert a + b == b;
    } else {
      AnswersConcat(a[1..], b);
      assert (a + b)[0] == a[0] && (a + b)[1..] == a[1..] + b;
    }
  }

  ghost predicate LateSomewhere(services: Services, available: seq<Service>, i: nat, now: Timespec, c: Client)
    requires Located(services, available)
  {
    exists k :: i <= k < |available| && HasClient(Late(services[available[k]].requests, now), c)
  }

  lemma {:induction false} LateDistinct(rs: seq<RequestRecord>, now: Timespec)
    requires Distinct(rs)
    ensures Distinct(Late(rs, now))
    ensures forall c :: HasClient(Late(rs, now), c) ==> HasClient(rs, c)
  {
    if rs != [] {
      var rest := rs[1..];
      LateDistinct(rest, now);
      forall c | HasClient(rest, c) ensures HasClient(rs, c) && c != rs[0].client {
        var i :| 0 <= i < |rest| && rest[i].client == c;
        assert rs[i + 1].client == c;
      }
      if Expired(now, rs[0].timeout) {
        var late := Late(rest, now);
        forall j | 0 <= j < |late| ensures late[j].client != rs[0].client {
          assert HasClient(late, late[j].client);
        }
        forall c | HasClient([rs[0]] + late, c) ensures HasClient(rs, c) {
          var i :| 0 <= i < |[rs[0]] + late| && ([rs[0]] + late)[i].client == c;
          if i > 0 {
            assert late[i - 1].client == c;
          }
        }
      }
    }
  }

  /** Each client with an expired request is told once. */
  lemma {:induction false} SweepTally(services: Services, nmr: nat, available: seq<Service>, i: nat, now: Timespec,
                                      c: Client)
    requires i <= |available| && Located(services, available) && NoRepeats(available)
    requires UniqueClients(services) && AllCountable(services)
    ensures AnswersIn(AllNotices(services, nmr, available, i, now))[c]
         == if LateSomewhere(services, available, i, now, c) then 1 else 0
    decreases |available| - i
  {
    if i < |available| {
      var rs := services[available[i]].requests;
      var late := Late(rs, now);
      LateIsCountable(rs, now);
      LateDistinct(rs, now);
      NoticesTally(late, nmr, c);
      SweepTally(services, nmr, available, i + 1, now, c);
      AnswersConcat(Notices(late, nmr), AllNotices(services, nmr, available, i + 1, now));
      if HasClient(late, c) && LateSomewhere(services, available, i + 1, now, c) {
        var k :| i + 1 <= k < |available| && HasClient(Late(services[available[k]].requests, now), c);
        LateDistinct(services[available[k]].requests, now);
      }
      assert LateSomewhere(services, available, i, now, c)
        <==> HasClient(late, c) || LateSomewhere(services, available, i + 1, now, c);
    }
  }

  lemma UndecidedIsCountable(services: Services, nmr: nat)
    requires nmr < UINT8_SIZE && Undecided(services, nmr)
    ensures AllCountable(services)
  {
  }

  lemma LiveOrLate(rs: seq<RequestRecord>, now: Timespec, c: Client)
    requires Distinct(rs)
    ensures HasClient(rs, c) <==> HasClient(Live(rs, now), c) || HasClient(Late(rs, now), c)
    ensures !(HasClient(Live(rs, now), c) && HasClient(Late(rs, now), c))
  {
    LiveAndLate(rs, now);
    HasClientIn(rs, c);
    HasClientIn(Live(rs, now), c);
    HasClientIn(Late(rs, now), c);
    forall r, q | r in Live(rs, now) && q in Late(rs, now) ensures r.client != q.client {
      var i :| 0 <= i < |rs| && rs[i] == r;
      var j :| 0 <= j < |rs| && rs[j] == q;
    }
  }

  lemma PurgedLists(b: Broker, now: Timespec, services': Services)
    requires Sound(b) && services' == Purged(b.services, b.available, 0, now)
    ensures UniqueClients(services') && Undecided(services', b.nmr)
    ensures forall s :: s in services' && services'[s].requests != [] ==> b.services[s].requests != []
  {
    PurgedKeeps(b.services, b.available, now);
    forall s | s in b.services ensures UndecidedList(Live(b.services[s].requests, now), b.nmr) {
      var rs := b.services[s].requests;
      var live := Live(rs, now);
      LiveAndLate(rs, now);
      forall i | 0 <= i < |live| ensures |live[i].results| < b.nmr && Decide(live[i].results, b.nmr).None? {
        assert live[i] in rs;
      }
    }
  }

  /** What the deadline pass does when the broker does not exit in it. */
  lemma SweepingKeepsSound(b: Broker, e: Event)
    requires Sound(b) && e.Sweeping? && Step(b, e).Ok?
    ensures Sound(Step(b, e).state) && AllCountable(b.services)
    ensures Step(b, e) == Ok(b.(services := Purged(b.services, b.available, 0, e.now)),
                             AllNotices(b.services, b.nmr, b.available, 0, e.now))
  {
    StepKeepsValid(b, e);
    UndecidedIsCountable(b.services, b.nmr);
    SweepEffect(b.services, b.nmr, b.available, 0, e.now);
    PurgedLists(b, e.now, Purged(b.services, b.available, 0, e.now));
  }

  /** A client that waits at a service has an expired request exactly if it is a late one there. */
  lemma LateHere(b: Broker, now: Timespec, s: Service, c: Client)
    requires Sound(b) && s in b.services && HasClient(b.services[s].requests, c)
    ensures LateSomewhere(b.services, b.available, 0, now, c) <==> HasClient(Late(b.services[s].requests, now), c)
    ensures HasClient(Live(b.services[s].requests, now), c) <==> !HasClient(Late(b.services[s].requests, now), c)
  {
    var services, available := b.services, b.available;
    LiveOrLate(services[s].requests, now, c);
    assert services[s].requests != [];
    var k :| 0 <= k < |available| && available[k] == s;
    if j :| 0 <= j < |available| && HasClient(Late(services[available[j]].requests, now), c) {
      LateDistinct(services[available[j]].requests, now);
      assert available[j] == s;
    }
  }

  /** Where client `c` waits at service `s`, what the pass does to it. */
  lemma WaitsAfterSweep(b: Broker, now: Timespec, s: Service, c: Client)
    requires Sound(b) && s in b.services && HasClient(b.services[s].requests, c)
    ensures var services' := Purged(b.services, b.available, 0, now);
            Waiting(services', c) <==>
            !(s < |b.available| && b.available[s] == s && HasClient(Late(b.services[s].requests, now), c))
  {
    var services' := Purged(b.services, b.available, 0, now);
    LiveOrLate(b.services[s].requests, now, c);
    PurgedLists(b, now, services');
    forall t | t in services' && HasClient(services'[t].requests, c) ensures t == s {
      if services'[t] != b.services[t] {
        LiveSubset(b.services[t].requests, now, c);
      }
    }
    assert HasClient(services'[s].requests, c) ==> Waiting(services', c);
  }

  /** A client that waits nowhere is not told anything and waits nowhere after the pass. */
  lemma IdleInSweep(b: Broker, now: Timespec, c: Client)
    requires Sound(b) && !Waiting(b.services, c)
    ensures !LateSomewhere(b.services, b.available, 0, now, c)
    ensures !Waiting(Purged(b.services, b.available, 0, now), c)
  {
    if k :| 0 <= k < |b.available| && HasClient(Late(b.services[b.available[k]].requests, now), c) {
      LateDistinct(b.services[b.available[k]].requests, now);
    }
    var services' := Purged(b.services, b.available, 0, now);
    if s :| s in services' && HasClient(services'[s].requests, c) {
      if services'[s] != b.services[s] {
        LiveSubset(b.services[s].requests, now, c);
      }
    }
  }

  /** One client in an aligned pass. */
  lemma AlignedSettlesOne(b: Broker, now: Timespec, c: Client)
    requires Sound(b) && Aligned(b, now)
    ensures Tally(LateSomewhere(b.services, b.available, 0, now, c))
            + Tally(Waiting(Purged(b.services, b.available, 0, now), c))
         == Tally(Waiting(b.services, c))
  {
    if Waiting(b.services, c) {
      var s :| s in b.services && HasClient(b.services[s].requests, c);
      LateHere(b, now, s, c);
      WaitsAfterSweep(b, now, s, c);
      if HasClient(Late(b.services[s].requests, now), c) {
        var k :| 0 <= k < |b.available| && b.available[k] == s;
      }
    } else {
      IdleInSweep(b, now, c);
    }
  }

  /** Where a pass is not aligned, some client is told and goes on waiting. */
  lemma MisalignedUnsettlesOne(b: Broker, now: Timespec) returns (c: Client)
    requires Sound(b) && !Aligned(b, now)
    ensures LateSomewhere(b.services, b.available, 0, now, c)
    ensures Waiting(b.services, c) && Waiting(Purged(b.services, b.available, 0, now), c)
  {
    var k :| 0 <= k < |b.available| && Late(b.services[b.available[k]].requests, now) != [] && b.available[k] != k;
    var s := b.available[k];
    var late := Late(b.services[s].requests, now);
    c := late[0].client;
    assert HasClient(late, c);
    LateDistinct(b.services[s].requests, now);
    WaitsAfterSweep(b, now, s, c);
  }

  /**
   * A deadline pass lets whoever it answers stop waiting if and only if it finds expired requests only at
   * services whose position is their number.
   */
  lemma SweepSettlesIff(b: Broker, e: Event)
    requires Sound(b) && e.Sweeping? && Step(b, e).Ok?
    ensures Settles(b, e, Step(b, e).out, Step(b, e).state) <==> Aligned(b, e.now)
  {
    SweepingKeepsSound(b, e);
    var out, b' := Step(b, e).out, Step(b, e).state;
    if Aligned(b, e.now) {
      forall c
        ensures AnswersIn(out)[c] + Tally(Waiting(b'.services, c)) == Tally(Waiting(b.services, c)) + Asks(e)[c]
      {
        SweepTally(b.services, b.nmr, b.available, 0, e.now, c);
        AlignedSettlesOne(b, e.now, c);
      }
    } else {
      var c := MisalignedUnsettlesOne(b, e.now);
      SweepTally(b.services, b.nmr, b.available, 0, e.now, c);
      assert AnswersIn(out)[c] + Tally(Waiting(b'.services, c)) == 2;
    }
  }

  // ---- Every run

  lemma StepKeepsSound(b: Broker, e: Event)
    requires Sound(b) && Permitted(b, e) && Step(b, e).Ok?
    ensures Sound(Step(b, e).state)
    ensures !e.Sweeping? ==> Settles(b, e, Step(b, e).out, Step(b, e).state)
  {
    match e
    case Requesting(_, _, _, _, _) => RequestingKeepsSound(b, e);
    case Replying(_, _, _, _) => ReplyingKeepsSound(b, e);
    case Sweeping(_) => SweepingKeepsSound(b, e);
    case Registering(_, _) => QuietKeepsSound(b, e);
    case Ponging(_, _) => QuietKeepsSound(b, e);
    case Beating(_, _, _) => QuietKeepsSound(b, e);
  }

  lemma StepKeepsNmr(b: Broker, e: Event)
    requires Valid(b) && Step(b, e).Ok?
    ensures Step(b, e).state.nmr == b.nmr
  {
  }

  /**
   * Whatever deadline passes do: as long as no client asks while the broker holds a request of it, no client
   * waits twice and every waiting request is undecided.
   */
  lemma {:induction false} RunsAreSound(nmr: nat, xs: seq<Session>, es: seq<Event>, outs: seq<seq<Output>>, i: nat)
    requires 0 < nmr < UINT8_SIZE && IsRun(nmr, xs, es, outs) && i < |xs|
    ensures Sound(xs[i].b) && xs[i].b.nmr == nmr
  {
    if i > 0 {
      RunsAreSound(nmr, xs, es, outs, i - 1);
      assert RunStep(xs, es, outs, i - 1);
      StepKeepsSound(xs[i - 1].b, es[i - 1]);
      StepKeepsNmr(xs[i - 1].b, es[i - 1]);
    } else {
      InitIsValid(nmr);
    }
  }

  // ---- Conservation in lock-step runs

  /** A step that is not a deadline pass, or one that can delete what it answers. */
  ghost predicate AlignedStep(b: Broker, e: Event) {
    e.Sweeping? ==> Located(b.services, b.available) && Aligned(b, e.now)
  }

  /** One step keeps the books balanced if and only if it is no misaligned deadline pass. */
  lemma StepKeepsGoodIff(x: Session, e: Event, out: seq<Output>, x': Session)
    requires Good(x) && Permitted(x.b, e) && Next(x, e, out, x')
    ensures Sound(x'.b)
    ensures Conserved(x') <==> AlignedStep(x.b, e)
  {
    StepKeepsSound(x.b, e);
    ConservedIff(x, e, out, x');
    if e.Sweeping? {
      SweepSettlesIff(x.b, e);
    }
  }

  /** A client asks only when it has had an answer to all it asked; nothing else is asked of the run. */
  ghost predicate IsLockStepRun(nmr: nat, xs: seq<Session>, es: seq<Event>, outs: seq<seq<Output>>) {
    && |xs| == |es| + 1 && |outs| == |es|
    && xs[0] == Session(Init(nmr), multiset{}, multiset{})
    && forall i :: 0 <= i < |es| ==> LockStep(xs, es, outs, i)
  }

  ghost predicate LockStep(xs: seq<Session>, es: seq<Event>, outs: seq<seq<Output>>, i: nat)
    requires i < |es| == |outs| && |xs| == |es| + 1
  {
    && (es[i].Requesting? ==> xs[i].asked[es[i].client] <= xs[i].answered[es[i].client])
    && Next(xs[i], es[i], outs[i], xs[i + 1])
  }

  lemma LockStepIsPermitted(x: Session, e: Event)
    requires Conserved(x) && (e.Requesting? ==> x.asked[e.client] <= x.answered[e.client])
    ensures e.Requesting? ==> !Waiting(x.b.services, e.client)
  {
  }

  lemma StartIsGood(nmr: nat)
    requires 0 < nmr < UINT8_SIZE
    ensures Good(Session(Init(nmr), multiset{}, multiset{}))
  {
    InitIsValid(nmr);
  }

  ghost predicate AllConserved(xs: seq<Session>, i: nat)
    requires i < |xs|
  {
    forall j :: 0 <= j <= i ==> Conserved(xs[j])
  }

  /** The first `i` steps are no misaligned deadline passes. */
  ghost predicate AllAligned(xs: seq<Session>, es: seq<Event>, i: nat)
    requires i <= |es| < |xs|
  {
    forall j :: 0 <= j < i ==> AlignedStep(xs[j].b, es[j])
  }

  ghost predicate AllPermitted(xs: seq<Session>, es: seq<Event>, i: nat)
    requires i <= |es| < |xs|
  {
    forall j :: 0 <= j < i ==> Permitted(xs[j].b, es[j])
  }

  lemma OneStepMore(xs: seq<Session>, es: seq<Event>, i: nat)
    requires i < |es| < |xs|
    ensures AllConserved(xs, i + 1) <==> AllConserved(xs, i) && Conserved(xs[i + 1])
    ensures AllAligned(xs, es, i + 1) <==> AllAligned(xs, es, i) && AlignedStep(xs[i].b, es[i])
    ensures AllPermitted(xs, es, i + 1) <==> AllPermitted(xs, es, i) && Permitted(xs[i].b, es[i])
  {
  }

  lemma LockStepIsGoodIff(xs: seq<Session>, es: seq<Event>, outs: seq<seq<Output>>, i: nat)
    requires i < |es| == |outs| && |xs| == |es| + 1 && LockStep(xs, es, outs, i) && Good(xs[i])
    ensures Conserved(xs[i + 1]) <==> AlignedStep(xs[i].b, es[i])
    ensures Sound(xs[i + 1].b) && xs[i + 1].b.nmr == xs[i].b.nmr && Permitted(xs[i].b, es[i])
  {
    LockStepIsPermitted(xs[i], es[i]);
    StepKeepsGoodIff(xs[i], es[i], outs[i], xs[i + 1]);
    StepKeepsNmr(xs[i].b, es[i]);
  }

  /** Up to the first misaligned pass a lock-step run is good, and the state after it is the first that is not. */
  lemma {:induction false} LockStepRunsAreGoodIff(nmr: nat, xs: seq<Session>, es: seq<Event>, outs: seq<seq<Output>>,
                                                  i: nat)
    requires 0 < nmr < UINT8_SIZE && IsLockStepRun(nmr, xs, es, outs) && i < |xs|
    ensures AllConserved(xs, i) <==> AllAligned(xs, es, i)
    ensures AllAligned(xs, es, i) ==> Good(xs[i]) && xs[i].b.nmr == nmr && AllPermitted(xs, es, i)
  {
    if i == 0 {
      StartIsGood(nmr);
    } else {
      LockStepRunsAreGoodIff(nmr, xs, es, outs, i - 1);
      OneStepMore(xs, es, i - 1);
      if AllAligned(xs, es, i - 1) {
        assert LockStep(xs, es, outs, i - 1);
        LockStepIsGoodIff(xs, es, outs, i - 1);
      }
    }
  }

  /**
   * In every run with lock-step clients: the books balance in every state if and only if every deadline
   * pass finds expired requests only at services whose position is their number.
   */
  lemma ConservationIff(nmr: nat, xs: seq<Session>, es: seq<Event>, outs: seq<seq<Output>>)
    requires 0 < nmr < UINT8_SIZE && IsLockStepRun(nmr, xs, es, outs)
    ensures AllConserved(xs, |es|) <==> AllAligned(xs, es, |es|)
  {
    LockStepRunsAreGoodIff(nmr, xs, es, outs, |es|);
  }

  /** A lock-step run whose deadline passes are aligned. */
  ghost predicate IsAlignedRun(nmr: nat, xs: seq<Session>, es: seq<Event>, outs: seq<seq<Output>>) {
    IsLockStepRun(nmr, xs, es, outs) && AllAligned(xs, es, |es|)
  }

  /** In such a run no client asks while the broker holds a request of it, and the books balance throughout. */
  lemma RunsAreGood(nmr: nat, xs: seq<Session>, es: seq<Event>, outs: seq<seq<Output>>, i: nat)
    requires 0 < nmr < UINT8_SIZE && IsAlignedRun(nmr, xs, es, outs) && i < |xs|
    ensures Good(xs[i]) && xs[i].b.nmr == nmr
    ensures IsRun(nmr, xs, es, outs)
  {
    LockStepRunsAreGoodIff(nmr, xs, es, outs, i);
    LockStepRunsAreGoodIff(nmr, xs, es, outs, |es|);
    forall j | 0 <= j < |es| ensures RunStep(xs, es, outs, j) {
      assert LockStep(xs, es, outs, j);
    }
  }
}
