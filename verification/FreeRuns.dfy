/**
 * Every run of the broker: clients ask when they like, with any number of requests waiting. When a waiting
 * request is undecided, when no client waits twice, and that each accepted request is answered.
 */
module FreeRuns {
  import opened Common
  import opened TimeArithmetic
  import opened Requests
  import opened Database
  import opened BrokerMachine
  import opened Deadlines
  import opened BrokerRuns
  import opened Snapshots
  import opened Repeats

  /** A run in which nothing is asked of the clients. */
  ghost predicate IsFreeRun(nmr: nat, xs: seq<Session>, es: seq<Event>, outs: seq<seq<Output>>) {
    && |xs| == |es| + 1 && |outs| == |es|
    && xs[0] == Session(Init(nmr), multiset{}, multiset{})
    && forall i :: 0 <= i < |es| ==> FreeStep(xs, es, outs, i)
  }

  ghost predicate FreeStep(xs: seq<Session>, es: seq<Event>, outs: seq<seq<Output>>, i: nat)
    requires i < |es| == |outs| && |xs| == |es| + 1
  {
    Next(xs[i], es[i], outs[i], xs[i + 1])
  }

  /** The requests that wait at service `s`. */
  function ListOf(services: Services, s: Service): seq<RequestRecord> {
    if s in services then services[s].requests else []
  }

  /** What an event makes of the list `rs` of service `s`. */
  function Changed(b: Broker, e: Event, s: Service, rs: seq<RequestRecord>): seq<RequestRecord>
    requires Located(b.services, b.available)
  {
    match e
    case Requesting(c, t, _, clock, _) =>
      if t == s && s in b.services then rs + [RequestRecord(c, [], AddMs(clock, REQUEST_TIMEOUT))] else rs
    case Replying(t, c, v, duplicated) => if t == s && !duplicated then AfterCount(rs, c, v, b.nmr) else rs
    case Sweeping(now) =>
      if s < |b.available| then EraseEach(rs, Answered(b.services, b.available, s, now)) else rs
    case _ => rs
  }

  ghost predicate AllChange(b: Broker, e: Event, b': Broker)
    requires Located(b.services, b.available)
  {
    forall s :: ListOf(b'.services, s) == Changed(b, e, s, ListOf(b.services, s))
  }

  lemma {:induction false} EraseEachNothing(late: seq<RequestRecord>)
    ensures EraseEach([], late) == []
    decreases |late|
  {
    if late != [] {
      EraseEachNothing(late[1..]);
    }
  }

  lemma PassChanges(b: Broker, e: Event)
    requires Valid(b) && e.Sweeping? && Step(b, e).Ok?
    ensures AllChange(b, e, Step(b, e).state) && Step(b, e).state.available == b.available
  {
    AnyPass(b, e.now);
    var services' := Step(b, e).state.services;
    forall s: Service ensures ListOf(services', s) == Changed(b, e, s, ListOf(b.services, s)) {
      if s in b.services {
        TrimmedAt(b.services, b.available, |b.available|, e.now, s);
      } else if s < |b.available| {
        EraseEachNothing(Answered(b.services, b.available, s, e.now));
      }
    }
  }

  lemma ReplyChanges(b: Broker, e: Event)
    requires Valid(b) && e.Replying? && Step(b, e).Ok?
    ensures AllChange(b, e, Step(b, e).state) && Step(b, e).state.available == b.available
  {
    if !e.duplicated {
      ReplyCounts(b, e.service, e.client, e.result);
    }
  }

  lemma RequestChanges(b: Broker, e: Event)
    requires Valid(b) && e.Requesting? && Step(b, e).Ok?
    ensures AllChange(b, e, Step(b, e).state) && Step(b, e).state.available == b.available
    ensures e.service in b.services ==> e.service in b.available
  {
    if e.service in b.services {
      RequestAppends(b, e);
    }
  }

  /** Every event, seen from the lists. */
  lemma StepChanges(b: Broker, e: Event)
    requires Valid(b) && Step(b, e).Ok?
    ensures AllChange(b, e, Step(b, e).state)
    ensures b.available <= Step(b, e).state.available && Step(b, e).state.nmr == b.nmr
    ensures e.Requesting? && e.service in b.services ==> e.service in b.available
  {
    StepKeepsNmr(b, e);
    match e
    case Requesting(_, _, _, _, _) => RequestChanges(b, e);
    case Replying(_, _, _, _) => ReplyChanges(b, e);
    case Sweeping(_) => PassChanges(b, e);
    case _ => QuietStep(b, e);
  }

  // ---- One event of the broker, seen from one request

  /** The event brings a result that counts for the client at the service. */
  predicate CountsFor(e: Event, s: Service, c: Client) {
    e.Replying? && !e.duplicated && e.service == s && e.client == c
  }

  function Brought(e: Event, s: Service, c: Client): seq<int> {
    if CountsFor(e, s, c) then [e.result] else []
  }

  function WithResults(r: RequestRecord, more: seq<int>): RequestRecord {
    r.(results := r.results + more)
  }

  lemma AddedElement(rs: seq<RequestRecord>, c: Client, v: int, r': RequestRecord)
    requires r' in AddResult(rs, c, v)
    ensures exists r :: r in rs && r' == WithResults(r, if r.client == c then [v] else [])
  {
    var i :| 0 <= i < |rs| && AddResult(rs, c, v)[i] == r';
    assert rs[i] in rs && rs[i].results + [] == rs[i].results;
  }

  lemma CountedElement(rs: seq<RequestRecord>, c: Client, v: int, nmr: nat, r': RequestRecord)
    requires r' in AfterCount(rs, c, v, nmr)
    ensures exists r :: r in rs && r' == WithResults(r, if r.client == c then [v] else [])
  {
    EraseSubset(AddResult(rs, c, v), c);
    AddedElement(rs, c, v, r');
  }

  /** The request that an event puts at the end of the list of `s`. */
  ghost predicate NewAt(b: Broker, e: Event, s: Service, r: RequestRecord) {
    && e.Requesting? && e.service == s && s in b.services
    && r == RequestRecord(e.client, [], AddMs(e.clock, REQUEST_TIMEOUT))
  }

  /** A request after the event is new, or one from before it with what the event brings. */
  lemma ChangedElement(b: Broker, e: Event, s: Service, rs: seq<RequestRecord>, r': RequestRecord)
    requires Located(b.services, b.available) && r' in Changed(b, e, s, rs)
    ensures NewAt(b, e, s, r') || exists r :: r in rs && r' == WithResults(r, Brought(e, s, r.client))
  {
    if e.Replying? && e.service == s && !e.duplicated {
      CountedElement(rs, e.client, e.result, b.nmr, r');
    } else if !NewAt(b, e, s, r') {
      if e.Sweeping? && s < |b.available| {
        EachLeaves(rs, Answered(b.services, b.available, s, e.now));
      }
      assert r' in rs && r'.results + [] == r'.results;
    }
  }

  // ---- What every run keeps

  ghost predicate AllNested(services: Services) {
    forall s :: Nested(ListOf(services, s))
  }

  /** What holds in every run: requests wait at available services, and results of one client are nested. */
  ghost predicate Tidy(b: Broker) {
    && Valid(b) && 0 < b.nmr && AllNested(b.services)
    && forall s :: ListOf(b.services, s) != [] ==> s in b.available
  }

  lemma ChangedStaysNested(b: Broker, e: Event, s: Service, rs: seq<RequestRecord>)
    requires Located(b.services, b.available) && Nested(rs)
    ensures Nested(Changed(b, e, s, rs))
  {
    match e
    case Requesting(c, _, _, clock, _) => NestedAppend(rs, RequestRecord(c, [], AddMs(clock, REQUEST_TIMEOUT)));
    case Replying(_, c, v, _) =>
      NestedAdd(rs, c, v);
      NestedErase(AddResult(rs, c, v), c);
    case Sweeping(now) =>
      if s < |b.available| {
        NestedEraseEach(rs, Answered(b.services, b.available, s, now));
      }
    case _ =>
  }

  lemma NothingComesOfNothing(b: Broker, e: Event, s: Service)
    requires Located(b.services, b.available) && Changed(b, e, s, []) != []
    ensures e.Requesting? && e.service == s && s in b.services
  {
    if e.Sweeping? && s < |b.available| {
      EraseEachNothing(Answered(b.services, b.available, s, e.now));
    }
  }

  lemma StepKeepsTidy(b: Broker, e: Event)
    requires Tidy(b) && Step(b, e).Ok?
    ensures Tidy(Step(b, e).state)
  {
    var b' := Step(b, e).state;
    StepKeepsValid(b, e);
    StepChanges(b, e);
    forall s ensures Nested(ListOf(b'.services, s)) && (ListOf(b'.services, s) != [] ==> s in b'.available) {
      ChangedStaysNested(b, e, s, ListOf(b.services, s));
      if ListOf(b'.services, s) != [] && ListOf(b.services, s) == [] {
        NothingComesOfNothing(b, e, s);
      }
    }
  }

  lemma NextKeepsTidy(x: Session, e: Event, out: seq<Output>, x': Session)
    requires Tidy(x.b) && Next(x, e, out, x')
    ensures Tidy(x'.b) && x'.b.nmr == x.b.nmr
  {
    StepKeepsTidy(x.b, e);
    StepKeepsNmr(x.b, e);
  }

  lemma {:induction false} FreeRunsAreTidy(nmr: nat, xs: seq<Session>, es: seq<Event>, outs: seq<seq<Output>>, i: nat)
    requires 0 < nmr < UINT8_SIZE && IsFreeRun(nmr, xs, es, outs) && i < |xs|
    ensures Tidy(xs[i].b) && xs[i].b.nmr == nmr
  {
    if i > 0 {
      FreeRunsAreTidy(nmr, xs, es, outs, i - 1);
      assert FreeStep(xs, es, outs, i - 1);
      NextKeepsTidy(xs[i - 1], es[i - 1], outs[i - 1], xs[i]);
    } else {
      InitIsValid(nmr);
    }
  }

  // ---- Waiting requests are undecided

  /** The event is no counted reply that would leave a decided request waiting. */
  ghost predicate Safe(b: Broker, e: Event)
    requires b.nmr < UINT8_SIZE
  {
    e.Replying? && !e.duplicated && e.service in b.services ==>
      Guarded(b.services[e.service].requests, e.client, e.result, b.nmr)
  }

  lemma EraseEachUndecided(rs: seq<RequestRecord>, late: seq<RequestRecord>, nmr: nat)
    requires nmr < UINT8_SIZE && UndecidedList(rs, nmr)
    ensures UndecidedList(EraseEach(rs, late), nmr)
  {
    EachLeaves(rs, late);
    forall i | 0 <= i < |EraseEach(rs, late)| ensures Open(EraseEach(rs, late)[i].results, nmr) {
      assert EraseEach(rs, late)[i] in rs;
    }
  }

  /** Only replies can leave a decided request in a list. */
  lemma OthersKeepUndecided(b: Broker, e: Event, s: Service, rs: seq<RequestRecord>)
    requires Located(b.services, b.available) && 0 < b.nmr < UINT8_SIZE && UndecidedList(rs, b.nmr)
    requires e.Replying? ==> e.service != s || e.duplicated
    ensures UndecidedList(Changed(b, e, s, rs), b.nmr)
  {
    if e.Sweeping? && s < |b.available| {
      EraseEachUndecided(rs, Answered(b.services, b.available, s, e.now), b.nmr);
    }
  }

  lemma CountedIsShort(b: Broker, e: Event)
    requires Valid(b) && e.Replying? && !e.duplicated && Step(b, e).Ok?
    ensures e.service in b.services
    ensures var rs := b.services[e.service].requests;
            HasClient(rs, e.client) ==>
              LastResults(rs, e.client).Some? && |LastResults(rs, e.client).value| + 1 < UINT8_SIZE
  {
    if HasClient(b.services[e.service].requests, e.client) {
      LastAfterAdd(b.services[e.service].requests, e.client, e.result);
    }
  }

  lemma ListsUndecided(b: Broker)
    requires b.nmr < UINT8_SIZE
    ensures Undecided(b.services, b.nmr) <==> forall s :: UndecidedList(ListOf(b.services, s), b.nmr)
  {
    if forall s :: UndecidedList(ListOf(b.services, s), b.nmr) {
      forall s | s in b.services ensures UndecidedList(b.services[s].requests, b.nmr) {
        assert UndecidedList(ListOf(b.services, s), b.nmr);
      }
    }
  }

  /** One step: all waiting requests stay undecided exactly if the step is safe. */
  lemma StepKeepsUndecidedIff(b: Broker, e: Event)
    requires Tidy(b) && Undecided(b.services, b.nmr) && Step(b, e).Ok?
    ensures Undecided(Step(b, e).state.services, b.nmr) <==> Safe(b, e)
  {
    var b' := Step(b, e).state;
    StepChanges(b, e);
    ListsUndecided(b);
    ListsUndecided(b');
    if e.Replying? && !e.duplicated {
      var s, rs := e.service, ListOf(b.services, e.service);
      CountedIsShort(b, e);
      assert Nested(rs);
      CountKeepsUndecidedIff(rs, e.client, e.result, b.nmr);
      assert ListOf(b'.services, s) == Changed(b, e, s, rs) == AfterCount(rs, e.client, e.result, b.nmr);
    }
    forall s | !(e.Replying? && !e.duplicated && s == e.service)
      ensures UndecidedList(ListOf(b'.services, s), b.nmr)
    {
      OthersKeepUndecided(b, e, s, ListOf(b.services, s));
    }
  }

  ghost predicate AllUndecided(xs: seq<Session>, nmr: nat, i: nat)
    requires i < |xs| && nmr < UINT8_SIZE
  {
    forall j :: 0 <= j <= i ==> Undecided(xs[j].b.services, nmr)
  }

  /** The first `i` steps are safe. */
  ghost predicate AllSafe(xs: seq<Session>, es: seq<Event>, i: nat)
    requires i <= |es| < |xs|
  {
    forall j :: 0 <= j < i ==> xs[j].b.nmr < UINT8_SIZE && Safe(xs[j].b, es[j])
  }

  lemma OneStepMoreSafe(xs: seq<Session>, es: seq<Event>, nmr: nat, i: nat)
    requires i < |es| < |xs| && nmr < UINT8_SIZE
    ensures AllUndecided(xs, nmr, i + 1) <==> AllUndecided(xs, nmr, i) && Undecided(xs[i + 1].b.services, nmr)
    ensures AllSafe(xs, es, i + 1) <==> AllSafe(xs, es, i) && xs[i].b.nmr < UINT8_SIZE && Safe(xs[i].b, es[i])
  {
  }

  /**
   * In every run: no waiting request is ever decided if and only if each counted reply finds its client's
   * list guarded. What it means for a list to be guarded can be read off it before the reply is counted.
   */
  lemma {:induction false} UndecidedIff(nmr: nat, xs: seq<Session>, es: seq<Event>, outs: seq<seq<Output>>, i: nat)
    requires 0 < nmr < UINT8_SIZE && IsFreeRun(nmr, xs, es, outs) && i < |xs|
    ensures AllUndecided(xs, nmr, i) <==> AllSafe(xs, es, i)
  {
    if i > 0 {
      UndecidedIff(nmr, xs, es, outs, i - 1);
      FreeRunsAreTidy(nmr, xs, es, outs, i - 1);
      OneStepMoreSafe(xs, es, nmr, i - 1);
      assert FreeStep(xs, es, outs, i - 1);
      if AllUndecided(xs, nmr, i - 1) {
        assert Undecided(xs[i - 1].b.services, nmr);
        StepKeepsUndecidedIff(xs[i - 1].b, es[i - 1]);
      }
    }
  }

  // ---- At most one request of a client at a service

  ghost predicate AllDistinct(services: Services) {
    forall s :: Distinct(ListOf(services, s))
  }

  /** The broker holds no request of the client at the service that accepts another one of it. */
  ghost predicate FirstAtService(b: Broker, e: Event) {
    e.Requesting? && e.service in b.services ==> !HasClient(b.services[e.service].requests, e.client)
  }

  lemma ChangedDistinctIff(b: Broker, e: Event, s: Service, rs: seq<RequestRecord>)
    requires Located(b.services, b.available) && Distinct(rs)
    ensures Distinct(Changed(b, e, s, rs)) <==>
            !(e.Requesting? && e.service == s && s in b.services && HasClient(rs, e.client))
  {
    match e
    case Requesting(c, _, _, clock, _) => DistinctAppendIff(rs, RequestRecord(c, [], AddMs(clock, REQUEST_TIMEOUT)));
    case Replying(_, c, v, _) =>
      AddedClients(rs, c, v);
      DistinctErase(AddResult(rs, c, v), c);
    case Sweeping(now) =>
      if s < |b.available| {
        DistinctEraseEach(rs, Answered(b.services, b.available, s, now));
      }
    case _ =>
  }

  lemma StepKeepsDistinctIff(b: Broker, e: Event)
    requires Valid(b) && AllDistinct(b.services) && Step(b, e).Ok?
    ensures AllDistinct(Step(b, e).state.services) <==> FirstAtService(b, e)
  {
    var b' := Step(b, e).state;
    StepChanges(b, e);
    forall s
      ensures Distinct(ListOf(b'.services, s)) <==>
              !(e.Requesting? && e.service == s && s in b.services && HasClient(ListOf(b.services, s), e.client))
    {
      ChangedDistinctIff(b, e, s, ListOf(b.services, s));
    }
  }

  ghost predicate DistinctThroughout(xs: seq<Session>, i: nat)
    requires i < |xs|
  {
    forall j :: 0 <= j <= i ==> AllDistinct(xs[j].b.services)
  }

  ghost predicate AllFirst(xs: seq<Session>, es: seq<Event>, i: nat)
    requires i <= |es| < |xs|
  {
    forall j :: 0 <= j < i ==> FirstAtService(xs[j].b, es[j])
  }

  lemma OneStepMoreDistinct(xs: seq<Session>, es: seq<Event>, i: nat)
    requires i < |es| < |xs|
    ensures DistinctThroughout(xs, i + 1) <==> DistinctThroughout(xs, i) && AllDistinct(xs[i + 1].b.services)
    ensures AllFirst(xs, es, i + 1) <==> AllFirst(xs, es, i) && FirstAtService(xs[i].b, es[i])
  {
  }

  /** In every run: no list holds two requests of a client exactly if none is accepted where one waits. */
  lemma {:induction false} DistinctIff(nmr: nat, xs: seq<Session>, es: seq<Event>, outs: seq<seq<Output>>, i: nat)
    requires 0 < nmr < UINT8_SIZE && IsFreeRun(nmr, xs, es, outs) && i < |xs|
    ensures DistinctThroughout(xs, i) <==> AllFirst(xs, es, i)
  {
    if i > 0 {
      DistinctIff(nmr, xs, es, outs, i - 1);
      OneStepMoreDistinct(xs, es, i - 1);
      assert FreeStep(xs, es, outs, i - 1);
      if DistinctThroughout(xs, i - 1) {
        assert AllDistinct(xs[i - 1].b.services);
        StepKeepsDistinctIff(xs[i - 1].b, es[i - 1]);
      }
    }
  }

  lemma DistinctIsSafe(b: Broker, e: Event)
    requires 0 < b.nmr < UINT8_SIZE && AllDistinct(b.services) && Undecided(b.services, b.nmr)
    ensures Safe(b, e)
  {
    if e.Replying? && e.service in b.services {
      assert Distinct(ListOf(b.services, e.service));
      DistinctIsGuarded(b.services[e.service].requests, e.client, e.result, b.nmr);
    }
  }

  /** Clients that wait at most once at each service never have a decided request waiting. */
  lemma {:induction false} FirstIsSafe(nmr: nat, xs: seq<Session>, es: seq<Event>, outs: seq<seq<Output>>, i: nat)
    requires 0 < nmr < UINT8_SIZE && IsFreeRun(nmr, xs, es, outs) && i < |xs| && AllFirst(xs, es, i)
    ensures AllSafe(xs, es, i) && AllUndecided(xs, nmr, i)
  {
    if i > 0 {
      FirstIsSafe(nmr, xs, es, outs, i - 1);
      DistinctIff(nmr, xs, es, outs, i - 1);
      FreeRunsAreTidy(nmr, xs, es, outs, i - 1);
      assert AllDistinct(xs[i - 1].b.services) && Undecided(xs[i - 1].b.services, nmr);
      DistinctIsSafe(xs[i - 1].b, es[i - 1]);
      OneStepMoreSafe(xs, es, nmr, i - 1);
    }
    UndecidedIff(nmr, xs, es, outs, i);
  }

  // ---- No client waits twice

  ghost predicate AllSound(xs: seq<Session>, i: nat)
    requires i < |xs|
  {
    forall j :: 0 <= j <= i ==> Sound(xs[j].b)
  }

  lemma StepKeepsSoundIff(b: Broker, e: Event)
    requires Sound(b) && Step(b, e).Ok?
    ensures Sound(Step(b, e).state) <==> Permitted(b, e)
  {
    if Permitted(b, e) {
      StepKeepsSound(b, e);
    } else {
      UniqueAfterRequestIff(b, e);
    }
  }

  /**
   * In every run: all states are sound, with no client waiting twice and every waiting request undecided, if
   * and only if no request is accepted from a client that waits.
   */
  lemma {:induction false} SoundIff(nmr: nat, xs: seq<Session>, es: seq<Event>, outs: seq<seq<Output>>, i: nat)
    requires 0 < nmr < UINT8_SIZE && IsFreeRun(nmr, xs, es, outs) && i < |xs|
    ensures AllSound(xs, i) <==> AllPermitted(xs, es, i)
  {
    if i > 0 {
      SoundIff(nmr, xs, es, outs, i - 1);
      assert FreeStep(xs, es, outs, i - 1);
      OneStepMore(xs, es, i - 1);
      assert AllSound(xs, i) <==> AllSound(xs, i - 1) && Sound(xs[i].b);
      if AllSound(xs, i - 1) {
        assert Sound(xs[i - 1].b);
        StepKeepsSoundIff(xs[i - 1].b, es[i - 1]);
      }
    } else {
      InitIsValid(nmr);
    }
  }

  // ---- Every accepted request is answered

  lemma {:induction false} AnswersInIff(out: seq<Output>, c: Client)
    ensures AnswersIn(out)[c] > 0 <==> exists v :: Answer(c, v) in out
  {
    if out != [] {
      AnswersInIff(out[1..], c);
      assert out == [out[0]] + out[1..];
    }
  }

  /** Deleting other clients' requests keeps this one. */
  lemma RecordOutlivesOthers(rs: seq<RequestRecord>, late: seq<RequestRecord>, c: Client, due: Timespec)
    requires HasRecord(rs, c, due) && !HasClient(late, c)
    ensures HasRecord(EraseEach(rs, late), c, due)
  {
    EachLeaves(rs, late);
    var k :| 0 <= k < |rs| && rs[k].client == c && rs[k].timeout == due;
    assert rs[k] in EraseEach(rs, late);
    var i :| 0 <= i < |EraseEach(rs, late)| && EraseEach(rs, late)[i] == rs[k];
  }

  lemma RecordOutlivesAnswer(rs: seq<RequestRecord>, d: Client, v: int, c: Client, due: Timespec)
    requires HasRecord(rs, c, due)
    ensures HasRecord(AddResult(rs, d, v), c, due)
    ensures c != d ==> HasRecord(Erase(AddResult(rs, d, v), d), c, due)
  {
    var added := AddResult(rs, d, v);
    var k :| 0 <= k < |rs| && rs[k].client == c && rs[k].timeout == due;
    assert added[k].client == c && added[k].timeout == due;
    if c != d {
      EraseLeaves(added, d);
      assert added[k] in Erase(added, d);
      var i :| 0 <= i < |Erase(added, d)| && Erase(added, d)[i] == added[k];
    }
  }

  lemma TurnAnswersClient(b: Broker, now: Timespec, j: nat, c: Client)
    requires Valid(b) && CheckPendingRequests(b, now).Ok? && j < |b.available|
    requires HasClient(Answered(b.services, b.available, j, now), c)
    ensures AnswersIn(CheckPendingRequests(b, now).out)[c] > 0
  {
    AnyPass(b, now);
    var late := Answered(b.services, b.available, j, now);
    assert TurnReturns(b.services, b.available, j, now);
    var i :| 0 <= i < |late| && late[i].client == c;
    var verdict := TimeoutVerdict(late[i], b.nmr);
    assert Closes(late, b.nmr, c, verdict);
    SentIff(b.services, b.nmr, b.available, 0, now, c, verdict);
    AnswersInIff(CheckPendingRequests(b, now).out, c);
  }

  /** The event answers the client, either on a reply to it from the service or in a deadline pass. */
  ghost predicate Answers(e: Event, out: seq<Output>, s: Service, c: Client) {
    && AnswersIn(out)[c] > 0
    && (e.Sweeping? || (e.Replying? && !e.duplicated && e.service == s && e.client == c))
  }

  /** A waiting request stays unless its client is answered in the step. */
  lemma StaysOrAnswered(b: Broker, e: Event, s: Service, c: Client, due: Timespec)
    requires Valid(b) && HasRecord(ListOf(b.services, s), c, due) && Step(b, e).Ok?
    ensures Answers(e, Step(b, e).out, s, c) || HasRecord(ListOf(Step(b, e).state.services, s), c, due)
  {
    var rs := ListOf(b.services, s);
    StepChanges(b, e);
    match e
    case Requesting(_, _, _, _, _) =>
      var rs' := Changed(b, e, s, rs);
      var k :| 0 <= k < |rs| && rs[k].client == c && rs[k].timeout == due;
      assert rs'[k] == rs[k];
    case Replying(t, d, v, duplicated) =>
      RecordOutlivesAnswer(rs, d, v, c, due);
      if t == s && !duplicated && c == d {
        OwnReply(b, e, due);
      }
    case Sweeping(now) =>
      if s < |b.available| {
        if HasClient(Answered(b.services, b.available, s, now), c) {
          TurnAnswersClient(b, now, s, c);
        } else {
          RecordOutlivesOthers(rs, Answered(b.services, b.available, s, now), c, due);
        }
      }
    case _ =>
  }

  lemma OwnReply(b: Broker, e: Event, due: Timespec)
    requires Valid(b) && e.Replying? && !e.duplicated && Step(b, e).Ok?
    requires HasRecord(ListOf(b.services, e.service), e.client, due)
    ensures AnswersIn(Step(b, e).out)[e.client] > 0
            || HasRecord(ListOf(Step(b, e).state.services, e.service), e.client, due)
  {
    ReplyCounts(b, e.service, e.client, e.result);
    var out := Step(b, e).out;
    if out == [] {
      RecordOutlivesAnswer(b.services[e.service].requests, e.client, e.result, e.client, due);
    } else {
      assert out[0] in out && out[0].Answer?;
    }
  }

  /** A pass after the deadline of a waiting request answers its client. */
  lemma LatePassAnswers(b: Broker, now: Timespec, s: Service, c: Client, due: Timespec)
    requires Tidy(b) && HasRecord(ListOf(b.services, s), c, due) && Expired(now, due)
    requires CheckPendingRequests(b, now).Ok?
    ensures AnswersIn(CheckPendingRequests(b, now).out)[c] > 0
  {
    var rs := ListOf(b.services, s);
    var i :| 0 <= i < |rs| && rs[i].client == c && rs[i].timeout == due;
    assert s in b.available;
    var k :| 0 <= k < |b.available| && b.available[k] == s;
    ExpiredIsAnswered(b.services, b.available, k, now, rs[i]);
    var j :| 0 <= j < |b.available| && HasClient(Answered(b.services, b.available, j, now), c);
    TurnAnswersClient(b, now, j, c);
  }

  ghost predicate AnsweredBetween(es: seq<Event>, outs: seq<seq<Output>>, s: Service, c: Client, lo: nat, hi: nat)
    requires hi <= |es| == |outs|
  {
    exists k :: lo <= k < hi && Answers(es[k], outs[k], s, c)
  }

  /** Step `i` is an accepted request, due at `due`. */
  ghost predicate Accepted(xs: seq<Session>, es: seq<Event>, i: nat, c: Client, s: Service, due: Timespec)
    requires i < |es| < |xs|
  {
    && es[i].Requesting? && es[i].client == c && es[i].service == s && s in xs[i].b.services
    && due == AddMs(es[i].clock, REQUEST_TIMEOUT)
  }

  lemma AcceptedIsHeld(b: Broker, e: Event, due: Timespec)
    requires Valid(b) && e.Requesting? && e.service in b.services && Step(b, e).Ok?
    requires due == AddMs(e.clock, REQUEST_TIMEOUT)
    ensures HasRecord(ListOf(Step(b, e).state.services, e.service), e.client, due)
  {
    StepChanges(b, e);
    var rs, r := ListOf(b.services, e.service), RequestRecord(e.client, [], due);
    assert ListOf(Step(b, e).state.services, e.service) == Changed(b, e, e.service, rs) == rs + [r];
    assert (rs + [r])[|rs|] == r;
  }

  ghost predicate Held(x: Session, s: Service, c: Client, due: Timespec) {
    HasRecord(ListOf(x.b.services, s), c, due)
  }

  lemma HeldStep(x: Session, e: Event, out: seq<Output>, x': Session, s: Service, c: Client, due: Timespec)
    requires Next(x, e, out, x')
    requires Held(x, s, c, due) ||
             (e.Requesting? && e.client == c && e.service == s && s in x.b.services
              && due == AddMs(e.clock, REQUEST_TIMEOUT))
    ensures Answers(e, out, s, c) || Held(x', s, c, due)
  {
    if Held(x, s, c, due) {
      StaysOrAnswered(x.b, e, s, c, due);
    } else {
      AcceptedIsHeld(x.b, e, due);
    }
  }

  lemma OneStepMoreAnswered(es: seq<Event>, outs: seq<seq<Output>>, s: Service, c: Client, lo: nat, hi: nat)
    requires lo <= hi < |es| == |outs|
    ensures AnsweredBetween(es, outs, s, c, lo, hi + 1) <==>
            AnsweredBetween(es, outs, s, c, lo, hi) || Answers(es[hi], outs[hi], s, c)
  {
  }

  lemma {:induction false} HeldOrAnswered(nmr: nat, xs: seq<Session>, es: seq<Event>, outs: seq<seq<Output>>,
                                          i: nat, j: nat, c: Client, s: Service, due: Timespec)
    requires 0 < nmr < UINT8_SIZE && IsFreeRun(nmr, xs, es, outs) && i < j <= |es|
    requires Accepted(xs, es, i, c, s, due)
    ensures AnsweredBetween(es, outs, s, c, i + 1, j) || Held(xs[j], s, c, due)
    decreases j
  {
    assert FreeStep(xs, es, outs, j - 1);
    if j == i + 1 {
      HeldStep(xs[i], es[i], outs[i], xs[j], s, c, due);
    } else {
      HeldOrAnswered(nmr, xs, es, outs, i, j - 1, c, s, due);
      OneStepMoreAnswered(es, outs, s, c, i + 1, j - 1);
      if Held(xs[j - 1], s, c, due) {
        HeldStep(xs[j - 1], es[j - 1], outs[j - 1], xs[j], s, c, due);
      }
    }
  }

  /**
   * In every run, whatever clients and copies do: the client of an accepted request is answered afterwards,
   * at the latest by the first deadline pass that comes after the deadline.
   */
  lemma EveryRequestIsAnswered(nmr: nat, xs: seq<Session>, es: seq<Event>, outs: seq<seq<Output>>, i: nat, j: nat,
                               c: Client, s: Service, due: Timespec)
    requires 0 < nmr < UINT8_SIZE && IsFreeRun(nmr, xs, es, outs) && i < j < |es|
    requires Accepted(xs, es, i, c, s, due) && es[j].Sweeping? && Expired(es[j].now, due)
    ensures AnsweredBetween(es, outs, s, c, i + 1, j + 1)
  {
    HeldOrAnswered(nmr, xs, es, outs, i, j, c, s, due);
    OneStepMoreAnswered(es, outs, s, c, i + 1, j);
    if !AnsweredBetween(es, outs, s, c, i + 1, j) {
      FreeRunsAreTidy(nmr, xs, es, outs, j);
      assert FreeStep(xs, es, outs, j);
      LatePassAnswers(xs[j].b, es[j].now, s, c, due);
    }
  }
}
