/** One round of the broker's loop: what its order of handling gives a client, a copy and a timer. */
module Rounds {
  import opened Common
  import opened TimeArithmetic
  import opened Voting
  import opened Requests
  import opened Database
  import opened BrokerMachine
  import opened Deadlines
  import opened BrokerRuns
  import opened Snapshots
  import opened Repeats
  import opened FreeRuns
  import opened Registry
  import opened Timers
  import B = Broker

  // ---- The stages of a round

  /** An event that may not have come. */
  ghost predicate Handles(b: Broker, e: Option<Event>, b': Broker, out: seq<Output>)
    requires Valid(b)
  {
    match e
    case Some(e) => Step(b, e) == Ok(b', out)
    case None => b' == b && out == []
  }

  lemma ArrivedIsHandled(b: Broker, e: Option<Event>, b': Broker, out: seq<Output>)
    requires Valid(b)
    ensures B.RunAll(b, B.Arrived(e)) == Ok(b', out) <==> Handles(b, e, b', out)
    ensures Handles(b, e, b', out) ==> Valid(b')
  {
    if e.Some? {
      B.RunAllOne(b, e.value);
      StepKeepsValid(b, e.value);
    }
  }

  lemma RunSplit(b: Broker, xs: seq<Event>, ys: seq<Event>) returns (b1: Broker, o1: seq<Output>, o2: seq<Output>)
    requires Valid(b) && B.RunAll(b, xs + ys).Ok?
    ensures B.RunAll(b, xs) == Ok(b1, o1) && Valid(b1)
    ensures B.RunAll(b1, ys) == Ok(B.RunAll(b, xs + ys).state, o2)
    ensures B.RunAll(b, xs + ys).out == o1 + o2
  {
    B.RunAllConcat(b, xs, ys);
    b1, o1 := B.RunAll(b, xs).state, B.RunAll(b, xs).out;
    o2 := B.RunAll(b1, ys).out;
  }

  lemma MessageStages(b: Broker, p: B.Poll)
      returns (b1: Broker, b2: Broker, o1: seq<Output>, o2: seq<Output>, o3: seq<Output>)
    requires Valid(b) && B.RunAll(b, B.Messages(p)).Ok?
    ensures Valid(b1) && Valid(b2) && Handles(b, p.registration, b1, o1) && Handles(b1, p.request, b2, o2)
    ensures B.RunAll(b2, B.ArrivedAll(p.replies)) == Ok(B.RunAll(b, B.Messages(p)).state, o3)
    ensures B.RunAll(b, B.Messages(p)).out == o1 + o2 + o3
  {
    var front := B.Arrived(p.registration) + B.Arrived(p.request);
    var o12;
    b2, o12, o3 := RunSplit(b, front, B.ArrivedAll(p.replies));
    b1, o1, o2 := RunSplit(b, B.Arrived(p.registration), B.Arrived(p.request));
    ArrivedIsHandled(b, p.registration, b1, o1);
    ArrivedIsHandled(b1, p.request, b2, o2);
  }

  lemma ClockStages(b: Broker, p: B.Poll) returns (b4: Broker, o4: seq<Output>, o5: seq<Output>)
    requires Valid(b) && B.RunAll(b, B.Beats(p, |b.timeouts|) + [Sweeping(p.sweep)]).Ok?
    ensures B.RunAll(b, B.Beats(p, |b.timeouts|)) == Ok(b4, o4) && Valid(b4)
    ensures Step(b4, Sweeping(p.sweep))
         == Ok(B.RunAll(b, B.Beats(p, |b.timeouts|) + [Sweeping(p.sweep)]).state, o5)
    ensures B.RunAll(b, B.Beats(p, |b.timeouts|) + [Sweeping(p.sweep)]).out == o4 + o5
  {
    b4, o4, o5 := RunSplit(b, B.Beats(p, |b.timeouts|), [Sweeping(p.sweep)]);
    B.RunAllOne(b4, Sweeping(p.sweep));
  }

  lemma RoundHalves(b: Broker, p: B.Poll) returns (b3: Broker, front: seq<Output>, b5: Broker, back: seq<Output>)
    requires Valid(b) && B.Round(b, p).Ok?
    ensures B.RunAll(b, B.Messages(p)) == Ok(b3, front) && Valid(b3)
    ensures B.RunAll(b3, B.Beats(p, |b3.timeouts|) + [Sweeping(p.sweep)]) == Ok(b5, back)
    ensures B.Round(b, p) == Ok(b5, front + back)
  {
    B.RunAllConcat(b, B.Messages(p), []);
    b3, front := B.RunAll(b, B.Messages(p)).state, B.RunAll(b, B.Messages(p)).out;
    var clocks := B.RunAll(b3, B.Beats(p, |b3.timeouts|) + [Sweeping(p.sweep)]);
    b5, back := clocks.state, clocks.out;
  }

  // ---- The stage of the timers

  /** Timer `k` has expired: its service has been checked and the timer set again. Otherwise both are as before. */
  ghost predicate BeatenAt(p: B.Poll, b: Broker, b': Broker, k: nat)
    requires Valid(b) && k < |b.available| && b'.available == b.available && |b'.timeouts| == |b.timeouts|
    requires b.available[k] in b'.services
  {
    var s := b.available[k];
    && b'.services[s] == (if Expired(p.now, b.timeouts[k]) then CheckRecord(b.services[s]) else b.services[s])
    && b'.timeouts[k] == if Expired(p.now, b.timeouts[k]) then AddMs(p.rearm(k), HEARTBEAT_INTERVAL) else b.timeouts[k]
  }

  /** The first `n` timers have been handled, and nothing else has changed. */
  ghost predicate BeatenUpTo(p: B.Poll, b: Broker, b': Broker, n: nat)
    requires Valid(b)
  {
    && b' == b.(services := b'.services, timeouts := b'.timeouts)
    && b'.services.Keys == b.services.Keys && |b'.timeouts| == |b.timeouts|
    && (forall k :: 0 <= k < |b.available| && k < n ==> BeatenAt(p, b, b', k))
    && (forall k :: n <= k < |b.timeouts| ==> b'.timeouts[k] == b.timeouts[k])
    && (forall s :: s in b.services && s !in b.available[..if n <= |b.available| then n else |b.available|] ==>
          b'.services[s] == b.services[s])
  }

  /** The broker after the timer at position `n`. */
  function Beat(p: B.Poll, b: Broker, n: nat): Broker
    requires Valid(b) && n < |b.available|
  {
    var s := b.available[n];
    if Expired(p.now, b.timeouts[n])
    then b.(services := b.services[s := CheckRecord(b.services[s])],
            timeouts := b.timeouts[n := AddMs(p.rearm(n), HEARTBEAT_INTERVAL)])
    else b
  }

  lemma BeatOnce(p: B.Poll, b: Broker, n: nat)
    requires Valid(b) && n < |b.available|
    ensures var o := Step(b, Beating(n, p.now, p.rearm(n)));
            o.Ok? && o.state == Beat(p, b, n) && forall a :: a in o.out ==> a.Ping? && a.dealer == n % UINT8_SIZE
  {
    PositionIsUnique(b.available, n);
  }

  lemma EarlierBeat(p: B.Poll, b: Broker, b': Broker, b'': Broker, n: nat, k: nat)
    requires Valid(b) && k < n < |b.available| && BeatenUpTo(p, b, b', n)
    requires b''.available == b.available && |b''.timeouts| == |b.timeouts| && b''.services.Keys == b.services.Keys
    requires forall s :: s in b.services && s != b.available[n] ==> b''.services[s] == b'.services[s]
    requires b''.timeouts[k] == b'.timeouts[k]
    ensures BeatenAt(p, b, b'', k)
  {
    assert BeatenAt(p, b, b', k) && b.available[k] != b.available[n];
  }

  lemma BeatenOnceMore(p: B.Poll, b: Broker, b': Broker, n: nat)
    requires Valid(b) && Valid(b') && n < |b.available| && BeatenUpTo(p, b, b', n)
    ensures BeatenUpTo(p, b, Beat(p, b', n), n + 1)
  {
    var s, b'' := b.available[n], Beat(p, b', n);
    assert s !in b.available[..n];
    assert b'.services[s] == b.services[s] && b'.timeouts[n] == b.timeouts[n];
    forall k | 0 <= k < n ensures BeatenAt(p, b, b'', k) {
      EarlierBeat(p, b, b', b'', n, k);
    }
    assert b.available[..n + 1] == b.available[..n] + [s];
  }

  /** What each part of an output may contain. */
  ghost predicate PingsOf(out: seq<Output>, k: nat) {
    forall a :: a in out ==> a.Ping? && a.dealer == k % UINT8_SIZE
  }

  function Flat(parts: seq<seq<Output>>): seq<Output> {
    if parts == [] then [] else Flat(parts[..|parts| - 1]) + parts[|parts| - 1]
  }

  lemma FlatStep(parts: seq<seq<Output>>, part: seq<Output>)
    ensures Flat(parts + [part]) == Flat(parts) + part
  {
    assert (parts + [part])[..|parts|] == parts;
  }

  /** The first `n` timers, and the pings that each of them sends. */
  ghost predicate Beaten(p: B.Poll, b: Broker, n: nat, parts: seq<seq<Output>>)
    requires Valid(b)
  {
    var o := B.RunAll(b, B.Beats(p, n));
    && o.Ok? && Valid(o.state) && BeatenUpTo(p, b, o.state, n)
    && o.out == Flat(parts) && |parts| == n && forall k :: 0 <= k < n ==> PingsOf(parts[k], k)
  }

  /** One more timer after the first `n`. */
  lemma BeatsRun(p: B.Poll, b: Broker, n: nat, b': Broker, out: seq<Output>) returns (pings: seq<Output>)
    requires Valid(b) && Valid(b') && B.RunAll(b, B.Beats(p, n)) == Ok(b', out) && n < |b'.available|
    ensures B.RunAll(b, B.Beats(p, n + 1)) == Ok(Beat(p, b', n), out + pings)
    ensures Valid(Beat(p, b', n)) && PingsOf(pings, n)
  {
    var e := Beating(n, p.now, p.rearm(n));
    B.BeatsStep(p, n, n + 1);
    B.NextOutcome(b, B.Beats(p, n), e);
    BeatOnce(p, b', n);
    StepKeepsValid(b', e);
    pings := Step(b', e).out;
  }

  lemma OneMoreBeat(p: B.Poll, b: Broker, n: nat, before: seq<seq<Output>>) returns (parts: seq<seq<Output>>)
    requires Valid(b) && n < |b.timeouts| && Beaten(p, b, n, before)
    ensures Beaten(p, b, n + 1, parts)
  {
    var o := B.RunAll(b, B.Beats(p, n));
    var pings := BeatsRun(p, b, n, o.state, o.out);
    BeatenOnceMore(p, b, o.state, n);
    parts := before + [pings];
    FlatStep(before, pings);
  }

  /** All timers in turn, each once. */
  lemma {:induction false} TimersAreBeaten(p: B.Poll, b: Broker, n: nat) returns (parts: seq<seq<Output>>)
    requires Valid(b) && n <= |b.timeouts|
    ensures Beaten(p, b, n, parts)
  {
    if n == 0 {
      assert B.Beats(p, 0) == [];
      parts := [];
    } else {
      parts := TimersAreBeaten(p, b, n - 1);
      parts := OneMoreBeat(p, b, n - 1, parts);
    }
  }

  // ---- A request comes after the registration that makes its service available

  /** The registration that makes a service available, the next in line. */
  lemma Completes(b: Broker, e: Event, s: Service)
    requires Valid(b) && s in b.services && s !in b.available && e.Registering? && e.service == s
    requires b.services[s].registered + 1 == b.nmr && b.services[s].dealerIndex == |b.available|
    ensures var b', r := Step(b, e).state, b.services[s];
            && Step(b, e) == Ok(b', [RegistrationReply(r.dealerSocket)]) && Valid(b')
            && b'.available == b.available + [s] && |b'.dealers| == |b.available| + 1 && s in b'.services
            && b'.services[s] == r.(registered := b.nmr, reliable := (r.reliable + 1) % UINT8_SIZE)
            && b'.dealers[|b.available|] == r.dealerSocket
  {
    StepKeepsValid(b, e);
  }

  lemma AcceptedGoesOut(b: Broker, f: Event, s: Service)
    requires Valid(b) && s in b.available && b.services[s].dealerIndex < |b.dealers|
    requires f.Requesting? && f.service == s
    ensures var r := b.services[s];
            var forward := Forward(r.dealerIndex, s, r.requestId, f.client, f.params);
            Step(b, f).Ok? && Step(b, f).out == seq(r.reliable, _ => forward)
  {
    RequestHandledIff(b, f);
  }

  /** A round sends first what the registration sends, and then what the request does. */
  lemma OutStarts(b: Broker, p: B.Poll, e: Event, f: Event)
    requires Valid(b) && p.registration == Some(e) && p.request == Some(f)
    requires Step(b, e).Ok? && Valid(Step(b, e).state) && Step(Step(b, e).state, f).Ok?
    ensures Step(b, e).out + Step(Step(b, e).state, f).out <= B.Round(b, p).out
  {
    var front, rest := [e] + [f], B.ArrivedAll(p.replies);
    B.RunAllOne(b, e);
    B.NextOutcome(b, [e], f);
    B.RunAllConcat(b, front, rest);
    B.RunAllConcat(b, B.Messages(p), []);
    assert B.Messages(p) == front + rest;
  }

  /**
   * The registration that completes a service and a request for it, found in the same round: the service is
   * told its port, and then the request goes out once for each of its copies, through the new dealer.
   */
  lemma RequestMeetsRegistration(b: Broker, p: B.Poll, s: Service)
    requires Valid(b) && s in b.services && s !in b.available
    requires b.services[s].registered + 1 == b.nmr && b.services[s].dealerIndex == |b.available|
    requires p.registration.Some? && p.registration.value.Registering? && p.registration.value.service == s
    requires p.request.Some? && p.request.value.Requesting? && p.request.value.service == s
    ensures var r, copies, out := b.services[s], (b.services[s].reliable + 1) % UINT8_SIZE, B.Round(b, p).out;
            && |out| > copies && out[0] == RegistrationReply(r.dealerSocket)
            && forall i :: 1 <= i <= copies ==>
                 out[i] == Forward(|b.available|, s, r.requestId, p.request.value.client, p.request.value.params)
  {
    var e, f := p.registration.value, p.request.value;
    var r, b1 := b.services[s], Step(b, e).state;
    Completes(b, e, s);
    assert b1.available[|b.available|] == s;
    AcceptedGoesOut(b1, f, s);
    OutStarts(b, p, e, f);
    var o := [RegistrationReply(r.dealerSocket)] + Step(b1, f).out;
    assert o <= B.Round(b, p).out;
    forall i | 1 <= i <= b1.services[s].reliable ensures B.Round(b, p).out[i] == Step(b1, f).out[i - 1] {
      assert o[i] == Step(b1, f).out[i - 1];
    }
  }

  // ---- Replies come before the deadlines

  /** The client has a request with these results at the service. */
  ghost predicate Holds(b: Broker, s: Service, c: Client, results: seq<int>) {
    exists r :: r in ListOf(b.services, s) && r.client == c && r.results == results
  }

  /** The event brings a result for the client at the service. */
  predicate Concerns(e: Event, s: Service, c: Client) {
    e.Replying? && !e.duplicated && e.service == s && e.client == c
  }

  lemma HoldsWaits(b: Broker, s: Service, c: Client, results: seq<int>)
    requires Holds(b, s, c, results)
    ensures s in b.services && HasClient(b.services[s].requests, c) && Waiting(b.services, c)
  {
    HasClientIn(b.services[s].requests, c);
  }

  lemma ChangedKeeps(b: Broker, e: Event, s: Service, rs: seq<RequestRecord>, r: RequestRecord)
    requires Located(b.services, b.available) && r in rs && !e.Sweeping? && !Concerns(e, s, r.client)
    ensures r in Changed(b, e, s, rs)
  {
    if e.Replying? && !e.duplicated && e.service == s {
      var added := AddResult(rs, e.client, e.result);
      var i :| 0 <= i < |rs| && rs[i] == r;
      assert added[i] == r;
      EraseLeaves(added, e.client);
    }
  }

  /** Nothing but a result for it or a deadline pass touches the request, and its client is told nothing. */
  lemma StepHolds(b: Broker, e: Event, s: Service, c: Client, results: seq<int>)
    requires Sound(b) && Step(b, e).Ok? && Holds(b, s, c, results)
    requires !e.Sweeping? && !Concerns(e, s, c) && Permitted(b, e) && (e.Requesting? ==> e.client != c)
    ensures Sound(Step(b, e).state) && Holds(Step(b, e).state, s, c, results) && AnswersIn(Step(b, e).out)[c] == 0
  {
    var b' := Step(b, e).state;
    var r :| r in ListOf(b.services, s) && r.client == c && r.results == results;
    StepKeepsSound(b, e);
    StepChanges(b, e);
    ChangedKeeps(b, e, s, ListOf(b.services, s), r);
    assert r in ListOf(b'.services, s);
    HoldsWaits(b, s, c, results);
    HoldsWaits(b', s, c, results);
  }

  lemma {:induction false} RunHolds(b: Broker, es: seq<Event>, s: Service, c: Client, results: seq<int>)
    requires Sound(b) && Holds(b, s, c, results) && B.RunAll(b, es).Ok?
    requires forall e :: e in es ==> !e.Sweeping? && !e.Requesting? && !Concerns(e, s, c)
    ensures var o := B.RunAll(b, es);
            Sound(o.state) && Holds(o.state, s, c, results) && AnswersIn(o.out)[c] == 0
    decreases |es|
  {
    if es != [] {
      StepHolds(b, es[0], s, c, results);
      RunHolds(Step(b, es[0]).state, es[1..], s, c, results);
      AnswersConcat(Step(b, es[0]).out, B.RunAll(Step(b, es[0]).state, es[1..]).out);
    }
  }

  /** A client that waits for nothing is told nothing until it asks. */
  lemma {:induction false} RunIdle(b: Broker, es: seq<Event>, c: Client)
    requires Sound(b) && !Waiting(b.services, c) && B.RunAll(b, es).Ok?
    requires forall e :: e in es ==> !e.Sweeping? && !e.Requesting?
    ensures var o := B.RunAll(b, es);
            Sound(o.state) && !Waiting(o.state.services, c) && AnswersIn(o.out)[c] == 0
    decreases |es|
  {
    if es != [] {
      StepKeepsSound(b, es[0]);
      RunIdle(Step(b, es[0]).state, es[1..], c);
      AnswersConcat(Step(b, es[0]).out, B.RunAll(Step(b, es[0]).state, es[1..]).out);
    }
  }

  lemma PassIdle(b: Broker, e: Event, c: Client)
    requires Sound(b) && e.Sweeping? && !Waiting(b.services, c) && Step(b, e).Ok?
    ensures AnswersIn(Step(b, e).out)[c] == 0
  {
    SweepingKeepsSound(b, e);
    IdleInSweep(b, e.now, c);
    SweepTally(b.services, b.nmr, b.available, 0, e.now, c);
  }

  lemma SettledWaitsNoLonger(b: Broker, e: Event, c: Client)
    requires Sound(b) && e.Replying? && Step(b, e).Ok? && AnswersIn(Step(b, e).out)[c] == 1
    ensures Sound(Step(b, e).state) && !Waiting(Step(b, e).state.services, c)
  {
    StepKeepsSound(b, e);
    assert AnswersIn(Step(b, e).out)[c] + Tally(Waiting(Step(b, e).state.services, c))
        == Tally(Waiting(b.services, c)) + Asks(e)[c];
  }

  lemma ResultAnswers(b: Broker, e: Event, s: Service, c: Client, results: seq<int>, verdict: Verdict)
    requires Valid(b) && UniqueClients(b.services) && Holds(b, s, c, results) && Concerns(e, s, c)
    requires |results| + 1 < UINT8_SIZE && Decide(results + [e.result], b.nmr) == Some(verdict)
    ensures Step(b, e).Ok? && Step(b, e).out == [Answer(c, verdict)]
  {
    HoldsWaits(b, s, c, results);
    var rs := b.services[s].requests;
    var r :| r in rs && r.client == c && r.results == results;
    var k :| 0 <= k < |rs| && rs[k] == r;
    ReplyEffect(b, s, k, e.result);
  }

  /** The result that decides the request: its client is told the verdict and waits no longer. */
  lemma ResultSettles(b: Broker, e: Event, s: Service, c: Client, results: seq<int>, verdict: Verdict)
    requires Sound(b) && Step(b, e).Ok? && Holds(b, s, c, results) && Concerns(e, s, c)
    requires |results| + 1 < UINT8_SIZE && Decide(results + [e.result], b.nmr) == Some(verdict)
    ensures Step(b, e).out == [Answer(c, verdict)] && Sound(Step(b, e).state)
    ensures !Waiting(Step(b, e).state.services, c) && AnswersIn(Step(b, e).out)[c] == 1
  {
    ResultAnswers(b, e, s, c, results, verdict);
    assert [Answer(c, verdict)][1..] == [];
    SettledWaitsNoLonger(b, e, c);
  }

  lemma {:induction false} ArrivedIn(replies: seq<Option<Event>>, e: Event)
    ensures e in B.ArrivedAll(replies) <==> Some(e) in replies
  {
    if replies != [] {
      ArrivedIn(replies[..|replies| - 1], e);
      assert replies == replies[..|replies| - 1] + [replies[|replies| - 1]];
    }
  }

  ghost predicate RepliesOnly(replies: seq<Option<Event>>) {
    forall i :: 0 <= i < |replies| && replies[i].Some? ==> replies[i].value.Replying? || replies[i].value.Ponging?
  }

  lemma OnlyReplies(replies: seq<Option<Event>>)
    requires RepliesOnly(replies)
    ensures forall e :: e in B.ArrivedAll(replies) ==> e.Replying? || e.Ponging?
  {
    forall e | e in B.ArrivedAll(replies) ensures e.Replying? || e.Ponging? {
      ArrivedIn(replies, e);
      var i :| 0 <= i < |replies| && replies[i] == Some(e);
    }
  }

  /** The replies of a round around the one of dealer `j`. */
  lemma AroundReply(b: Broker, replies: seq<Option<Event>>, j: nat, e: Event)
      returns (b1: Broker, o1: seq<Output>, o2: seq<Output>, o3: seq<Output>)
    requires Valid(b) && B.RunAll(b, B.ArrivedAll(replies)).Ok? && j < |replies| && replies[j] == Some(e)
    ensures B.RunAll(b, B.ArrivedAll(replies[..j])) == Ok(b1, o1) && Valid(b1)
    ensures Step(b1, e).Ok? && Step(b1, e).out == o2 && Valid(Step(b1, e).state)
    ensures B.RunAll(Step(b1, e).state, B.ArrivedAll(replies[j + 1..]))
         == Ok(B.RunAll(b, B.ArrivedAll(replies)).state, o3)
    ensures B.RunAll(b, B.ArrivedAll(replies)).out == o1 + o2 + o3
  {
    B.RepliesStep([], replies, j);
    var before, after := B.ArrivedAll(replies[..j]), B.ArrivedAll(replies[j + 1..]);
    assert [] + before == before && [] + B.ArrivedAll(replies) == B.ArrivedAll(replies);
    assert [] + B.ArrivedAll(replies[..j + 1]) == before + [e];
    var b2, o12;
    b2, o12, o3 := RunSplit(b, before + [e], after);
    b1, o1, o2 := RunSplit(b, before, [e]);
    B.RunAllOne(b1, e);
    StepKeepsValid(b1, e);
  }

  /** Earlier replies of the round that do not concern the request. */
  lemma BeforeReply(b: Broker, before: seq<Option<Event>>, s: Service, c: Client, results: seq<int>)
    requires Sound(b) && Holds(b, s, c, results) && RepliesOnly(before) && B.RunAll(b, B.ArrivedAll(before)).Ok?
    requires forall i :: 0 <= i < |before| && before[i].Some? ==> !Concerns(before[i].value, s, c)
    ensures var o := B.RunAll(b, B.ArrivedAll(before));
            Sound(o.state) && Holds(o.state, s, c, results) && AnswersIn(o.out)[c] == 0 && o.state.nmr == b.nmr
  {
    OnlyReplies(before);
    forall f | f in B.ArrivedAll(before) ensures !Concerns(f, s, c) {
      ArrivedIn(before, f);
      var i :| 0 <= i < |before| && before[i] == Some(f);
    }
    RunHolds(b, B.ArrivedAll(before), s, c, results);
    RunKeepsNmr(b, B.ArrivedAll(before));
  }

  /** Later replies find the client waiting no longer. */
  lemma AfterReply(b: Broker, after: seq<Option<Event>>, c: Client)
    requires Sound(b) && !Waiting(b.services, c) && RepliesOnly(after) && B.RunAll(b, B.ArrivedAll(after)).Ok?
    ensures var o := B.RunAll(b, B.ArrivedAll(after));
            Sound(o.state) && !Waiting(o.state.services, c) && AnswersIn(o.out)[c] == 0
  {
    OnlyReplies(after);
    RunIdle(b, B.ArrivedAll(after), c);
  }

  /** The replies of the round settle the request. */
  lemma RepliesSettle(b: Broker, replies: seq<Option<Event>>, j: nat, e: Event, s: Service, c: Client,
                      results: seq<int>, verdict: Verdict)
    requires Sound(b) && Holds(b, s, c, results) && RepliesOnly(replies) && B.RunAll(b, B.ArrivedAll(replies)).Ok?
    requires j < |replies| && replies[j] == Some(e) && Concerns(e, s, c)
    requires forall i :: 0 <= i < j && replies[i].Some? ==> !Concerns(replies[i].value, s, c)
    requires |results| + 1 < UINT8_SIZE && Decide(results + [e.result], b.nmr) == Some(verdict)
    ensures var o := B.RunAll(b, B.ArrivedAll(replies));
            Sound(o.state) && !Waiting(o.state.services, c) && AnswersIn(o.out)[c] == 1 && Answer(c, verdict) in o.out
  {
    var b1, o1, o2, o3 := AroundReply(b, replies, j, e);
    BeforeReply(b, replies[..j], s, c, results);
    ResultSettles(b1, e, s, c, results, verdict);
    AfterReply(Step(b1, e).state, replies[j + 1..], c);
    AnswersConcat(o1, o2);
    AnswersConcat(o1 + o2, o3);
    assert Answer(c, verdict) in o2;
  }

  lemma {:induction false} RunKeepsNmr(b: Broker, es: seq<Event>)
    requires Valid(b) && B.RunAll(b, es).Ok?
    ensures B.RunAll(b, es).state.nmr == b.nmr
    decreases |es|
  {
    if es != [] {
      StepKeepsNmr(b, es[0]);
      StepKeepsValid(b, es[0]);
      RunKeepsNmr(Step(b, es[0]).state, es[1..]);
    }
  }

  /** A registration leaves a waiting request alone. */
  lemma RegistrationHolds(b: Broker, e: Event, s: Service, c: Client, results: seq<int>)
    requires Sound(b) && e.Registering? && Step(b, e).Ok? && Holds(b, s, c, results)
    ensures var b' := Step(b, e).state;
            && Sound(b') && Holds(b', s, c, results) && b'.nmr == b.nmr && AnswersIn(Step(b, e).out)[c] == 0
            && forall d :: Waiting(b'.services, d) ==> Waiting(b.services, d)
  {
    StepHolds(b, e, s, c, results);
    StepKeepsNmr(b, e);
    StepKeepsSound(b, e);
    forall d | Waiting(Step(b, e).state.services, d) ensures Waiting(b.services, d) {
      assert AnswersIn(Step(b, e).out)[d] + Tally(Waiting(Step(b, e).state.services, d))
          == Tally(Waiting(b.services, d)) + Asks(e)[d];
    }
  }

  /** So does a request of another client. */
  lemma RequestHolds(b: Broker, e: Event, s: Service, c: Client, results: seq<int>)
    requires Sound(b) && e.Requesting? && Step(b, e).Ok? && Holds(b, s, c, results) && !Waiting(b.services, e.client)
    ensures var b' := Step(b, e).state;
            && Sound(b') && Holds(b', s, c, results) && b'.nmr == b.nmr && AnswersIn(Step(b, e).out)[c] == 0
  {
    HoldsWaits(b, s, c, results);
    StepHolds(b, e, s, c, results);
    StepKeepsNmr(b, e);
  }

  lemma FrontHolds(b: Broker, p: B.Poll, b1: Broker, b2: Broker, o1: seq<Output>, o2: seq<Output>,
                   s: Service, c: Client, results: seq<int>)
    requires Sound(b) && Holds(b, s, c, results)
    requires Valid(b1) && Handles(b, p.registration, b1, o1) && Handles(b1, p.request, b2, o2)
    requires p.registration.Some? ==> p.registration.value.Registering?
    requires p.request.Some? ==> p.request.value.Requesting? && !Waiting(b.services, p.request.value.client)
    ensures Sound(b2) && Holds(b2, s, c, results) && b2.nmr == b.nmr
    ensures AnswersIn(o1)[c] == 0 && AnswersIn(o2)[c] == 0
  {
    if p.registration.Some? {
      RegistrationHolds(b, p.registration.value, s, c, results);
    }
    if p.request.Some? {
      RequestHolds(b1, p.request.value, s, c, results);
    }
  }

  /** A result among the messages of a round that decides the request of the client. */
  ghost predicate Deciding(b: Broker, p: B.Poll, j: nat, e: Event, s: Service, c: Client, results: seq<int>,
                           verdict: Verdict)
  {
    && Holds(b, s, c, results)
    && (p.request.Some? ==> p.request.value.Requesting? && !Waiting(b.services, p.request.value.client))
    && j < |p.replies| && p.replies[j] == Some(e) && Concerns(e, s, c)
    && (forall i :: 0 <= i < j && p.replies[i].Some? ==> !Concerns(p.replies[i].value, s, c))
    && |results| + 1 < UINT8_SIZE && Decide(results + [e.result], b.nmr) == Some(verdict)
  }

  lemma MessagesSettle(b: Broker, p: B.Poll, j: nat, e: Event, s: Service, c: Client, results: seq<int>,
                       verdict: Verdict)
    requires Sound(b) && B.PollShape(p, |b.dealers|) && Deciding(b, p, j, e, s, c, results, verdict)
    requires B.RunAll(b, B.Messages(p)).Ok?
    ensures var o := B.RunAll(b, B.Messages(p));
            Sound(o.state) && !Waiting(o.state.services, c) && AnswersIn(o.out)[c] == 1 && Answer(c, verdict) in o.out
  {
    var b1, b2, o1, o2, o3 := MessageStages(b, p);
    FrontHolds(b, p, b1, b2, o1, o2, s, c, results);
    RepliesSettle(b2, p.replies, j, e, s, c, results, verdict);
    AnswersConcat(o1, o2);
    AnswersConcat(o1 + o2, o3);
    assert Answer(c, verdict) in o3;
  }

  /** Timers and deadlines tell nothing to a client that waits for nothing. */
  lemma ClocksTellNothing(p: B.Poll, b: Broker, c: Client)
    requires Sound(b) && !Waiting(b.services, c)
    requires B.RunAll(b, B.Beats(p, |b.timeouts|) + [Sweeping(p.sweep)]).Ok?
    ensures AnswersIn(B.RunAll(b, B.Beats(p, |b.timeouts|) + [Sweeping(p.sweep)]).out)[c] == 0
  {
    var b4, o4, o5 := ClockStages(b, p);
    RunIdle(b, B.Beats(p, |b.timeouts|), c);
    PassIdle(b4, Sweeping(p.sweep), c);
    AnswersConcat(o4, o5);
  }

  /**
   * A result found in a round counts before the deadlines of the round: a request that it decides is answered
   * with the verdict, once, and not with NOT_RELIABLE, even if the round finds its deadline passed.
   */
  lemma ReplyMeetsDeadline(b: Broker, p: B.Poll, j: nat, e: Event, s: Service, c: Client, results: seq<int>,
                           verdict: Verdict)
    requires Sound(b) && B.PollShape(p, |b.dealers|) && B.Round(b, p).Ok?
    requires Deciding(b, p, j, e, s, c, results, verdict)
    ensures AnswersIn(B.Round(b, p).out)[c] == 1 && Answer(c, verdict) in B.Round(b, p).out
  {
    var b3, front, b5, back := RoundHalves(b, p);
    MessagesSettle(b, p, j, e, s, c, results, verdict);
    ClocksTellNothing(p, b3, c);
    AnswersConcat(front, back);
  }

  // ---- Timers and pongs

  /** What replies and pongs leave: positions, timers and slots, and every pong taken so far. */
  ghost predicate PongsOnly(b: Broker, b': Broker) {
    && b' == b.(services := b'.services) && b'.services.Keys == b.services.Keys
    && forall s :: s in b.services ==> KeepsSlots(b.services[s], b'.services[s])
  }

  ghost predicate KeepsSlots(r: ServiceRecord, r': ServiceRecord) {
    && r'.pingId == r.pingId && r'.lostPong == r.lostPong && |r'.newPong| == |r.newPong|
    && forall j :: 0 <= j < |r.newPong| && r.newPong[j] ==> r'.newPong[j]
  }

  lemma ReplyKeepsSlots(b: Broker, e: Event)
    requires Valid(b) && (e.Replying? || e.Ponging?) && Step(b, e).Ok?
    ensures PongsOnly(b, Step(b, e).state)
    ensures e.Ponging? ==> e.service in b.services && e.copy < b.nmr
                           && Step(b, e).state.services[e.service].newPong[e.copy]
  {
  }

  lemma {:induction false} RepliesKeepSlots(b: Broker, es: seq<Event>)
    requires Valid(b) && B.RunAll(b, es).Ok? && forall e :: e in es ==> e.Replying? || e.Ponging?
    ensures PongsOnly(b, B.RunAll(b, es).state)
    decreases |es|
  {
    if es != [] {
      ReplyKeepsSlots(b, es[0]);
      StepKeepsValid(b, es[0]);
      RepliesKeepSlots(Step(b, es[0]).state, es[1..]);
    }
  }

  /** The timer of the service at position `k` when the round comes to it. */
  function TimerThen(b: Broker, p: B.Poll, k: nat, s: Service): Timespec
    requires k < |b.timeouts| || p.registration.Some?
    requires p.registration.Some? ==> p.registration.value.Registering?
    requires p.request.Some? ==> p.request.value.Requesting?
  {
    if p.request.Some? && p.request.value.service == s then AddMs(p.request.value.rearm, HEARTBEAT_INTERVAL)
    else if k < |b.timeouts| then b.timeouts[k]
    else AddMs(p.registration.value.clock, HEARTBEAT_INTERVAL)
  }

  lemma RegistrationFrame(b: Broker, e: Event)
    requires Valid(b) && e.Registering?
    ensures var b' := Step(b, e).state;
            && b.available <= b'.available && |b'.available| <= |b.available| + 1
            && (forall s :: s in b'.available ==> s in b.services)
            && (forall s :: s in b.services ==> s in b'.services && KeepsSlots(b.services[s], b'.services[s]))
            && (|b.available| < |b'.available| ==> b'.available[|b.available|] == e.service)
  {
  }

  lemma RequestFrame(b: Broker, e: Event)
    requires Valid(b) && e.Requesting? && Step(b, e).Ok?
    ensures PongsOnly(b, Step(b, e).state.(timeouts := b.timeouts))
  {
  }

  /** The messages of a round, up to its timers. */
  ghost predicate Messaged(b: Broker, p: B.Poll, b': Broker)
    requires p.registration.Some? ==> p.registration.value.Registering?
    requires p.request.Some? ==> p.request.value.Requesting?
  {
    && |b'.timeouts| == |b'.available| && b.available <= b'.available
    && (|b.timeouts| < |b'.timeouts| ==> p.registration.Some?)
    && (forall k :: 0 <= k < |b'.available| && (k < |b.timeouts| || p.registration.Some?) ==>
          b'.timeouts[k] == TimerThen(b, p, k, b'.available[k]))
    && (forall s :: s in b'.available ==> s in b.services)
    && forall s :: s in b.services ==> s in b'.services && KeepsSlots(b.services[s], b'.services[s])
  }

  lemma RegistrationMessaged(b: Broker, p: B.Poll, b1: Broker, o1: seq<Output>)
    requires Valid(b) && Handles(b, p.registration, b1, o1) && p.request.None?
    requires p.registration.Some? ==> p.registration.value.Registering?
    ensures Messaged(b, p, b1)
  {
    if p.registration.Some? {
      RegistrationFrame(b, p.registration.value);
      StepSets(b, p.registration.value);
    }
  }

  /** A request sets the timer of its service and no other. */
  lemma RequestTimers(b: Broker, p: B.Poll, b1: Broker, b2: Broker)
    requires Valid(b1) && p.request.Some? && p.request.value.Requesting? && TimersMove(b1, p.request.value, b2)
    requires p.registration.Some? ==> p.registration.value.Registering?
    requires Messaged(b, p.(request := None), b1) && b2.available == b1.available
    ensures forall k :: 0 <= k < |b2.available| && (k < |b.timeouts| || p.registration.Some?) ==>
              b2.timeouts[k] == TimerThen(b, p, k, b2.available[k])
  {
  }

  lemma RequestMessaged(b: Broker, p: B.Poll, b1: Broker, b2: Broker, o2: seq<Output>)
    requires Valid(b) && Valid(b1) && Handles(b1, p.request, b2, o2)
    requires p.registration.Some? ==> p.registration.value.Registering?
    requires p.request.Some? ==> p.request.value.Requesting?
    requires Messaged(b, p.(request := None), b1)
    ensures Messaged(b, p, b2)
  {
    if p.request.Some? {
      RequestFrame(b1, p.request.value);
      StepSets(b1, p.request.value);
      RequestTimers(b, p, b1, b2);
    }
  }

  lemma RepliesMessaged(b: Broker, p: B.Poll, b2: Broker, b3: Broker)
    requires p.registration.Some? ==> p.registration.value.Registering?
    requires p.request.Some? ==> p.request.value.Requesting?
    requires Messaged(b, p, b2) && PongsOnly(b2, b3)
    ensures Messaged(b, p, b3)
  {
    forall s | s in b.services ensures s in b3.services && KeepsSlots(b.services[s], b3.services[s]) {
      assert KeepsSlots(b.services[s], b2.services[s]) && KeepsSlots(b2.services[s], b3.services[s]);
    }
  }

  lemma MessagedTimers(b: Broker, p: B.Poll)
    requires Valid(b) && B.PollShape(p, |b.dealers|) && B.RunAll(b, B.Messages(p)).Ok?
    ensures Messaged(b, p, B.RunAll(b, B.Messages(p)).state)
  {
    var b1, b2, o1, o2, o3 := MessageStages(b, p);
    RegistrationMessaged(b, p.(request := None), b1, o1);
    RequestMessaged(b, p, b1, b2, o2);
    OnlyReplies(p.replies);
    RepliesKeepSlots(b2, B.ArrivedAll(p.replies));
    RepliesMessaged(b, p, b2, B.RunAll(b, B.Messages(p)).state);
  }

  /** A service and its timer after the timers and deadlines of the round. */
  ghost predicate ClockedAt(p: B.Poll, b: Broker, b': Broker, k: nat)
    requires Valid(b) && k < |b.available| && |b'.timeouts| == |b.timeouts| && b.available[k] in b'.services
  {
    var s, r := b.available[k], b.services[b.available[k]];
    && b'.services[s] == (if Expired(p.now, b.timeouts[k]) then CheckRecord(r) else r)
                         .(requests := b'.services[s].requests)
    && b'.timeouts[k] == if Expired(p.now, b.timeouts[k]) then AddMs(p.rearm(k), HEARTBEAT_INTERVAL) else b.timeouts[k]
  }

  ghost predicate Clocked(p: B.Poll, b: Broker, b': Broker)
    requires Valid(b)
  {
    && b'.available == b.available && |b'.timeouts| == |b.timeouts| && b'.services.Keys == b.services.Keys
    && (forall k :: 0 <= k < |b.available| ==> ClockedAt(p, b, b', k))
    && forall s :: s in b.services && s !in b.available ==>
         b'.services[s] == b.services[s].(requests := b'.services[s].requests)
  }

  lemma DeadlinesKeepClocks(p: B.Poll, b: Broker, b': Broker, n: nat)
    requires Valid(b) && Valid(b') && BeatenUpTo(p, b, b', n) && n == |b.available|
    requires Step(b', Sweeping(p.sweep)).Ok?
    ensures Clocked(p, b, Step(b', Sweeping(p.sweep)).state)
  {
    SweepFromKeeps(b'.services, b'.nmr, b'.available, 0, p.sweep);
    var b'' := Step(b', Sweeping(p.sweep)).state;
    assert b.available[..n] == b.available;
    forall k | 0 <= k < |b.available| ensures ClockedAt(p, b, b'', k) {
      assert BeatenAt(p, b, b', k);
    }
  }

  lemma ClocksBeat(p: B.Poll, b: Broker)
    requires Valid(b) && B.RunAll(b, B.Beats(p, |b.timeouts|) + [Sweeping(p.sweep)]).Ok?
    ensures Clocked(p, b, B.RunAll(b, B.Beats(p, |b.timeouts|) + [Sweeping(p.sweep)]).state)
  {
    var b4, o4, o5 := ClockStages(b, p);
    var parts := TimersAreBeaten(p, b, |b.timeouts|);
    DeadlinesKeepClocks(p, b, b4, |b.timeouts|);
  }

  /** The state of a round before its timers. */
  lemma BeforeTimers(b: Broker, p: B.Poll) returns (b3: Broker)
    requires Valid(b) && B.PollShape(p, |b.dealers|) && B.Round(b, p).Ok?
    ensures Valid(b3) && Messaged(b, p, b3) && Clocked(p, b3, B.Round(b, p).state)
    ensures B.RunAll(b, B.Messages(p)).Ok? && B.RunAll(b, B.Messages(p)).state == b3
  {
    var front, b5, back;
    b3, front, b5, back := RoundHalves(b, p);
    MessagedTimers(b, p);
    ClocksBeat(p, b3);
  }

  /** What the round makes of the timer at position `k`, now of service `s`. */
  ghost predicate TimerOnce(b: Broker, p: B.Poll, b': Broker, k: nat, s: Service)
    requires B.PollShape(p, |b.dealers|) && (k < |b.timeouts| || p.registration.Some?)
  {
    var timer := TimerThen(b, p, k, s);
    && k < |b'.timeouts| && s in b.services && s in b'.services
    && b'.services[s].pingId == (b.services[s].pingId + if Expired(p.now, timer) then 1 else 0) % UINT32_SIZE
    && b'.timeouts[k] == if Expired(p.now, timer) then AddMs(p.rearm(k), HEARTBEAT_INTERVAL) else timer
  }

  lemma OnceThrough(b: Broker, p: B.Poll, b3: Broker, b': Broker, k: nat)
    requires Valid(b) && Valid(b3) && B.PollShape(p, |b.dealers|) && Messaged(b, p, b3) && Clocked(p, b3, b')
    requires k < |b3.available|
    ensures k < |b.timeouts| || p.registration.Some?
    ensures TimerOnce(b, p, b', k, b3.available[k])
  {
    assert ClockedAt(p, b3, b', k);
    assert KeepsSlots(b.services[b3.available[k]], b3.services[b3.available[k]]);
  }

  /**
   * In a round every timer is looked at once, that of a service which the round makes available included: the
   * service is checked, and its timer set again, exactly if the timer has passed. A request that the round
   * finds for the service has set the timer before.
   */
  lemma EveryTimerOnce(b: Broker, p: B.Poll, k: nat)
    requires Valid(b) && B.PollShape(p, |b.dealers|) && B.Round(b, p).Ok? && k < |B.Round(b, p).state.available|
    ensures k < |b.timeouts| || p.registration.Some?
    ensures var b' := B.Round(b, p).state;
            b.available <= b'.available && TimerOnce(b, p, b', k, b'.available[k])
  {
    var b3 := BeforeTimers(b, p);
    OnceThrough(b, p, b3, B.Round(b, p).state, k);
  }

  // ---- Pongs come before the checks

  /** The copy has been heard of since the last check, or that check found its pong. */
  ghost predicate Heard(r: ServiceRecord, copy: nat) {
    copy < |r.newPong| == |r.lostPong| && (r.newPong[copy] || r.lostPong[copy] == 0)
  }

  lemma PongIsTaken(b: Broker, replies: seq<Option<Event>>, j: nat, e: Event)
    requires Valid(b) && B.RunAll(b, B.ArrivedAll(replies)).Ok? && RepliesOnly(replies)
    requires j < |replies| && replies[j] == Some(e) && e.Ponging?
    ensures e.service in b.services && e.copy < b.nmr
    ensures var b' := B.RunAll(b, B.ArrivedAll(replies)).state;
            e.service in b'.services && e.copy < |b'.services[e.service].newPong|
            && b'.services[e.service].newPong[e.copy]
  {
    var b1, o1, o2, o3 := AroundReply(b, replies, j, e);
    var before, after := replies[..j], replies[j + 1..];
    OnlyReplies(before);
    OnlyReplies(after);
    RepliesKeepSlots(b, B.ArrivedAll(before));
    RunKeepsNmr(b, B.ArrivedAll(before));
    ReplyKeepsSlots(b1, e);
    RepliesKeepSlots(Step(b1, e).state, B.ArrivedAll(after));
    assert KeepsSlots(Step(b1, e).state.services[e.service],
                      B.RunAll(b, B.ArrivedAll(replies)).state.services[e.service]);
  }

  lemma PongAmongMessages(b: Broker, p: B.Poll, j: nat, e: Event)
    requires Valid(b) && B.PollShape(p, |b.dealers|) && B.RunAll(b, B.Messages(p)).Ok?
    requires j < |p.replies| && p.replies[j] == Some(e) && e.Ponging?
    ensures var b' := B.RunAll(b, B.Messages(p)).state;
            e.service in b'.services && e.copy < |b'.services[e.service].newPong|
            && b'.services[e.service].newPong[e.copy]
  {
    var b1, b2, o1, o2, o3 := MessageStages(b, p);
    PongIsTaken(b2, p.replies, j, e);
  }

  lemma ClocksHear(p: B.Poll, b: Broker, b': Broker, s: Service, copy: nat)
    requires Valid(b) && Clocked(p, b, b') && s in b.services && copy < b.nmr && b.services[s].newPong[copy]
    ensures s in b'.services && Heard(b'.services[s], copy)
    ensures b'.services[s].lostPong[copy] == 0 || b'.services[s].lostPong[copy] == b.services[s].lostPong[copy]
  {
    if k :| 0 <= k < |b.available| && b.available[k] == s {
      assert ClockedAt(p, b, b', k);
    }
  }

  /**
   * A pong found in a round counts before the checks of the round: after it the copy is heard of, and its slot
   * is what it was or starts anew, so the round does not write the copy off.
   */
  lemma PongMeetsCheck(b: Broker, p: B.Poll, j: nat, e: Event)
    requires Valid(b) && B.PollShape(p, |b.dealers|) && B.Round(b, p).Ok?
    requires j < |p.replies| && p.replies[j] == Some(e) && e.Ponging?
    ensures var services, services', s := b.services, B.Round(b, p).state.services, e.service;
            && s in services' && Heard(services'[s], e.copy)
            && (s in services ==>
                  e.copy < |services[s].lostPong| && (services'[s].lostPong[e.copy] == 0
                                                      || services'[s].lostPong[e.copy] == services[s].lostPong[e.copy]))
  {
    var b3 := BeforeTimers(b, p);
    PongAmongMessages(b, p, j, e);
    ClocksHear(p, b3, B.Round(b, p).state, e.service, e.copy);
    if e.service in b.services {
      assert KeepsSlots(b.services[e.service], b3.services[e.service]);
    }
  }

  // ---- What goes out, in order

  /** What the broker may send on a message from a dealer. */
  ghost predicate AnswersTo(out: seq<Output>, e: Option<Event>) {
    forall a :: a in out ==> e.Some? && e.value.Replying? && a.Answer? && a.client == e.value.client
  }

  lemma ReplySends(b: Broker, e: Option<Event>, b': Broker, out: seq<Output>)
    requires Valid(b) && Handles(b, e, b', out) && (e.Some? ==> e.value.Replying? || e.value.Ponging?)
    ensures AnswersTo(out, e)
  {
    if e.Some? && e.value.Replying? && !e.value.duplicated {
      ReplyCounts(b, e.value.service, e.value.client, e.value.result);
    }
  }

  /** The output is made of one part for each dealer, in their order. */
  ghost predicate DealerByDealer(replies: seq<Option<Event>>, out: seq<Output>, parts: seq<seq<Output>>) {
    && out == Flat(parts) && |parts| == |replies|
    && forall i :: 0 <= i < |replies| ==> AnswersTo(parts[i], replies[i])
  }

  lemma OneMoreDealer(replies: seq<Option<Event>>, out: seq<Output>, parts: seq<seq<Output>>, last: Option<Event>,
                      more: seq<Output>)
    requires DealerByDealer(replies, out, parts) && AnswersTo(more, last)
    ensures DealerByDealer(replies + [last], out + more, parts + [more])
  {
    FlatStep(parts, more);
  }

  lemma LastReply(b: Broker, init: seq<Option<Event>>, last: Option<Event>) returns (out: seq<Output>)
    requires Valid(b) && B.RunAll(b, B.ArrivedAll(init) + B.Arrived(last)).Ok?
    requires last.Some? ==> last.value.Replying? || last.value.Ponging?
    ensures B.RunAll(b, B.ArrivedAll(init)).Ok? && AnswersTo(out, last)
    ensures B.RunAll(b, B.ArrivedAll(init) + B.Arrived(last)).out == B.RunAll(b, B.ArrivedAll(init)).out + out
  {
    var b1, o1;
    b1, o1, out := RunSplit(b, B.ArrivedAll(init), B.Arrived(last));
    var b' := B.RunAll(b1, B.Arrived(last)).state;
    ArrivedIsHandled(b1, last, b', out);
    ReplySends(b1, last, b', out);
  }

  lemma NextDealer(b: Broker, init: seq<Option<Event>>, last: Option<Event>, all: seq<Option<Event>>,
                   before: seq<seq<Output>>) returns (parts: seq<seq<Output>>)
    requires Valid(b) && all == init + [last] && B.RunAll(b, B.ArrivedAll(all)).Ok?
    requires last.Some? ==> last.value.Replying? || last.value.Ponging?
    requires B.RunAll(b, B.ArrivedAll(init)).Ok? ==>
               DealerByDealer(init, B.RunAll(b, B.ArrivedAll(init)).out, before)
    ensures DealerByDealer(all, B.RunAll(b, B.ArrivedAll(all)).out, parts)
  {
    assert all[..|all| - 1] == init;
    var more := LastReply(b, init, last);
    OneMoreDealer(init, B.RunAll(b, B.ArrivedAll(init)).out, before, last, more);
    parts := before + [more];
  }

  lemma NoDealer(b: Broker) returns (parts: seq<seq<Output>>)
    requires Valid(b)
    ensures DealerByDealer([], B.RunAll(b, B.ArrivedAll([])).out, parts)
  {
    parts := [];
  }

  lemma LastDealer(replies: seq<Option<Event>>) returns (init: seq<Option<Event>>, last: Option<Event>)
    requires replies != [] && RepliesOnly(replies)
    ensures replies == init + [last] && RepliesOnly(init)
    ensures last.Some? ==> last.value.Replying? || last.value.Ponging?
    ensures B.ArrivedAll(replies) == B.ArrivedAll(init) + B.Arrived(last)
  {
    init, last := replies[..|replies| - 1], replies[|replies| - 1];
  }

  ghost predicate InDealerOrder(replies: seq<Option<Event>>, out: seq<Output>) {
    exists parts :: DealerByDealer(replies, out, parts)
  }

  lemma OneDealerMore(b: Broker, init: seq<Option<Event>>, last: Option<Event>, all: seq<Option<Event>>)
    requires Valid(b) && all == init + [last] && B.RunAll(b, B.ArrivedAll(all)).Ok?
    requires last.Some? ==> last.value.Replying? || last.value.Ponging?
    requires B.RunAll(b, B.ArrivedAll(init)).Ok? && InDealerOrder(init, B.RunAll(b, B.ArrivedAll(init)).out)
    ensures InDealerOrder(all, B.RunAll(b, B.ArrivedAll(all)).out)
  {
    var out := B.RunAll(b, B.ArrivedAll(init)).out;
    var before :| DealerByDealer(init, out, before);
    var parts := NextDealer(b, init, last, all, before);
  }

  /** The answers to replies go out dealer by dealer. */
  lemma {:induction false} AnswersInDealerOrder(b: Broker, replies: seq<Option<Event>>)
    requires Valid(b) && B.RunAll(b, B.ArrivedAll(replies)).Ok? && RepliesOnly(replies)
    ensures InDealerOrder(replies, B.RunAll(b, B.ArrivedAll(replies)).out)
  {
    if replies == [] {
      var parts := NoDealer(b);
    } else {
      var init, last := LastDealer(replies);
      var b1, o1, o2 := RunSplit(b, B.ArrivedAll(init), B.Arrived(last));
      AnswersInDealerOrder(b, init);
      OneDealerMore(b, init, last, replies);
    }
  }

  /** The parts of what a round sends, each with what it may contain. */
  ghost predicate InOrderOfHandling(p: B.Poll, out: seq<Output>, registration: seq<Output>, request: seq<Output>,
                                    answers: seq<seq<Output>>, pings: seq<seq<Output>>, notices: seq<Output>)
  {
    && out == registration + request + Flat(answers) + (Flat(pings) + notices)
    && (forall a :: a in registration ==> p.registration.Some? && a.RegistrationReply?)
    && (forall a :: a in request ==>
          p.request.Some? && p.request.value.Requesting?
          && (a.Forward? || a == Answer(p.request.value.client, NotAvailable)))
    && DealerByDealer(p.replies, Flat(answers), answers)
    && (forall k :: 0 <= k < |pings| ==> PingsOf(pings[k], k))
    && (forall a :: a in notices ==> a.Answer?)
  }

  lemma FrontSends(b: Broker, p: B.Poll, b1: Broker, b2: Broker, o1: seq<Output>, o2: seq<Output>)
    requires Valid(b) && Valid(b1) && Handles(b, p.registration, b1, o1) && Handles(b1, p.request, b2, o2)
    requires p.registration.Some? ==> p.registration.value.Registering?
    requires p.request.Some? ==> p.request.value.Requesting?
    ensures forall a :: a in o1 ==> p.registration.Some? && a.RegistrationReply?
    ensures forall a :: a in o2 ==>
              p.request.Some? && (a.Forward? || a == Answer(p.request.value.client, NotAvailable))
  {
  }

  lemma MessagesSend(b: Broker, p: B.Poll)
      returns (registration: seq<Output>, request: seq<Output>, answers: seq<seq<Output>>)
    requires Valid(b) && B.PollShape(p, |b.dealers|) && B.RunAll(b, B.Messages(p)).Ok?
    ensures B.RunAll(b, B.Messages(p)).out == registration + request + Flat(answers)
    ensures forall a :: a in registration ==> p.registration.Some? && a.RegistrationReply?
    ensures forall a :: a in request ==>
              p.request.Some? && (a.Forward? || a == Answer(p.request.value.client, NotAvailable))
    ensures DealerByDealer(p.replies, Flat(answers), answers)
  {
    var b1, b2, o3;
    b1, b2, registration, request, o3 := MessageStages(b, p);
    FrontSends(b, p, b1, b2, registration, request);
    AnswersInDealerOrder(b2, p.replies);
    answers :| DealerByDealer(p.replies, o3, answers);
  }

  lemma ClocksSend(b: Broker, p: B.Poll) returns (pings: seq<seq<Output>>, notices: seq<Output>)
    requires Valid(b) && B.RunAll(b, B.Beats(p, |b.timeouts|) + [Sweeping(p.sweep)]).Ok?
    ensures B.RunAll(b, B.Beats(p, |b.timeouts|) + [Sweeping(p.sweep)]).out == Flat(pings) + notices
    ensures forall k :: 0 <= k < |pings| ==> PingsOf(pings[k], k)
    ensures forall a :: a in notices ==> a.Answer?
  {
    var b4, o4;
    b4, o4, notices := ClockStages(b, p);
    pings := TimersAreBeaten(p, b, |b.timeouts|);
    AnyPass(b4, p.sweep);
    SentIff(b4.services, b4.nmr, b4.available, 0, p.sweep, 0, NotReliable);
  }

  /**
   * What a round sends, in order: the reply to the registration, the copies of the request or its refusal, the
   * answers to replies dealer by dealer, the pings timer by timer, and the notices of passed deadlines.
   */
  lemma RoundSendsInOrder(b: Broker, p: B.Poll)
    requires Valid(b) && B.PollShape(p, |b.dealers|) && B.Round(b, p).Ok?
    ensures exists registration, request, answers, pings, notices ::
              InOrderOfHandling(p, B.Round(b, p).out, registration, request, answers, pings, notices)
  {
    var b3, front, b5, back := RoundHalves(b, p);
    var registration, request, answers := MessagesSend(b, p);
    var pings, notices := ClocksSend(b3, p);
    assert InOrderOfHandling(p, B.Round(b, p).out, registration, request, answers, pings, notices);
  }

  // ---- Deadlines

  ghost predicate HeldAt(b: Broker, s: Service, c: Client, due: Timespec) {
    Tidy(b) && HasRecord(ListOf(b.services, s), c, due)
  }

  lemma {:induction false} RunHeldOrAnswered(b: Broker, es: seq<Event>, s: Service, c: Client, due: Timespec)
    requires HeldAt(b, s, c, due) && B.RunAll(b, es).Ok?
    ensures AnswersIn(B.RunAll(b, es).out)[c] > 0 || HeldAt(B.RunAll(b, es).state, s, c, due)
    decreases |es|
  {
    if es != [] {
      StaysOrAnswered(b, es[0], s, c, due);
      StepKeepsTidy(b, es[0]);
      var b', out := Step(b, es[0]).state, Step(b, es[0]).out;
      AnswersConcat(out, B.RunAll(b', es[1..]).out);
      if HasRecord(ListOf(b'.services, s), c, due) {
        RunHeldOrAnswered(b', es[1..], s, c, due);
      }
    }
  }

  lemma PassAnswersHeld(b: Broker, now: Timespec, s: Service, c: Client, due: Timespec)
    requires HeldAt(b, s, c, due) && Expired(now, due) && Step(b, Sweeping(now)).Ok?
    ensures AnswersIn(Step(b, Sweeping(now)).out)[c] > 0
  {
    LatePassAnswers(b, now, s, c, due);
  }

  lemma ClocksAnswer(b: Broker, p: B.Poll, s: Service, c: Client, due: Timespec)
    requires HeldAt(b, s, c, due) && Expired(p.sweep, due)
    requires B.RunAll(b, B.Beats(p, |b.timeouts|) + [Sweeping(p.sweep)]).Ok?
    ensures AnswersIn(B.RunAll(b, B.Beats(p, |b.timeouts|) + [Sweeping(p.sweep)]).out)[c] > 0
  {
    var b4, o4, o5 := ClockStages(b, p);
    RunHeldOrAnswered(b, B.Beats(p, |b.timeouts|), s, c, due);
    AnswersConcat(o4, o5);
    if AnswersIn(o4)[c] == 0 {
      PassAnswersHeld(b4, p.sweep, s, c, due);
    }
  }

  /** In a round whose last clock reading is past the deadline of a waiting request, its client is answered. */
  lemma DueIsAnswered(b: Broker, p: B.Poll, s: Service, c: Client, due: Timespec)
    requires HeldAt(b, s, c, due) && B.Round(b, p).Ok? && Expired(p.sweep, due)
    ensures AnswersIn(B.Round(b, p).out)[c] > 0
  {
    var b3, front, b5, back := RoundHalves(b, p);
    RunHeldOrAnswered(b, B.Messages(p), s, c, due);
    AnswersConcat(front, back);
    if AnswersIn(front)[c] == 0 {
      ClocksAnswer(b3, p, s, c, due);
    }
  }
}
