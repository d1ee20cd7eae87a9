/**
 * What holds in runs of the broker. `IsFreeRun` asks nothing of the clients, `IsRun` that none is accepted while
 * it waits, `IsAlignedRun` that clients work in lock step and deadline passes are aligned.
 */
module BrokerTheorems {
  import opened Common
  import opened TimeArithmetic
  import opened Voting
  import opened Requests
  import opened Database
  import opened BrokerMachine
  import opened Deadlines
  import opened BrokerRuns
  import opened Snapshots
  import opened Repeats
  import opened FreeRuns

  /**
   * Conservation: at any time a client has been answered as often as it asked, but for the one request
   * it may be waiting for; and it waits with one record at one service.
   */
  lemma Conservation(nmr: nat, xs: seq<Session>, es: seq<Event>, outs: seq<seq<Output>>, i: nat, c: Client)
    requires 0 < nmr < UINT8_SIZE && IsAlignedRun(nmr, xs, es, outs) && i < |xs|
    ensures xs[i].asked[c] == xs[i].answered[c] + Tally(Waiting(xs[i].b.services, c))
    ensures UniqueClients(xs[i].b.services)
  {
    RunsAreGood(nmr, xs, es, outs, i);
  }

  /**
   * Exactly once: a step answers a client at most once, and only a client that was waiting before the
   * step or asked in it; after the answer it waits no longer.
   */
  lemma ExactlyOnce(nmr: nat, xs: seq<Session>, es: seq<Event>, outs: seq<seq<Output>>, i: nat, c: Client)
    requires 0 < nmr < UINT8_SIZE && IsAlignedRun(nmr, xs, es, outs) && i < |es|
    ensures var answers := AnswersIn(outs[i])[c];
            && answers <= 1
            && (answers == 1 ==> Waiting(xs[i].b.services, c) != (es[i].Requesting? && es[i].client == c))
            && (answers == 1 ==> !Waiting(xs[i + 1].b.services, c))
            && (answers == 0 ==> (Waiting(xs[i + 1].b.services, c) <==>
                                  Waiting(xs[i].b.services, c) || (es[i].Requesting? && es[i].client == c)))
  {
    RunsAreGood(nmr, xs, es, outs, i);
    RunsAreGood(nmr, xs, es, outs, i + 1);
    assert RunStep(xs, es, outs, i) && LockStep(xs, es, outs, i);
    LockStepIsPermitted(xs[i], es[i]);
    ConservedIff(xs[i], es[i], outs[i], xs[i + 1]);
    assert Asks(es[i])[c] == Tally(es[i].Requesting? && es[i].client == c);
  }

  /**
   * A request that waits has fewer than `nmr` results and no majority among them, as long as every counted
   * reply before has been safe: by `UndecidedIff` this is the exact condition for all waiting requests.
   */
  lemma SafeIsUndecided(nmr: nat, xs: seq<Session>, es: seq<Event>, outs: seq<seq<Output>>, i: nat,
                        s: Service, k: nat, v: int)
    requires 0 < nmr < UINT8_SIZE && IsFreeRun(nmr, xs, es, outs) && i < |xs| && AllSafe(xs, es, i)
    requires s in xs[i].b.services && k < |xs[i].b.services[s].requests|
    ensures var r := xs[i].b.services[s].requests[k];
            |r.results| < nmr && !HasMajority(r.results, nmr, v)
  {
    UndecidedIff(nmr, xs, es, outs, i);
    assert Undecided(xs[i].b.services, nmr);
    UndecidedMeansNoMajority(xs[i].b.services[s].requests[k].results, nmr, v);
  }

  /** In particular where no service accepts a request of a client while it holds another one of it. */
  lemma WaitingIsUndecided(nmr: nat, xs: seq<Session>, es: seq<Event>, outs: seq<seq<Output>>, i: nat,
                           s: Service, k: nat, v: int)
    requires 0 < nmr < UINT8_SIZE && IsFreeRun(nmr, xs, es, outs) && i < |xs| && AllFirst(xs, es, i)
    requires s in xs[i].b.services && k < |xs[i].b.services[s].requests|
    ensures var r := xs[i].b.services[s].requests[k];
            |r.results| < nmr && !HasMajority(r.results, nmr, v)
  {
    FirstIsSafe(nmr, xs, es, outs, i);
    SafeIsUndecided(nmr, xs, es, outs, i, s, k, v);
  }

  /**
   * The answer sent on a reply is the verdict of a count over all `nmr` results of the client's last request,
   * for every way the outstanding copies could still have answered it.
   */
  lemma RepliesAnswerTheFullCount(nmr: nat, xs: seq<Session>, es: seq<Event>, outs: seq<seq<Output>>, i: nat,
                                  results: seq<int>, ys: seq<int>)
    requires 0 < nmr < UINT8_SIZE && IsFreeRun(nmr, xs, es, outs) && i < |es|
    requires es[i].Replying? && !es[i].duplicated && es[i].service in xs[i].b.services
    requires LastResults(xs[i].b.services[es[i].service].requests, es[i].client) == Some(results)
    requires |ys| == nmr && results + [es[i].result] <= ys
    ensures forall a :: a in outs[i] ==> a == Answer(es[i].client, FullVerdict(ys, nmr))
    ensures outs[i] == [] <==> Decide(results + [es[i].result], nmr).None?
  {
    FreeRunsAreTidy(nmr, xs, es, outs, i);
    assert FreeStep(xs, es, outs, i);
    var rs := xs[i].b.services[es[i].service].requests;
    if !HasClient(rs, es[i].client) {
      NoResults(rs, es[i].client);
    }
    LastAfterAdd(rs, es[i].client, es[i].result);
    if Decide(results + [es[i].result], nmr).Some? {
      DecisionIsFinal(results + [es[i].result], nmr, ys);
    }
  }

  lemma RunIsFree(nmr: nat, xs: seq<Session>, es: seq<Event>, outs: seq<seq<Output>>)
    requires IsRun(nmr, xs, es, outs)
    ensures IsFreeRun(nmr, xs, es, outs)
  {
    forall i | 0 <= i < |es| ensures FreeStep(xs, es, outs, i) {
      assert RunStep(xs, es, outs, i);
    }
  }

  // ---- Deadlines

  lemma {:induction false} NoticesAreNotReliable(services: Services, nmr: nat, available: seq<Service>, i: nat,
                                                 now: Timespec)
    requires i <= |available| && Located(services, available) && AllCountable(services)
    requires nmr < UINT8_SIZE && Undecided(services, nmr)
    ensures forall a :: a in AllNotices(services, nmr, available, i, now) ==> a.Answer? && a.verdict == NotReliable
    decreases |available| - i
  {
    if i < |available| {
      var rs := services[available[i]].requests;
      var late := Late(rs, now);
      LateIsCountable(rs, now);
      LiveAndLate(rs, now);
      forall j | 0 <= j < |late| ensures TimeoutVerdict(late[j], nmr) == NotReliable {
        assert late[j] in rs;
        UndecidedMeansNoMajority(late[j].results, nmr, 0);
      }
      NoticesAreNotReliable(services, nmr, available, i + 1, now);
    }
  }

  lemma PassIsNotReliable(b: Broker, now: Timespec, b': Broker, out: seq<Output>)
    requires Sound(b) && CheckPendingRequests(b, now) == Ok(b', out)
    ensures AllCountable(b.services) && out == AllNotices(b.services, b.nmr, b.available, 0, now)
    ensures b' == b.(services := Purged(b.services, b.available, 0, now))
    ensures forall a :: a in out ==> a.Answer? && a.verdict == NotReliable
  {
    SweepingKeepsSound(b, Sweeping(now));
    NoticesAreNotReliable(b.services, b.nmr, b.available, 0, now);
  }

  lemma PassIsExactIff(b: Broker, now: Timespec, b': Broker, out: seq<Output>)
    requires Sound(b) && CheckPendingRequests(b, now) == Ok(b', out)
    ensures b' == b.(services := WithoutLate(b.services, now)) <==> Aligned(b, now)
  {
    PassIsNotReliable(b, now, b', out);
    SweepIsExactIff(b, now);
  }

  /**
   * In every run: a deadline pass gives a client a verdict exactly if one of its turns finds an expired request
   * of the client with that verdict. So the branch that answers with a value is taken exactly if one of these
   * requests has elected a value by then.
   */
  lemma DeadlineAnswersIff(nmr: nat, xs: seq<Session>, es: seq<Event>, outs: seq<seq<Output>>, i: nat,
                           c: Client, verdict: Verdict)
    requires 0 < nmr < UINT8_SIZE && IsFreeRun(nmr, xs, es, outs) && i < |es| && es[i].Sweeping?
    ensures Located(xs[i].b.services, xs[i].b.available)
    ensures Answer(c, verdict) in outs[i] <==>
            TurnAnswers(xs[i].b.services, nmr, xs[i].b.available, 0, es[i].now, c, verdict)
    ensures forall a :: a in outs[i] ==> a.Answer?
  {
    FreeRunsAreTidy(nmr, xs, es, outs, i);
    assert FreeStep(xs, es, outs, i);
    AnyPass(xs[i].b, es[i].now);
    SentIff(xs[i].b.services, nmr, xs[i].b.available, 0, es[i].now, c, verdict);
  }

  lemma UndecidedClosesUnreliable(services: Services, nmr: nat, available: seq<Service>, now: Timespec, c: Client,
                                  verdict: Verdict)
    requires nmr < UINT8_SIZE && Undecided(services, nmr) && Located(services, available)
    requires TurnAnswers(services, nmr, available, 0, now, c, verdict)
    ensures verdict == NotReliable
  {
    var j :| 0 <= j < |available| && Closes(Answered(services, available, j, now), nmr, c, verdict);
    var r :| r in Answered(services, available, j, now) && r.client == c && |r.results| < UINT8_SIZE
             && TimeoutVerdict(r, nmr) == verdict;
    LiveAndLate(Snapshot(services, available, j, now), now);
    SnapshotLeaves(services, available, j, now);
    assert UndecidedList(services[available[j]].requests, nmr);
    UndecidedMeansNoMajority(r.results, nmr, 0);
  }

  /**
   * In every run whose counted replies are safe: a deadline pass answers NOT_RELIABLE only, so the branch that
   * would answer a majority late is never taken.
   */
  lemma DeadlinesAnswerNotReliable(nmr: nat, xs: seq<Session>, es: seq<Event>, outs: seq<seq<Output>>, i: nat)
    requires 0 < nmr < UINT8_SIZE && IsFreeRun(nmr, xs, es, outs) && i < |es| && es[i].Sweeping?
    requires AllSafe(xs, es, i)
    ensures forall a :: a in outs[i] ==> a.Answer? && a.verdict == NotReliable
  {
    UndecidedIff(nmr, xs, es, outs, i);
    assert Undecided(xs[i].b.services, nmr);
    forall a | a in outs[i] ensures a.Answer? && a.verdict == NotReliable {
      DeadlineAnswersIff(nmr, xs, es, outs, i, 0, NotReliable);
      DeadlineAnswersIff(nmr, xs, es, outs, i, a.client, a.verdict);
      UndecidedClosesUnreliable(xs[i].b.services, nmr, xs[i].b.available, es[i].now, a.client, a.verdict);
    }
  }

  /**
   * Where no client is accepted while it waits, a deadline pass answers exactly the expired requests, always
   * NOT_RELIABLE, and it removes exactly those if and only if it is aligned.
   */
  lemma PassesAnswerTheExpired(nmr: nat, xs: seq<Session>, es: seq<Event>, outs: seq<seq<Output>>, i: nat)
    requires 0 < nmr < UINT8_SIZE && IsRun(nmr, xs, es, outs) && i < |es| && es[i].Sweeping?
    ensures AllCountable(xs[i].b.services) && Located(xs[i].b.services, xs[i].b.available)
    ensures outs[i] == AllNotices(xs[i].b.services, nmr, xs[i].b.available, 0, es[i].now)
    ensures forall a :: a in outs[i] ==> a.Answer? && a.verdict == NotReliable
    ensures xs[i + 1].b == xs[i].b.(services := Purged(xs[i].b.services, xs[i].b.available, 0, es[i].now))
    ensures xs[i + 1].b == xs[i].b.(services := WithoutLate(xs[i].b.services, es[i].now))
       <==> Aligned(xs[i].b, es[i].now)
  {
    RunsAreSound(nmr, xs, es, outs, i);
    assert RunStep(xs, es, outs, i);
    PassIsNotReliable(xs[i].b, es[i].now, xs[i + 1].b, outs[i]);
    PassIsExactIff(xs[i].b, es[i].now, xs[i + 1].b, outs[i]);
  }

  // ---- Deadline order

  ghost predicate Ordered(services: Services) {
    forall s :: s in services ==> SortedByDeadline(services[s].requests)
  }

  ghost predicate DueBy(services: Services, t: int) {
    forall s, k :: s in services && 0 <= k < |services[s].requests| ==> Total(services[s].requests[k].timeout) <= t
  }

  function Due(clock: Timespec): int {
    Total(AddMs(clock, REQUEST_TIMEOUT))
  }

  /** Clock readings are normalized, and the requests of a run are stamped by a clock that never runs back. */
  ghost predicate Clocked(es: seq<Event>) {
    && (forall i :: 0 <= i < |es| && es[i].Requesting? ==> Normalized(es[i].clock))
    && (forall i :: 0 <= i < |es| && es[i].Sweeping? ==> Normalized(es[i].now))
    && forall i, j :: 0 <= i < j < |es| && es[i].Requesting? && es[j].Requesting? ==>
         Total(es[i].clock) <= Total(es[j].clock)
  }

  ghost predicate StillOrdered(services: Services, e: Event, services': Services) {
    && Ordered(services')
    && forall t :: DueBy(services, t) && (e.Requesting? ==> Due(e.clock) <= t) ==> DueBy(services', t)
  }

  lemma ChangedStaysSorted(b: Broker, e: Event, s: Service, rs: seq<RequestRecord>)
    requires Located(b.services, b.available) && SortedByDeadline(rs)
    requires e.Requesting? ==> Normalized(e.clock) && forall r :: r in rs ==> Total(r.timeout) <= Due(e.clock)
    ensures SortedByDeadline(Changed(b, e, s, rs))
  {
    match e
    case Requesting(_, _, _, clock, _) => WholeSeconds(clock, REQUEST_TIMEOUT);
    case Replying(_, c, v, _) =>
      SortedAdd(rs, c, v);
      SortedErase(AddResult(rs, c, v), c);
    case Sweeping(now) =>
      if s < |b.available| {
        SortedEraseEach(rs, Answered(b.services, b.available, s, now));
      }
    case _ =>
  }

  lemma ChangedStaysDue(b: Broker, e: Event, s: Service, rs: seq<RequestRecord>, t: int, r': RequestRecord)
    requires Located(b.services, b.available) && (forall r :: r in rs ==> Total(r.timeout) <= t)
    requires (e.Requesting? ==> Due(e.clock) <= t) && r' in Changed(b, e, s, rs)
    ensures Total(r'.timeout) <= t
  {
    ChangedElement(b, e, s, rs, r');
  }

  lemma StepStaysOrdered(x: Session, e: Event, out: seq<Output>, x': Session)
    requires Next(x, e, out, x') && Ordered(x.b.services)
    requires e.Requesting? ==> Normalized(e.clock) && DueBy(x.b.services, Due(e.clock))
    ensures StillOrdered(x.b.services, e, x'.b.services)
  {
    var services, services' := x.b.services, x'.b.services;
    StepChanges(x.b, e);
    forall s | s in services' ensures SortedByDeadline(services'[s].requests) {
      assert services'[s].requests == ListOf(services', s);
      ChangedStaysSorted(x.b, e, s, ListOf(services, s));
    }
    forall t, s, k | DueBy(services, t) && (e.Requesting? ==> Due(e.clock) <= t)
                     && s in services' && 0 <= k < |services'[s].requests|
      ensures Total(services'[s].requests[k].timeout) <= t
    {
      assert services'[s].requests == ListOf(services', s);
      ChangedStaysDue(x.b, e, s, ListOf(services, s), t, services'[s].requests[k]);
    }
  }

  lemma DueGrows(a: Timespec, b: Timespec)
    requires Total(a) <= Total(b)
    ensures Due(a) <= Due(b)
  {
    AddMsIsExact(a, REQUEST_TIMEOUT);
    AddMsIsExact(b, REQUEST_TIMEOUT);
  }

  /** Every list is sorted by deadline, and no request still to come is due before one that waits. */
  ghost predicate OrderedAt(services: Services, es: seq<Event>, i: nat) {
    && Ordered(services)
    && forall j :: i <= j < |es| && es[j].Requesting? ==> DueBy(services, Due(es[j].clock))
  }

  /** In every run, every list of pending requests is sorted by deadline, and no later request is due before it. */
  lemma {:induction false} RunsAreOrdered(nmr: nat, xs: seq<Session>, es: seq<Event>, outs: seq<seq<Output>>, i: nat)
    requires 0 < nmr < UINT8_SIZE && IsFreeRun(nmr, xs, es, outs) && Clocked(es) && i < |xs|
    ensures OrderedAt(xs[i].b.services, es, i)
  {
    if i > 0 {
      RunsAreOrdered(nmr, xs, es, outs, i - 1);
      assert FreeStep(xs, es, outs, i - 1);
      OrderedStep(xs, es, outs, i - 1);
    } else {
      assert xs[0].b.services == map[];
    }
  }

  lemma OrderedStep(xs: seq<Session>, es: seq<Event>, outs: seq<seq<Output>>, i: nat)
    requires Clocked(es) && i < |es| == |outs| && |xs| == |es| + 1
    requires FreeStep(xs, es, outs, i) && OrderedAt(xs[i].b.services, es, i)
    ensures OrderedAt(xs[i + 1].b.services, es, i + 1)
  {
    StepStaysOrdered(xs[i], es[i], outs[i], xs[i + 1]);
    DueLater(xs[i].b.services, es, i, xs[i + 1].b.services);
  }

  lemma DueLater(services: Services, es: seq<Event>, i: nat, services': Services)
    requires Clocked(es) && i < |es| && StillOrdered(services, es[i], services')
    requires forall j :: i <= j < |es| && es[j].Requesting? ==> DueBy(services, Due(es[j].clock))
    ensures forall j :: i < j < |es| && es[j].Requesting? ==> DueBy(services', Due(es[j].clock))
  {
    forall j | i < j < |es| && es[j].Requesting? ensures DueBy(services', Due(es[j].clock)) {
      if es[i].Requesting? {
        DueGrows(es[i].clock, es[j].clock);
      }
    }
  }

  /**
   * The expired requests of a list are its oldest ones, and a deadline pass cuts exactly this prefix off
   * every list of a service whose position is its number.
   */
  lemma DeadlinesCutPrefixes(nmr: nat, xs: seq<Session>, es: seq<Event>, outs: seq<seq<Output>>, i: nat, s: Service)
    requires 0 < nmr < UINT8_SIZE && IsRun(nmr, xs, es, outs) && Clocked(es) && i < |es| && es[i].Sweeping?
    requires s in xs[i].b.services
    ensures var rs, available := xs[i].b.services[s].requests, xs[i].b.available;
            var k := |Late(rs, es[i].now)|;
            && k <= |rs| && Late(rs, es[i].now) == rs[..k] && s in xs[i + 1].b.services
            && xs[i + 1].b.services[s].requests == (if s < |available| && available[s] == s then rs[k..] else rs)
            && (forall j :: 0 <= j < k ==> Total(es[i].now) > Total(rs[j].timeout))
            && (forall j :: k <= j < |rs| ==> Total(es[i].now) <= Total(rs[j].timeout))
  {
    var rs, now := xs[i].b.services[s].requests, es[i].now;
    RunIsFree(nmr, xs, es, outs);
    RunsAreOrdered(nmr, xs, es, outs, i);
    PassesAnswerTheExpired(nmr, xs, es, outs, i);
    ExpiredIsPrefix(rs, now);
    LiveAndLate(rs, now);
    PrefixIsDue(rs, now);
  }

  lemma PrefixIsDue(rs: seq<RequestRecord>, now: Timespec)
    requires SortedByDeadline(rs) && Normalized(now)
    ensures var k := |Late(rs, now)|;
            && k <= |rs|
            && (forall j :: 0 <= j < k ==> Total(now) > Total(rs[j].timeout))
            && (forall j :: k <= j < |rs| ==> Total(now) <= Total(rs[j].timeout))
  {
    ExpiredIsPrefix(rs, now);
    LiveAndLate(rs, now);
    var k := |Late(rs, now)|;
    forall j | 0 <= j < |rs| ensures Expired(now, rs[j].timeout) <==> Total(now) > Total(rs[j].timeout) {
      CompareFollowsTotal(now, rs[j].timeout);
    }
    forall j | 0 <= j < k ensures Expired(now, rs[j].timeout) {
      assert rs[..k][j] in Late(rs, now);
    }
    forall j | k <= j < |rs| ensures !Expired(now, rs[j].timeout) {
      assert rs[k..][j - k] in Live(rs, now);
    }
  }
}
