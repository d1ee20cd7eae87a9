/** The deadline pass in every state, however many requests a client has waiting and wherever they wait. */
module Snapshots {
  import opened Common
  import opened TimeArithmetic
  import opened Voting
  import opened Requests
  import opened Database
  import opened BrokerMachine
  import opened Deadlines

  /** The list after the clients of `late` have been deleted from it one by one. */
  function EraseEach(rs: seq<RequestRecord>, late: seq<RequestRecord>): seq<RequestRecord>
    decreases |late|
  {
    if late == [] then rs else EraseEach(Erase(rs, late[0].client), late[1..])
  }

  /**
   * The requests the pass looks at in turn `k`: the list of the `k`-th available service, less what an
   * earlier turn, the one with the service's number, has deleted from it.
   */
  function Snapshot(services: Services, available: seq<Service>, k: nat, now: Timespec): seq<RequestRecord>
    requires k < |available| && Located(services, available)
    decreases k, 0
  {
    var s := available[k];
    if s < k then EraseEach(services[s].requests, Answered(services, available, s, now))
    else services[s].requests
  }

  /** The requests that turn `k` answers. */
  function Answered(services: Services, available: seq<Service>, k: nat, now: Timespec): seq<RequestRecord>
    requires k < |available| && Located(services, available)
    decreases k, 1
  {
    Late(Snapshot(services, available, k, now), now)
  }

  /** The services after the first `k` turns: each turn deletes from the service that has its number. */
  function Trimmed(services: Services, available: seq<Service>, k: nat, now: Timespec): Services
    requires k <= |available| && Located(services, available)
  {
    map s | s in services ::
      if s < k
      then services[s].(requests := EraseEach(services[s].requests, Answered(services, available, s, now)))
      else services[s]
  }

  /** Turn `k` meets a service to delete from, if it has anything to answer, and no list too long to count. */
  ghost predicate TurnReturns(services: Services, available: seq<Service>, k: nat, now: Timespec)
    requires k < |available| && Located(services, available)
  {
    var late := Answered(services, available, k, now);
    Countable(late) && (k in services || late == [])
  }

  ghost predicate Returns(services: Services, available: seq<Service>, k: nat, now: Timespec)
    requires k <= |available| && Located(services, available)
  {
    forall j :: k <= j < |available| ==> TurnReturns(services, available, j, now)
  }

  /** What goes out from turn `k` on. */
  ghost function Sent(services: Services, nmr: nat, available: seq<Service>, k: nat, now: Timespec): seq<Output>
    requires k <= |available| && Located(services, available) && Returns(services, available, k, now)
    decreases |available| - k
  {
    if k == |available| then []
    else
      assert TurnReturns(services, available, k, now);
      Notices(Answered(services, available, k, now), nmr) + Sent(services, nmr, available, k + 1, now)
  }

  // ---- One turn

  lemma NoticesOfOneMore(r: RequestRecord, late: seq<RequestRecord>, nmr: nat)
    ensures Countable([r] + late) <==> |r.results| < UINT8_SIZE && Countable(late)
    ensures Countable([r] + late) ==>
              Notices([r] + late, nmr) == [Answer(r.client, TimeoutVerdict(r, nmr))] + Notices(late, nmr)
  {
    assert ([r] + late)[0] == r;
    assert forall i :: 0 <= i < |late| ==> ([r] + late)[i + 1] == late[i];
  }

  /** The inner loop over any snapshot and any services: when it returns, and with what. */
  lemma {:induction false} TurnEffect(services: Services, nmr: nat, i: nat, pending: seq<RequestRecord>, now: Timespec)
    ensures SweepPending(services, nmr, i, pending, now).Swept? <==>
            Countable(Late(pending, now)) && (i in services || Late(pending, now) == [])
    ensures var late := Late(pending, now);
            Countable(late) && (i in services || late == []) ==>
              SweepPending(services, nmr, i, pending, now)
              == Swept(if i in services then WithRequests(services, i, EraseEach(services[i].requests, late))
                       else services,
                       Notices(late, nmr))
    decreases |pending|
  {
    if pending == [] {
      assert i in services ==> WithRequests(services, i, services[i].requests) == services;
    } else {
      var r, rest := pending[0], pending[1..];
      NoticesOfOneMore(r, Late(rest, now), nmr);
      if !Expired(now, r.timeout) {
        TurnEffect(services, nmr, i, rest, now);
      } else if |r.results| < UINT8_SIZE && i in services {
        TurnEffect(WithRequests(services, i, Erase(services[i].requests, r.client)), nmr, i, rest, now);
        ErasedStepwise(services, i, r, Late(rest, now));
      }
    }
  }

  lemma ErasedStepwise(services: Services, i: nat, r: RequestRecord, late: seq<RequestRecord>)
    requires i in services
    ensures var erased := WithRequests(services, i, Erase(services[i].requests, r.client));
            WithRequests(erased, i, EraseEach(erased[i].requests, late))
            == WithRequests(services, i, EraseEach(services[i].requests, [r] + late))
  {
    assert ([r] + late)[1..] == late;
  }

  // ---- The whole pass

  lemma TrimmedAt(services: Services, available: seq<Service>, k: nat, now: Timespec, s: Service)
    requires k <= |available| && Located(services, available) && s in services
    ensures Trimmed(services, available, k, now)[s].requests
         == if s < k then EraseEach(services[s].requests, Answered(services, available, s, now))
            else services[s].requests
  {
  }

  lemma TrimmedTurn(services: Services, available: seq<Service>, k: nat, now: Timespec, late: seq<RequestRecord>,
                    s: Service)
    requires k < |available| && Located(services, available) && late == Answered(services, available, k, now)
    requires s in services
    ensures var trimmed := Trimmed(services, available, k, now);
            Trimmed(services, available, k + 1, now)[s]
            == if s == k then trimmed[s].(requests := EraseEach(trimmed[s].requests, late)) else trimmed[s]
  {
  }

  /** What turn `k` finds, and what it leaves for the next. */
  lemma TrimmedOnce(services: Services, available: seq<Service>, k: nat, now: Timespec, late: seq<RequestRecord>)
    requires k < |available| && Located(services, available) && late == Answered(services, available, k, now)
    ensures var trimmed := Trimmed(services, available, k, now);
            && Located(trimmed, available)
            && trimmed[available[k]].requests == Snapshot(services, available, k, now)
            && Trimmed(services, available, k + 1, now)
               == if k in services then WithRequests(trimmed, k, EraseEach(trimmed[k].requests, late)) else trimmed
  {
    TrimmedAt(services, available, k, now, available[k]);
    forall s | s in services {
      TrimmedTurn(services, available, k, now, late, s);
    }
  }

  /** What a sweep comes to when no fault cuts it short. */
  function Completed(w: Sweep): Option<Sweep> {
    if w.Swept? then Some(w) else None
  }

  /** What the pass is to come to from turn `k` on. */
  ghost function WholePass(services: Services, nmr: nat, available: seq<Service>, k: nat, now: Timespec): Option<Sweep>
    requires k <= |available| && Located(services, available)
  {
    if Returns(services, available, k, now)
    then Some(Swept(Trimmed(services, available, |available|, now), Sent(services, nmr, available, k, now)))
    else None
  }

  /** The outer loop from turn `k` on. */
  function Turns(services: Services, nmr: nat, available: seq<Service>, k: nat, now: Timespec): Option<Sweep>
    requires k <= |available| && Located(services, available)
  {
    Completed(SweepFrom(Trimmed(services, available, k, now), nmr, available, k, now))
  }

  function After(out: seq<Output>, rest: Option<Sweep>): Option<Sweep> {
    match rest
    case Some(w) => Some(Then(out, w))
    case None => None
  }

  /** One turn of the outer loop. */
  lemma OneTurn(services: Services, nmr: nat, available: seq<Service>, k: nat, now: Timespec,
                late: seq<RequestRecord>)
    requires k < |available| && Located(services, available) && late == Answered(services, available, k, now)
    ensures Turns(services, nmr, available, k, now)
         == if TurnReturns(services, available, k, now)
            then After(Notices(late, nmr), Turns(services, nmr, available, k + 1, now)) else None
  {
    var trimmed := Trimmed(services, available, k, now);
    TrimmedOnce(services, available, k, now, late);
    TurnEffect(trimmed, nmr, k, trimmed[available[k]].requests, now);
  }

  lemma OneTurnOfPass(services: Services, nmr: nat, available: seq<Service>, k: nat, now: Timespec,
                      late: seq<RequestRecord>)
    requires k < |available| && Located(services, available) && late == Answered(services, available, k, now)
    ensures WholePass(services, nmr, available, k, now)
         == if TurnReturns(services, available, k, now)
            then After(Notices(late, nmr), WholePass(services, nmr, available, k + 1, now)) else None
  {
    assert Returns(services, available, k, now) <==>
           TurnReturns(services, available, k, now) && Returns(services, available, k + 1, now);
  }

  lemma {:induction false} PassEffect(services: Services, nmr: nat, available: seq<Service>, k: nat, now: Timespec)
    requires k <= |available| && Located(services, available)
    ensures Turns(services, nmr, available, k, now) == WholePass(services, nmr, available, k, now)
    decreases |available| - k
  {
    if k < |available| {
      var late := Answered(services, available, k, now);
      OneTurn(services, nmr, available, k, now, late);
      OneTurnOfPass(services, nmr, available, k, now, late);
      PassEffect(services, nmr, available, k + 1, now);
    }
  }

  /** The deadline pass, completely and in any state: when it returns, what it leaves and what it sends. */
  lemma AnyPass(b: Broker, now: Timespec)
    requires Valid(b)
    ensures Located(b.services, b.available)
    ensures CheckPendingRequests(b, now).Ok? <==> Returns(b.services, b.available, 0, now)
    ensures CheckPendingRequests(b, now).Ok? ==>
              CheckPendingRequests(b, now) == Ok(b.(services := Trimmed(b.services, b.available, |b.available|, now)),
                                                 Sent(b.services, b.nmr, b.available, 0, now))
  {
    assert Trimmed(b.services, b.available, 0, now) == b.services;
    PassEffect(b.services, b.nmr, b.available, 0, now);
  }

  // ---- What the pass answers

  /** Some of these requests is the client's and closes with this verdict. */
  ghost predicate Closes(late: seq<RequestRecord>, nmr: nat, c: Client, verdict: Verdict) {
    exists r :: r in late && r.client == c && |r.results| < UINT8_SIZE && TimeoutVerdict(r, nmr) == verdict
  }

  /** From turn `k` on, some turn answers the client with this verdict. */
  ghost predicate TurnAnswers(services: Services, nmr: nat, available: seq<Service>, k: nat, now: Timespec,
                              c: Client, verdict: Verdict)
    requires Located(services, available)
  {
    exists j :: k <= j < |available| && Closes(Answered(services, available, j, now), nmr, c, verdict)
  }

  lemma NoticedIff(late: seq<RequestRecord>, nmr: nat, c: Client, verdict: Verdict)
    requires Countable(late)
    ensures Answer(c, verdict) in Notices(late, nmr) <==> Closes(late, nmr, c, verdict)
    ensures forall a :: a in Notices(late, nmr) ==> a.Answer?
  {
    if i :| 0 <= i < |late| && Notices(late, nmr)[i] == Answer(c, verdict) {
      assert late[i] in late;
    }
    if r :| r in late && r.client == c && |r.results| < UINT8_SIZE && TimeoutVerdict(r, nmr) == verdict {
      var i :| 0 <= i < |late| && late[i] == r;
      assert Notices(late, nmr)[i] == Answer(c, verdict);
    }
  }

  lemma {:induction false} SentIff(services: Services, nmr: nat, available: seq<Service>, k: nat, now: Timespec,
                                   c: Client, verdict: Verdict)
    requires k <= |available| && Located(services, available) && Returns(services, available, k, now)
    ensures Answer(c, verdict) in Sent(services, nmr, available, k, now) <==>
            TurnAnswers(services, nmr, available, k, now, c, verdict)
    ensures forall a :: a in Sent(services, nmr, available, k, now) ==> a.Answer?
    decreases |available| - k
  {
    if k < |available| {
      assert TurnReturns(services, available, k, now);
      var late := Answered(services, available, k, now);
      NoticedIff(late, nmr, c, verdict);
      SentIff(services, nmr, available, k + 1, now, c, verdict);
      assert TurnAnswers(services, nmr, available, k, now, c, verdict) <==>
             Closes(late, nmr, c, verdict) || TurnAnswers(services, nmr, available, k + 1, now, c, verdict);
    }
  }

  // ---- What deleting leaves of a list

  lemma {:induction false} OthersIn(rs: seq<RequestRecord>, c: Client)
    ensures forall r :: r in Others(rs, c) <==> r in rs && r.client != c
  {
    if rs != [] {
      OthersIn(rs[1..], c);
      assert rs == [rs[0]] + rs[1..];
    }
  }

  lemma {:induction false} EraseSubset(rs: seq<RequestRecord>, c: Client)
    ensures forall r :: r in Erase(rs, c) ==> r in rs
    decreases |rs|
  {
    if rs == [] {
    } else if rs[0].client != c {
      EraseSubset(rs[1..], c);
    } else if |rs| > 1 {
      EraseSubset(rs[2..], c);
    }
  }

  /** Deleting takes only records of the client, and leaves some of them exactly if two were neighbours. */
  lemma EraseLeaves(rs: seq<RequestRecord>, c: Client)
    ensures forall r :: r in Erase(rs, c) ==> r in rs
    ensures forall r :: r in rs && r.client != c ==> r in Erase(rs, c)
    ensures HasClient(Erase(rs, c), c) <==> Adjacent(rs, c)
  {
    EraseSubset(rs, c);
    EraseKeepsOthers(rs, c);
    OthersIn(rs, c);
    OthersIn(Erase(rs, c), c);
    EraseIsFilterIff(rs, c);
    OthersHasNone(rs, c);
    OthersHasNone(Erase(rs, c), c);
  }

  lemma {:induction false} EachLeaves(rs: seq<RequestRecord>, late: seq<RequestRecord>)
    ensures forall r :: r in EraseEach(rs, late) ==> r in rs
    ensures forall r :: r in rs && !HasClient(late, r.client) ==> r in EraseEach(rs, late)
    decreases |late|
  {
    if late != [] {
      var c := late[0].client;
      EraseLeaves(rs, c);
      EachLeaves(Erase(rs, c), late[1..]);
      forall r | r in rs && !HasClient(late, r.client) ensures r in EraseEach(rs, late) {
        assert r.client != late[0].client;
        assert !HasClient(late[1..], r.client) by {
          assert forall i :: 0 <= i < |late[1..]| ==> late[1..][i] == late[i + 1];
        }
      }
    }
  }

  /** Whatever turn `k` looks at waits at the service before the pass, and what is missing has been answered. */
  lemma SnapshotLeaves(services: Services, available: seq<Service>, k: nat, now: Timespec)
    requires k < |available| && Located(services, available)
    ensures forall r :: r in Snapshot(services, available, k, now) ==> r in services[available[k]].requests
    ensures forall r :: r in services[available[k]].requests ==>
              || r in Snapshot(services, available, k, now)
              || (available[k] < k && HasClient(Answered(services, available, available[k], now), r.client))
  {
    var s := available[k];
    if s < k {
      EachLeaves(services[s].requests, Answered(services, available, s, now));
    }
  }

  /** An expired request is answered by the pass, or deleted in it after its client has been answered. */
  lemma ExpiredIsAnswered(services: Services, available: seq<Service>, k: nat, now: Timespec, r: RequestRecord)
    requires k < |available| && Located(services, available)
    requires r in services[available[k]].requests && Expired(now, r.timeout)
    ensures exists j :: 0 <= j < |available| && HasClient(Answered(services, available, j, now), r.client)
  {
    SnapshotLeaves(services, available, k, now);
    if r in Snapshot(services, available, k, now) {
      LiveAndLate(Snapshot(services, available, k, now), now);
      HasClientIn(Answered(services, available, k, now), r.client);
    }
  }
}
