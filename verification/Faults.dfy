/** Where the broker stops: for every event the exact fault, and what has been sent before it. */
module Faults {
  import opened Common
  import opened TimeArithmetic
  import opened Requests
  import opened Database
  import opened BrokerMachine
  import opened Deadlines
  import opened Repeats
  import opened Snapshots

  // ---- Requests, replies, pongs

  /**
   * A request stops the broker with an access out of bounds: before anything is sent if the dealer is missing,
   * and after all copies have gone out if the service is not available and so has no timer.
   */
  lemma RequestFaults(b: Broker, e: Event)
    requires Valid(b) && e.Requesting?
    ensures Step(b, e).Failed? <==>
            e.service in b.services
            && ((b.services[e.service].reliable > 0 && b.services[e.service].dealerIndex >= |b.dealers|)
                || e.service !in b.available)
    ensures Step(b, e).Failed? ==>
              var r, out := b.services[e.service], Step(b, e).out;
              && Step(b, e).fault == OutOfBounds
              && |out| == (if r.dealerIndex < |b.dealers| then r.reliable else 0)
              && forall o :: o in out ==> o == Forward(r.dealerIndex, e.service, r.requestId, e.client, e.params)
  {
  }

  /**
   * A reply stops the broker for ever in the voter, with nothing sent, if it brings the 256th result of the
   * client's last request, and makes it exit if the service is unknown.
   */
  lemma ReplyFaults(b: Broker, e: Event)
    requires Valid(b) && e.Replying? && !e.duplicated
    ensures e.service !in b.services ==> Step(b, e) == Failed(Exited, [])
    ensures e.service in b.services ==>
              (Step(b, e).Failed? <==>
               match LastResults(b.services[e.service].requests, e.client)
               case Some(results) => |results| + 1 >= UINT8_SIZE
               case None => false)
    ensures e.service in b.services && Step(b, e).Failed? ==> Step(b, e) == Failed(Diverged, [])
  {
    if e.service in b.services {
      var rs := b.services[e.service].requests;
      if HasClient(rs, e.client) {
        LastAfterAdd(rs, e.client, e.result);
      } else {
        NoResults(rs, e.client);
      }
    }
  }

  lemma PongFaults(b: Broker, e: Event)
    requires Valid(b) && e.Ponging?
    ensures e.service !in b.services ==> Step(b, e) == Failed(Exited, [])
    ensures e.service in b.services && e.copy >= b.nmr ==> Step(b, e) == Failed(OutOfBounds, [])
    ensures e.service in b.services && e.copy < b.nmr ==> Step(b, e).Ok? && Step(b, e).out == []
  {
  }

  // ---- The deadline pass

  /** The first of the expired requests that a turn cannot get past; all of them if there is none such. */
  function Reach(late: seq<RequestRecord>): (m: nat)
    ensures m <= |late| && Countable(late[..m]) && (m < |late| ==> |late[m].results| >= UINT8_SIZE)
  {
    if late == [] || |late[0].results| >= UINT8_SIZE then 0
    else
      var m := 1 + Reach(late[1..]);
      assert late[..m] == [late[0]] + late[1..][..m - 1];
      m
  }

  /** What a turn ends with when it does not return. */
  ghost function Stop(nmr: nat, registered: bool, late: seq<RequestRecord>): (Fault, seq<Output>) {
    var m := Reach(late);
    if !registered && m > 0 then (Exited, Notices(late[..1], nmr)) else (Diverged, Notices(late[..m], nmr))
  }

  lemma StopLater(nmr: nat, r: RequestRecord, late: seq<RequestRecord>)
    requires |r.results| < UINT8_SIZE
    ensures Stop(nmr, true, [r] + late).0 == Stop(nmr, true, late).0
    ensures Stop(nmr, true, [r] + late).1 == [Answer(r.client, TimeoutVerdict(r, nmr))] + Stop(nmr, true, late).1
  {
    var all, m := [r] + late, Reach(late);
    assert all[1..] == late && Reach(all) == 1 + m;
    assert all[..m + 1] == [r] + late[..m];
    NoticesOfOneMore(r, late[..m], nmr);
  }

  /**
   * A turn that does not return: where the service to delete from is missing the broker exits after the first
   * answer; a request with 256 results or more keeps the voter busy for ever, after those before it have been
   * answered.
   */
  lemma {:induction false} TurnStops(services: Services, nmr: nat, i: nat, pending: seq<RequestRecord>, now: Timespec)
    ensures var w, stop := SweepPending(services, nmr, i, pending, now), Stop(nmr, i in services, Late(pending, now));
            w.Broken? ==> w == Broken(stop.0, stop.1)
    decreases |pending|
  {
    if pending != [] {
      var r, rest := pending[0], pending[1..];
      if !Expired(now, r.timeout) {
        TurnStops(services, nmr, i, rest, now);
      } else if |r.results| < UINT8_SIZE {
        if i in services {
          TurnStops(WithRequests(services, i, Erase(services[i].requests, r.client)), nmr, i, rest, now);
          StopLater(nmr, r, Late(rest, now));
        } else {
          NoticesOfOneMore(r, [], nmr);
          assert [r] + [] == Late(pending, now)[..1];
        }
      }
    }
  }

  /** What the turns from `k` up to turn `j` send. */
  ghost function SentUntil(services: Services, nmr: nat, available: seq<Service>, k: nat, j: nat,
                            now: Timespec): seq<Output>
    requires k <= j <= |available| && Located(services, available)
    requires forall n :: k <= n < j ==> TurnReturns(services, available, n, now)
    decreases j - k
  {
    if k == j then []
    else
      assert TurnReturns(services, available, k, now);
      Notices(Answered(services, available, k, now), nmr) + SentUntil(services, nmr, available, k + 1, j, now)
  }

  /** Turn `k` of the pass does not return. */
  lemma LastTurn(services: Services, nmr: nat, available: seq<Service>, k: nat, now: Timespec, late: seq<RequestRecord>)
    requires k < |available| && Located(services, available) && late == Answered(services, available, k, now)
    requires !TurnReturns(services, available, k, now)
    ensures SweepFrom(Trimmed(services, available, k, now), nmr, available, k, now)
         == Broken(Stop(nmr, k in services, late).0, Stop(nmr, k in services, late).1)
  {
    var trimmed := Trimmed(services, available, k, now);
    TrimmedOnce(services, available, k, now, late);
    TurnEffect(trimmed, nmr, k, trimmed[available[k]].requests, now);
    TurnStops(trimmed, nmr, k, trimmed[available[k]].requests, now);
  }

  /** Turn `k` returns, and a later one does not. */
  lemma TurnThenFault(services: Services, nmr: nat, available: seq<Service>, k: nat, now: Timespec,
                      late: seq<RequestRecord>, fault: Fault, out: seq<Output>)
    requires k < |available| && Located(services, available) && late == Answered(services, available, k, now)
    requires TurnReturns(services, available, k, now)
    requires SweepFrom(Trimmed(services, available, k + 1, now), nmr, available, k + 1, now) == Broken(fault, out)
    ensures SweepFrom(Trimmed(services, available, k, now), nmr, available, k, now)
         == Broken(fault, Notices(late, nmr) + out)
  {
    var trimmed := Trimmed(services, available, k, now);
    TrimmedOnce(services, available, k, now, late);
    TurnEffect(trimmed, nmr, k, trimmed[available[k]].requests, now);
  }

  lemma {:induction false} PassStops(services: Services, nmr: nat, available: seq<Service>, k: nat, now: Timespec)
      returns (j: nat)
    requires k <= |available| && Located(services, available) && !Returns(services, available, k, now)
    ensures k <= j < |available| && !TurnReturns(services, available, j, now)
    ensures forall n :: k <= n < j ==> TurnReturns(services, available, n, now)
    ensures var stop := Stop(nmr, j in services, Answered(services, available, j, now));
            SweepFrom(Trimmed(services, available, k, now), nmr, available, k, now)
            == Broken(stop.0, SentUntil(services, nmr, available, k, j, now) + stop.1)
    decreases |available| - k
  {
    var late := Answered(services, available, k, now);
    if TurnReturns(services, available, k, now) {
      j := PassStops(services, nmr, available, k + 1, now);
      var stop := Stop(nmr, j in services, Answered(services, available, j, now));
      var rest := SentUntil(services, nmr, available, k + 1, j, now);
      TurnThenFault(services, nmr, available, k, now, late, stop.0, rest + stop.1);
      assert Notices(late, nmr) + (rest + stop.1) == (Notices(late, nmr) + rest) + stop.1;
    } else {
      j := k;
      LastTurn(services, nmr, available, k, now, late);
      assert [] + Stop(nmr, k in services, late).1 == Stop(nmr, k in services, late).1;
    }
  }

  /**
   * A deadline pass that does not return stops in its first turn that does not, with the fault of that turn,
   * after the answers of all turns before it and those of that turn up to there.
   */
  lemma AnyPassStops(b: Broker, now: Timespec)
    requires Valid(b) && CheckPendingRequests(b, now).Failed?
    ensures Located(b.services, b.available)
    ensures exists j ::
              && 0 <= j < |b.available| && !TurnReturns(b.services, b.available, j, now)
              && (forall n :: 0 <= n < j ==> TurnReturns(b.services, b.available, n, now))
              && var stop := Stop(b.nmr, j in b.services, Answered(b.services, b.available, j, now));
                 CheckPendingRequests(b, now)
                 == Failed(stop.0, SentUntil(b.services, b.nmr, b.available, 0, j, now) + stop.1)
  {
    AnyPass(b, now);
    assert Trimmed(b.services, b.available, 0, now) == b.services;
    var j := PassStops(b.services, b.nmr, b.available, 0, now);
  }
}
