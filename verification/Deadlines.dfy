/** What the deadline pass does to the pending requests, for every state with distinct clients. */
module Deadlines {
  import opened Common
  import opened TimeArithmetic
  import opened Requests
  import opened Database
  import opened BrokerMachine

  function Live(rs: seq<RequestRecord>, now: Timespec): seq<RequestRecord> {
    if rs == [] then []
    else if Expired(now, rs[0].timeout) then Live(rs[1..], now)
    else [rs[0]] + Live(rs[1..], now)
  }

  function Late(rs: seq<RequestRecord>, now: Timespec): seq<RequestRecord> {
    if rs == [] then []
    else if Expired(now, rs[0].timeout) then [rs[0]] + Late(rs[1..], now)
    else Late(rs[1..], now)
  }

  predicate Countable(rs: seq<RequestRecord>) {
    forall i :: 0 <= i < |rs| ==> |rs[i].results| < UINT8_SIZE
  }

  function Notices(rs: seq<RequestRecord>, nmr: nat): seq<Output>
    requires Countable(rs)
  {
    seq(|rs|, i requires 0 <= i < |rs| => Answer(rs[i].client, TimeoutVerdict(rs[i], nmr)))
  }

  /** No client waits twice, neither at one service nor at two. */
  ghost predicate UniqueClients(services: Services) {
    && (forall s :: s in services ==> Distinct(services[s].requests))
    && forall s, t, c ::
         s in services && t in services && HasClient(services[s].requests, c) && HasClient(services[t].requests, c)
         ==> s == t
  }

  ghost predicate AllCountable(services: Services) {
    forall s :: s in services ==> Countable(services[s].requests)
  }

  lemma {:induction false} LiveAndLate(rs: seq<RequestRecord>, now: Timespec)
    ensures forall r :: r in Live(rs, now) <==> r in rs && !Expired(now, r.timeout)
    ensures forall r :: r in Late(rs, now) <==> r in rs && Expired(now, r.timeout)
    ensures |Live(rs, now)| + |Late(rs, now)| == |rs|
    ensures Late(rs, now) == [] ==> Live(rs, now) == rs
  {
    if rs != [] {
      LiveAndLate(rs[1..], now);
      assert rs == [rs[0]] + rs[1..];
    }
  }

  lemma HasClientIn(rs: seq<RequestRecord>, c: Client)
    ensures HasClient(rs, c) <==> exists r :: r in rs && r.client == c
  {
    if r :| r in rs && r.client == c {
      var i :| 0 <= i < |rs| && rs[i] == r;
    }
    if i :| 0 <= i < |rs| && rs[i].client == c {
      assert rs[i] in rs;
    }
  }

  lemma LiveSubset(rs: seq<RequestRecord>, now: Timespec, c: Client)
    requires HasClient(Live(rs, now), c)
    ensures HasClient(rs, c)
  {
    LiveAndLate(rs, now);
    HasClientIn(rs, c);
    HasClientIn(Live(rs, now), c);
  }

  lemma {:induction false} LiveDistinct(rs: seq<RequestRecord>, now: Timespec)
    requires Distinct(rs)
    ensures Distinct(Live(rs, now))
  {
    if rs != [] {
      LiveDistinct(rs[1..], now);
      if !Expired(now, rs[0].timeout) {
        var tail := Live(rs[1..], now);
        forall j | 0 <= j < |tail| ensures tail[j].client != rs[0].client {
          LiveAndLate(rs[1..], now);
          assert tail[j] in rs[1..];
          var k :| 0 <= k < |rs[1..]| && rs[1..][k] == tail[j];
          assert rs[k + 1] == tail[j];
        }
      }
    }
  }

  // ---- One service

  lemma EraseMiddle(kept: seq<RequestRecord>, pending: seq<RequestRecord>)
    requires Distinct(kept + pending) && pending != []
    ensures Erase(kept + pending, pending[0].client) == kept + pending[1..]
    ensures Distinct(kept + pending[1..])
  {
    var all := kept + pending;
    EraseOne(all, |kept|);
    assert all[..|kept|] + all[|kept| + 1..] == kept + pending[1..];
  }

  lemma NoticesStep(r: RequestRecord, rest: seq<RequestRecord>, nmr: nat)
    requires |r.results| < UINT8_SIZE && Countable(rest) && Countable([r] + rest)
    ensures Notices([r] + rest, nmr) == [Answer(r.client, TimeoutVerdict(r, nmr))] + Notices(rest, nmr)
  {
  }

  /** The snapshot is of service `i` itself: its expired records are answered and go, the others stay. */
  lemma {:induction false} PassOwn(services: Services, nmr: nat, i: nat, kept: seq<RequestRecord>,
                                   pending: seq<RequestRecord>, now: Timespec)
    requires i in services && services[i].requests == kept + pending
    requires Distinct(kept + pending) && Countable(pending)
    ensures LateCountable(pending, now)
    ensures SweepPending(services, nmr, i, pending, now)
         == Swept(WithRequests(services, i, kept + Live(pending, now)), Notices(Late(pending, now), nmr))
    decreases |pending|
  {
    LateIsCountable(pending, now);
    if pending != [] {
      var r, rest := pending[0], pending[1..];
      LateIsCountable(rest, now);
      if !Expired(now, r.timeout) {
        assert kept + pending == (kept + [r]) + rest;
        PassOwn(services, nmr, i, kept + [r], rest, now);
        assert kept + Live(pending, now) == (kept + [r]) + Live(rest, now);
      } else {
        EraseMiddle(kept, pending);
        PassOwn(WithRequests(services, i, kept + rest), nmr, i, kept, rest, now);
        NoticesStep(r, Late(rest, now), nmr);
      }
    } else {
      assert kept + pending == kept + Live(pending, now) == services[i].requests;
      assert WithRequests(services, i, services[i].requests) == services;
    }
  }

  predicate LateCountable(rs: seq<RequestRecord>, now: Timespec) {
    Countable(Late(rs, now))
  }

  lemma LateIsCountable(rs: seq<RequestRecord>, now: Timespec)
    requires Countable(rs)
    ensures LateCountable(rs, now)
  {
    LiveAndLate(rs, now);
    forall i | 0 <= i < |Late(rs, now)| ensures |Late(rs, now)[i].results| < UINT8_SIZE {
      assert Late(rs, now)[i] in rs;
    }
  }

  /**
   * The snapshot is of some other service: its expired requests are answered, and none of them is deleted.
   * If no service has number `i`, the first answer is the last thing the broker does.
   */
  lemma {:induction false} PassOther(services: Services, nmr: nat, i: nat, pending: seq<RequestRecord>, now: Timespec)
    requires Countable(pending)
    requires i in services ==> forall j :: 0 <= j < |pending| ==> !HasClient(services[i].requests, pending[j].client)
    ensures LateCountable(pending, now)
    ensures SweepPending(services, nmr, i, pending, now)
         == if i in services || Late(pending, now) == [] then Swept(services, Notices(Late(pending, now), nmr))
            else Broken(Exited, Notices(Late(pending, now)[..1], nmr))
    decreases |pending|
  {
    LateIsCountable(pending, now);
    if pending != [] {
      var r, rest := pending[0], pending[1..];
      LateIsCountable(rest, now);
      PassOther(services, nmr, i, rest, now);
      if Expired(now, r.timeout) && i in services {
        EraseNone(services[i].requests, r.client);
        assert WithRequests(services, i, services[i].requests) == services;
        NoticesStep(r, Late(rest, now), nmr);
      }
    }
  }

  // ---- All services

  /** From position `i` on, a service loses its expired records exactly if it sits at its own number. */
  function Purged(services: Services, available: seq<Service>, i: nat, now: Timespec): Services {
    map s | s in services ::
      if i <= s < |available| && available[s] == s
      then services[s].(requests := Live(services[s].requests, now))
      else services[s]
  }

  ghost predicate Located(services: Services, available: seq<Service>) {
    forall k :: 0 <= k < |available| ==> available[k] in services
  }

  function AllNotices(services: Services, nmr: nat, available: seq<Service>, i: nat, now: Timespec): seq<Output>
    requires i <= |available| && Located(services, available) && AllCountable(services)
    decreases |available| - i
  {
    if i == |available| then []
    else
      LateIsCountable(services[available[i]].requests, now);
      Notices(Late(services[available[i]].requests, now), nmr)
      + AllNotices(services, nmr, available, i + 1, now)
  }

  /** What goes out until an expired request is met at a position that is no registered service's number. */
  function NoticesToExit(services: Services, nmr: nat, available: seq<Service>, i: nat, now: Timespec): seq<Output>
    requires i <= |available| && Located(services, available) && AllCountable(services)
    decreases |available| - i
  {
    if i == |available| then []
    else
      var late := Late(services[available[i]].requests, now);
      LateIsCountable(services[available[i]].requests, now);
      if i !in services && late != [] then Notices(late[..1], nmr)
      else Notices(late, nmr) + NoticesToExit(services, nmr, available, i + 1, now)
  }

  /** Some service has an expired request while no service is registered under its position. */
  ghost predicate WillExit(services: Services, available: seq<Service>, i: nat, now: Timespec)
    requires Located(services, available)
  {
    exists k :: i <= k < |available| && k !in services && Late(services[available[k]].requests, now) != []
  }

  /** A list that loses records loses no uniqueness. */
  lemma ShorterListIsUnique(services: Services, s: Service, rs: seq<RequestRecord>)
    requires UniqueClients(services) && s in services && Distinct(rs)
    requires forall c :: HasClient(rs, c) ==> HasClient(services[s].requests, c)
    ensures UniqueClients(WithRequests(services, s, rs))
  {
  }

  lemma LiveIsCountable(rs: seq<RequestRecord>, now: Timespec)
    requires Countable(rs)
    ensures Countable(Live(rs, now))
  {
    LiveAndLate(rs, now);
    forall j | 0 <= j < |Live(rs, now)| ensures |Live(rs, now)[j].results| < UINT8_SIZE {
      assert Live(rs, now)[j] in rs;
    }
  }

  lemma PurgedOnce(services: Services, available: seq<Service>, i: nat, now: Timespec)
    requires i < |available| && i in services && available[i] == i
    ensures Purged(WithRequests(services, i, Live(services[i].requests, now)), available, i + 1, now)
         == Purged(services, available, i, now)
  {
  }

  lemma PurgeOne(services: Services, available: seq<Service>, i: nat, now: Timespec)
    requires i < |available| && i in services && available[i] == i
    requires UniqueClients(services) && AllCountable(services)
    ensures var purged := WithRequests(services, i, Live(services[i].requests, now));
            UniqueClients(purged) && AllCountable(purged)
            && Purged(purged, available, i + 1, now) == Purged(services, available, i, now)
  {
    var rs := services[i].requests;
    LiveDistinct(rs, now);
    LiveIsCountable(rs, now);
    forall c | HasClient(Live(rs, now), c) ensures HasClient(rs, c) {
      LiveSubset(rs, now, c);
    }
    ShorterListIsUnique(services, i, Live(rs, now));
    PurgedOnce(services, available, i, now);
  }

  lemma {:induction false} NoticesFrame(services: Services, services': Services, nmr: nat, available: seq<Service>,
                                        i: nat, now: Timespec)
    requires i <= |available| && Located(services, available) && AllCountable(services)
    requires Located(services', available) && AllCountable(services')
    requires services'.Keys == services.Keys
    requires forall k :: i <= k < |available| ==> services'[available[k]] == services[available[k]]
    ensures AllNotices(services', nmr, available, i, now) == AllNotices(services, nmr, available, i, now)
    ensures NoticesToExit(services', nmr, available, i, now) == NoticesToExit(services, nmr, available, i, now)
    decreases |available| - i
  {
    if i < |available| {
      NoticesFrame(services, services', nmr, available, i + 1, now);
    }
  }

  ghost predicate Effect(services: Services, nmr: nat, available: seq<Service>, i: nat, now: Timespec)
    requires i <= |available| && Located(services, available) && AllCountable(services)
  {
    SweepFrom(services, nmr, available, i, now)
    == if WillExit(services, available, i, now) then Broken(Exited, NoticesToExit(services, nmr, available, i, now))
       else Swept(Purged(services, available, i, now), AllNotices(services, nmr, available, i, now))
  }

  lemma ExitFrame(services: Services, purged: Services, available: seq<Service>, i: nat, now: Timespec)
    requires i < |available| && i in services && purged.Keys == services.Keys
    requires Located(services, available) && Located(purged, available)
    requires forall k :: i < k < |available| ==> purged[available[k]] == services[available[k]]
    ensures WillExit(services, available, i, now) <==> WillExit(purged, available, i + 1, now)
  {
    if k :| i <= k < |available| && k !in services && Late(services[available[k]].requests, now) != [] {
      assert k !in purged && Late(purged[available[k]].requests, now) != [];
    }
    if k :| i + 1 <= k < |available| && k !in purged && Late(purged[available[k]].requests, now) != [] {
      assert k !in services && Late(services[available[k]].requests, now) != [];
    }
  }

  /** The turn of the outer loop at a service that sits at its own number. */
  lemma OwnTurn(services: Services, nmr: nat, available: seq<Service>, i: nat, now: Timespec)
    requires i < |available| && i in services && available[i] == i
    requires Distinct(services[i].requests) && Countable(services[i].requests)
    ensures LateCountable(services[i].requests, now)
    ensures SweepFrom(services, nmr, available, i, now)
         == Then(Notices(Late(services[i].requests, now), nmr),
                 SweepFrom(WithRequests(services, i, Live(services[i].requests, now)), nmr, available, i + 1, now))
  {
    var pending := services[i].requests;
    LateIsCountable(pending, now);
    assert [] + pending == pending && [] + Live(pending, now) == Live(pending, now);
    PassOwn(services, nmr, i, [], pending, now);
  }

  /** What the rest of the pass sees and does is the same before and after service `i` has been purged. */
  lemma OwnFrame(services: Services, nmr: nat, available: seq<Service>, i: nat, now: Timespec, purged: Services)
    requires i < |available| && Located(services, available) && NoRepeats(available) && available[i] == i
    requires UniqueClients(services) && AllCountable(services)
    requires purged == WithRequests(services, i, Live(services[i].requests, now))
    ensures Located(purged, available) && AllCountable(purged)
    ensures Purged(purged, available, i + 1, now) == Purged(services, available, i, now)
    ensures AllNotices(purged, nmr, available, i + 1, now) == AllNotices(services, nmr, available, i + 1, now)
    ensures NoticesToExit(purged, nmr, available, i + 1, now) == NoticesToExit(services, nmr, available, i + 1, now)
    ensures WillExit(services, available, i, now) <==> WillExit(purged, available, i + 1, now)
  {
    PurgeOne(services, available, i, now);
    forall k | i < k < |available| ensures purged[available[k]] == services[available[k]] {
      assert available[k] != available[i];
    }
    NoticesFrame(services, purged, nmr, available, i + 1, now);
    ExitFrame(services, purged, available, i, now);
  }

  lemma EffectOwn(services: Services, nmr: nat, available: seq<Service>, i: nat, now: Timespec)
    requires i < |available| && Located(services, available) && NoRepeats(available) && available[i] == i
    requires UniqueClients(services) && AllCountable(services)
    requires var purged := WithRequests(services, i, Live(services[i].requests, now));
             Located(purged, available) && AllCountable(purged) && Effect(purged, nmr, available, i + 1, now)
    ensures Effect(services, nmr, available, i, now)
  {
    OwnTurn(services, nmr, available, i, now);
    OwnFrame(services, nmr, available, i, now, WithRequests(services, i, Live(services[i].requests, now)));
  }

  lemma EffectOther(services: Services, nmr: nat, available: seq<Service>, i: nat, now: Timespec)
    requires i < |available| && Located(services, available) && NoRepeats(available) && available[i] != i
    requires UniqueClients(services) && AllCountable(services)
    requires Effect(services, nmr, available, i + 1, now)
    ensures Effect(services, nmr, available, i, now)
  {
    var pending := services[available[i]].requests;
    LateIsCountable(pending, now);
    forall j | 0 <= j < |pending| && i in services
      ensures !HasClient(services[i].requests, pending[j].client)
    {
      assert HasClient(pending, pending[j].client);
    }
    PassOther(services, nmr, i, pending, now);
    if i in services || Late(pending, now) == [] {
      assert Purged(services, available, i, now) == Purged(services, available, i + 1, now);
      assert WillExit(services, available, i, now) <==> WillExit(services, available, i + 1, now);
    } else {
      assert WillExit(services, available, i, now);
    }
  }

  /**
   * The deadline pass, completely: it answers every expired request of every available service once,
   * it removes them from the services that sit at their own number only, and it exits exactly when an
   * expired request is found at a position that is no registered service's number, after that request
   * and those before it have been answered.
   */
  lemma {:induction false} SweepEffect(services: Services, nmr: nat, available: seq<Service>, i: nat, now: Timespec)
    requires i <= |available| && Located(services, available) && NoRepeats(available)
    requires UniqueClients(services) && AllCountable(services)
    ensures Effect(services, nmr, available, i, now)
    decreases |available| - i
  {
    if i == |available| {
      assert Purged(services, available, i, now) == services;
    } else if available[i] == i {
      PurgeOne(services, available, i, now);
      SweepEffect(WithRequests(services, i, Live(services[i].requests, now)), nmr, available, i + 1, now);
      EffectOwn(services, nmr, available, i, now);
    } else {
      SweepEffect(services, nmr, available, i + 1, now);
      EffectOther(services, nmr, available, i, now);
    }
  }

  // ---- When the pass does what it is for

  /** Every service with an expired request sits at the position that is its own number. */
  predicate Aligned(b: Broker, now: Timespec)
    requires Located(b.services, b.available)
  {
    forall k :: 0 <= k < |b.available| && Late(b.services[b.available[k]].requests, now) != [] ==> b.available[k] == k
  }

  function WithoutLate(services: Services, now: Timespec): Services {
    map s | s in services :: services[s].(requests := Live(services[s].requests, now))
  }

  /** Requests wait at available services only. */
  ghost predicate OnlyAvailableWait(b: Broker) {
    forall s :: s in b.services && b.services[s].requests != [] ==> s in b.available
  }

  lemma AlignedPurge(b: Broker, now: Timespec)
    requires Valid(b) && UniqueClients(b.services) && OnlyAvailableWait(b) && Aligned(b, now)
    ensures Purged(b.services, b.available, 0, now) == WithoutLate(b.services, now)
    ensures !WillExit(b.services, b.available, 0, now)
  {
    forall s | s in b.services
      ensures Purged(b.services, b.available, 0, now)[s] == WithoutLate(b.services, now)[s]
    {
      LiveAndLate(b.services[s].requests, now);
      if Late(b.services[s].requests, now) != [] {
        var k :| 0 <= k < |b.available| && b.available[k] == s;
      }
    }
  }

  /**
   * The pass answers and removes exactly the expired requests if and only if it finds them at services
   * whose position in the list of available services is their number.
   */
  lemma SweepIsExactIff(b: Broker, now: Timespec)
    requires Valid(b) && UniqueClients(b.services) && AllCountable(b.services) && OnlyAvailableWait(b)
    ensures CheckPendingRequests(b, now)
         == Ok(b.(services := WithoutLate(b.services, now)), AllNotices(b.services, b.nmr, b.available, 0, now))
        <==> Aligned(b, now)
  {
    SweepEffect(b.services, b.nmr, b.available, 0, now);
    if Aligned(b, now) {
      AlignedPurge(b, now);
    } else {
      var k :| 0 <= k < |b.available| && Late(b.services[b.available[k]].requests, now) != [] && b.available[k] != k;
      var s := b.available[k];
      LiveAndLate(b.services[s].requests, now);
      assert Purged(b.services, b.available, 0, now)[s] == b.services[s];
      assert WithoutLate(b.services, now)[s] != b.services[s];
    }
  }

  lemma {:induction false} LateIsNoticed(rs: seq<RequestRecord>, nmr: nat, now: Timespec, r: RequestRecord)
    requires r in rs && Expired(now, r.timeout) && Countable(rs)
    ensures LateCountable(rs, now) && |r.results| < UINT8_SIZE
    ensures Answer(r.client, TimeoutVerdict(r, nmr)) in Notices(Late(rs, now), nmr)
  {
    LateIsCountable(rs, now);
    LiveAndLate(rs, now);
    var j :| 0 <= j < |Late(rs, now)| && Late(rs, now)[j] == r;
    assert Notices(Late(rs, now), nmr)[j] == Answer(r.client, TimeoutVerdict(r, nmr));
  }

  lemma {:induction false} NoticedInAll(services: Services, nmr: nat, available: seq<Service>, i: nat, now: Timespec,
                                        k: nat, r: RequestRecord)
    requires i <= k < |available| && Located(services, available) && AllCountable(services)
    requires r in services[available[k]].requests && Expired(now, r.timeout)
    ensures |r.results| < UINT8_SIZE
    ensures Answer(r.client, TimeoutVerdict(r, nmr)) in AllNotices(services, nmr, available, i, now)
    decreases k - i
  {
    if i == k {
      LateIsNoticed(services[available[k]].requests, nmr, now, r);
    } else {
      NoticedInAll(services, nmr, available, i + 1, now, k, r);
    }
  }

  /** The pass leaves a list as it is, or without its expired records. */
  lemma PurgedKeeps(services: Services, available: seq<Service>, now: Timespec)
    requires UniqueClients(services)
    ensures UniqueClients(Purged(services, available, 0, now))
    ensures AllCountable(services) ==> AllCountable(Purged(services, available, 0, now))
  {
    var services' := Purged(services, available, 0, now);
    forall s | s in services ensures Distinct(Live(services[s].requests, now)) {
      LiveDistinct(services[s].requests, now);
    }
    forall s, c | s in services && HasClient(services'[s].requests, c) ensures HasClient(services[s].requests, c) {
      if services'[s] != services[s] {
        LiveSubset(services[s].requests, now, c);
      }
    }
    forall s | s in services && Countable(services[s].requests) ensures Countable(Live(services[s].requests, now)) {
      LiveIsCountable(services[s].requests, now);
    }
  }

  /** One pass over a request that sits at a service whose position is not its number. */
  lemma MisplacedIsKept(b: Broker, now: Timespec, k: nat, r: RequestRecord, b': Broker, out: seq<Output>)
    requires Valid(b) && UniqueClients(b.services) && AllCountable(b.services)
    requires CheckPendingRequests(b, now) == Ok(b', out)
    requires k < |b.available| && b.available[k] != k && r in b.services[b.available[k]].requests
    ensures Valid(b') && UniqueClients(b'.services) && AllCountable(b'.services)
    ensures b'.nmr == b.nmr && b'.available == b.available && b'.services[b.available[k]] == b.services[b.available[k]]
    ensures |r.results| < UINT8_SIZE
    ensures Expired(now, r.timeout) ==> Answer(r.client, TimeoutVerdict(r, b.nmr)) in out
  {
    SweepKeepsValid(b, now);
    SweepEffect(b.services, b.nmr, b.available, 0, now);
    PurgedKeeps(b.services, b.available, now);
    if Expired(now, r.timeout) {
      NoticedInAll(b.services, b.nmr, b.available, 0, now, k, r);
    }
  }

  /** Deadline passes one after the other, none of which makes the broker exit. */
  ghost predicate Passes(bs: seq<Broker>, nows: seq<Timespec>, outs: seq<seq<Output>>) {
    && |bs| == |nows| + 1 && |outs| == |nows|
    && forall i :: 0 <= i < |nows| ==> Pass(bs, nows, outs, i)
  }

  ghost predicate Pass(bs: seq<Broker>, nows: seq<Timespec>, outs: seq<seq<Output>>, i: nat)
    requires i < |nows| == |outs| && |bs| == |nows| + 1
  {
    CheckPendingRequests(bs[i], nows[i]) == Ok(bs[i + 1], outs[i])
  }

  /** The request still waits after any number of passes, as it was. */
  lemma {:induction false} MisplacedStays(bs: seq<Broker>, nows: seq<Timespec>, outs: seq<seq<Output>>, k: nat,
                                          r: RequestRecord, i: nat)
    requires Passes(bs, nows, outs) && i < |bs|
    requires Valid(bs[0]) && UniqueClients(bs[0].services) && AllCountable(bs[0].services)
    requires k < |bs[0].available| && bs[0].available[k] != k && r in bs[0].services[bs[0].available[k]].requests
    ensures Valid(bs[i]) && UniqueClients(bs[i].services) && AllCountable(bs[i].services)
    ensures bs[i].nmr == bs[0].nmr && bs[i].available == bs[0].available
    ensures bs[i].services[bs[0].available[k]] == bs[0].services[bs[0].available[k]]
  {
    if i > 0 {
      MisplacedStays(bs, nows, outs, k, r, i - 1);
      assert Pass(bs, nows, outs, i - 1);
      MisplacedIsKept(bs[i - 1], nows[i - 1], k, r, bs[i], outs[i - 1]);
    }
  }

  /**
   * What goes wrong elsewhere: a request at a service whose position is not its number is never deleted by
   * deadline passes, however many there are, and each of them after its deadline answers it once more.
   */
  lemma MisplacedIsAnsweredAgain(bs: seq<Broker>, nows: seq<Timespec>, outs: seq<seq<Output>>, k: nat, r: RequestRecord)
    requires Passes(bs, nows, outs)
    requires Valid(bs[0]) && UniqueClients(bs[0].services) && AllCountable(bs[0].services)
    requires k < |bs[0].available| && bs[0].available[k] != k && r in bs[0].services[bs[0].available[k]].requests
    ensures |r.results| < UINT8_SIZE
    ensures forall i :: 0 <= i < |nows| && Expired(nows[i], r.timeout) ==>
              Answer(r.client, TimeoutVerdict(r, bs[0].nmr)) in outs[i]
    ensures bs[0].available[k] in bs[|nows|].services && r in bs[|nows|].services[bs[0].available[k]].requests
  {
    MisplacedStays(bs, nows, outs, k, r, |nows|);
    forall i | 0 <= i < |nows| && Expired(nows[i], r.timeout)
      ensures |r.results| < UINT8_SIZE && Answer(r.client, TimeoutVerdict(r, bs[0].nmr)) in outs[i]
    {
      MisplacedStays(bs, nows, outs, k, r, i);
      assert Pass(bs, nows, outs, i);
      MisplacedIsKept(bs[i], nows[i], k, r, bs[i + 1], outs[i]);
    }
    assert r in bs[0].services[bs[0].available[k]].requests;
  }

  // ---- Expired requests come first

  predicate SortedByDeadline(rs: seq<RequestRecord>) {
    && (forall i :: 0 <= i < |rs| ==> Normalized(rs[i].timeout))
    && forall i, j :: 0 <= i < j < |rs| ==> Total(rs[i].timeout) <= Total(rs[j].timeout)
  }

  /** In a list sorted by deadline the expired requests are a prefix, and what stays is the suffix. */
  lemma {:induction false} ExpiredIsPrefix(rs: seq<RequestRecord>, now: Timespec)
    requires SortedByDeadline(rs) && Normalized(now)
    ensures var k := |Late(rs, now)|;
            k <= |rs| && Late(rs, now) == rs[..k] && Live(rs, now) == rs[k..]
    ensures SortedByDeadline(Live(rs, now))
  {
    if rs != [] {
      ExpiredIsPrefix(rs[1..], now);
      CompareFollowsTotal(now, rs[0].timeout);
      if Expired(now, rs[0].timeout) {
        var k := |Late(rs[1..], now)|;
        assert rs[..k + 1] == [rs[0]] + rs[1..][..k] && rs[k + 1..] == rs[1..][k..];
      } else {
        forall j | 0 <= j < |rs| ensures !Expired(now, rs[j].timeout) {
          CompareFollowsTotal(now, rs[j].timeout);
        }
        LiveAndLate(rs, now);
        assert forall r :: r !in Late(rs, now);
        assert Late(rs, now) == [] && rs[..0] == [] && rs[0..] == rs;
      }
    }
  }
}
