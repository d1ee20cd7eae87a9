/** Lists in which a client may have several requests: when they stay undecided. */
module Repeats {
  import opened Common
  import opened TimeArithmetic
  import opened Voting
  import opened Requests
  import opened BrokerMachine
  import opened Deadlines
  import opened BrokerRuns
  import opened Snapshots

  /** Results that leave a request waiting: fewer than `nmr`, and no verdict on them. */
  predicate Open(results: seq<int>, nmr: nat)
    requires nmr < UINT8_SIZE
  {
    |results| < nmr && Decide(results, nmr).None?
  }

  predicate EndsIn(xs: seq<int>, ys: seq<int>) {
    |ys| <= |xs| && xs[|xs| - |ys|..] == ys
  }

  /** Of two requests of one client, the earlier one has the results of the later one and more before them. */
  ghost predicate Nested(rs: seq<RequestRecord>) {
    forall i, j :: 0 <= i < j < |rs| && rs[i].client == rs[j].client ==> EndsIn(rs[i].results, rs[j].results)
  }

  /** The results in the client's first record; none if it has no record. */
  function FirstResults(rs: seq<RequestRecord>, c: Client): Option<seq<int>> {
    if rs == [] then None
    else if rs[0].client == c then Some(rs[0].results)
    else FirstResults(rs[1..], c)
  }

  /**
   * The verdict is taken on the client's last request. If there is one, no two of the client's requests may be
   * neighbours, or one of them is left over; if there is none, the first request must stay open as well.
   */
  ghost predicate Guarded(rs: seq<RequestRecord>, c: Client, v: int, nmr: nat)
    requires nmr < UINT8_SIZE
  {
    match (LastResults(rs, c), FirstResults(rs, c))
    case (Some(last), Some(first)) =>
      |last| + 1 < UINT8_SIZE ==>
        if Decide(last + [v], nmr).Some? then !Adjacent(rs, c) else Open(first + [v], nmr)
    case _ => true
  }

  // ---- Voting on fewer of the results

  lemma FewerVotes(xs: seq<int>, ys: seq<int>, v: int)
    requires EndsIn(xs, ys)
    ensures Votes(ys, v) <= Votes(xs, v)
  {
    VotesSplit(xs, |xs| - |ys|, v);
  }

  lemma OpenMeansNoMajority(xs: seq<int>, nmr: nat)
    requires |xs| < nmr < UINT8_SIZE
    ensures Open(xs, nmr) <==> forall v :: !HasMajority(xs, nmr, v)
  {
    ElectFindsMajority(xs, nmr);
    forall v ensures Votes(xs, v) <= |xs| {
      VotesBound(xs, v);
    }
  }

  /** Without its first results an open list is still open. */
  lemma OpenEnds(xs: seq<int>, ys: seq<int>, nmr: nat)
    requires nmr < UINT8_SIZE && EndsIn(xs, ys) && Open(xs, nmr)
    ensures Open(ys, nmr)
  {
    OpenMeansNoMajority(xs, nmr);
    OpenMeansNoMajority(ys, nmr);
    forall v ensures !HasMajority(ys, nmr, v) {
      FewerVotes(xs, ys, v);
      assert !HasMajority(xs, nmr, v);
    }
  }

  // ---- The first and the last record of a client

  lemma {:induction false} LastIs(rs: seq<RequestRecord>, c: Client) returns (k: nat)
    requires HasClient(rs, c)
    ensures k < |rs| && rs[k].client == c && LastResults(rs, c) == Some(rs[k].results)
    ensures forall j :: k < j < |rs| ==> rs[j].client != c
    decreases |rs|
  {
    if rs[|rs| - 1].client == c {
      k := |rs| - 1;
    } else {
      var init := rs[..|rs| - 1];
      assert forall i :: 0 <= i < |init| ==> init[i] == rs[i];
      k := LastIs(init, c);
    }
  }

  lemma {:induction false} FirstIs(rs: seq<RequestRecord>, c: Client) returns (k: nat)
    requires HasClient(rs, c)
    ensures k < |rs| && rs[k].client == c && FirstResults(rs, c) == Some(rs[k].results)
    ensures forall j :: 0 <= j < k ==> rs[j].client != c
  {
    if rs[0].client == c {
      k := 0;
    } else {
      var rest := rs[1..];
      assert forall i :: 0 <= i < |rest| ==> rest[i] == rs[i + 1];
      k := FirstIs(rest, c);
      k := k + 1;
    }
  }

  lemma {:induction false} LastAfterAdd(rs: seq<RequestRecord>, c: Client, v: int)
    requires HasClient(rs, c)
    ensures LastResults(rs, c).Some?
    ensures LastResults(AddResult(rs, c, v), c) == Some(LastResults(rs, c).value + [v])
    decreases |rs|
  {
    var added, init := AddResult(rs, c, v), rs[..|rs| - 1];
    if rs[|rs| - 1].client != c {
      assert forall i :: 0 <= i < |init| ==> init[i] == rs[i];
      assert HasClient(init, c);
      LastAfterAdd(init, c, v);
      assert added[..|rs| - 1] == AddResult(init, c, v);
    }
  }

  // ---- What keeps the results nested

  lemma NestedAppend(rs: seq<RequestRecord>, r: RequestRecord)
    requires Nested(rs) && r.results == []
    ensures Nested(rs + [r])
  {
  }

  lemma NestedAdd(rs: seq<RequestRecord>, c: Client, v: int)
    requires Nested(rs)
    ensures Nested(AddResult(rs, c, v))
  {
    var added := AddResult(rs, c, v);
    forall i, j | 0 <= i < j < |rs| && added[i].client == added[j].client
      ensures EndsIn(added[i].results, added[j].results)
    {
      assert EndsIn(rs[i].results, rs[j].results);
    }
  }

  lemma NestedPrepend(r: RequestRecord, rs: seq<RequestRecord>, rs': seq<RequestRecord>)
    requires Nested([r] + rs) && Nested(rs') && forall q :: q in rs' ==> q in rs
    ensures Nested([r] + rs')
  {
    var all := [r] + rs;
    forall j | 0 <= j < |rs'| && rs'[j].client == r.client ensures EndsIn(r.results, rs'[j].results) {
      assert rs'[j] in rs;
      var k :| 0 <= k < |rs| && rs[k] == rs'[j];
      assert all[0] == r && all[k + 1] == rs[k];
    }
  }

  lemma NestedTail(rs: seq<RequestRecord>, k: nat)
    requires Nested(rs) && k <= |rs|
    ensures Nested(rs[k..])
  {
    assert forall i :: 0 <= i < |rs[k..]| ==> rs[k..][i] == rs[k + i];
  }

  lemma {:induction false} NestedErase(rs: seq<RequestRecord>, c: Client)
    requires Nested(rs)
    ensures Nested(Erase(rs, c))
    decreases |rs|
  {
    if rs == [] {
    } else if rs[0].client != c {
      NestedTail(rs, 1);
      NestedErase(rs[1..], c);
      EraseSubset(rs[1..], c);
      assert rs == [rs[0]] + rs[1..];
      NestedPrepend(rs[0], rs[1..], Erase(rs[1..], c));
    } else if |rs| > 1 {
      NestedTail(rs, 1);
      NestedTail(rs, 2);
      NestedErase(rs[2..], c);
      EraseSubset(rs[2..], c);
      assert rs[1..] == [rs[1]] + rs[2..];
      NestedPrepend(rs[1], rs[2..], Erase(rs[2..], c));
    }
  }

  lemma {:induction false} NestedEraseEach(rs: seq<RequestRecord>, late: seq<RequestRecord>)
    requires Nested(rs)
    ensures Nested(EraseEach(rs, late))
    decreases |late|
  {
    if late != [] {
      NestedErase(rs, late[0].client);
      NestedEraseEach(Erase(rs, late[0].client), late[1..]);
    }
  }

  // ---- What keeps the deadlines sorted

  lemma SortedPrepend(r: RequestRecord, rs: seq<RequestRecord>, rs': seq<RequestRecord>)
    requires SortedByDeadline([r] + rs) && SortedByDeadline(rs') && forall q :: q in rs' ==> q in rs
    ensures SortedByDeadline([r] + rs')
  {
    var all := [r] + rs;
    assert all[0] == r;
    forall j | 0 <= j < |rs'| ensures Total(r.timeout) <= Total(rs'[j].timeout) {
      assert rs'[j] in rs;
      var k :| 0 <= k < |rs| && rs[k] == rs'[j];
      assert all[k + 1] == rs[k];
    }
  }

  lemma SortedTail(rs: seq<RequestRecord>, k: nat)
    requires SortedByDeadline(rs) && k <= |rs|
    ensures SortedByDeadline(rs[k..])
  {
    assert forall i :: 0 <= i < |rs[k..]| ==> rs[k..][i] == rs[k + i];
  }

  lemma {:induction false} SortedErase(rs: seq<RequestRecord>, c: Client)
    requires SortedByDeadline(rs)
    ensures SortedByDeadline(Erase(rs, c))
    decreases |rs|
  {
    if rs == [] {
    } else if rs[0].client != c {
      SortedTail(rs, 1);
      SortedErase(rs[1..], c);
      EraseSubset(rs[1..], c);
      assert rs == [rs[0]] + rs[1..];
      SortedPrepend(rs[0], rs[1..], Erase(rs[1..], c));
    } else if |rs| > 1 {
      SortedTail(rs, 1);
      SortedTail(rs, 2);
      SortedErase(rs[2..], c);
      EraseSubset(rs[2..], c);
      assert rs[1..] == [rs[1]] + rs[2..];
      SortedPrepend(rs[1], rs[2..], Erase(rs[2..], c));
    }
  }

  lemma {:induction false} SortedEraseEach(rs: seq<RequestRecord>, late: seq<RequestRecord>)
    requires SortedByDeadline(rs)
    ensures SortedByDeadline(EraseEach(rs, late))
    decreases |late|
  {
    if late != [] {
      SortedErase(rs, late[0].client);
      SortedEraseEach(Erase(rs, late[0].client), late[1..]);
    }
  }

  lemma SortedAdd(rs: seq<RequestRecord>, c: Client, v: int)
    requires SortedByDeadline(rs)
    ensures SortedByDeadline(AddResult(rs, c, v))
  {
    assert forall i :: 0 <= i < |rs| ==> AddResult(rs, c, v)[i].timeout == rs[i].timeout;
  }

  // ---- A reply

  /** The client's list after a result has been counted for it. */
  function AfterCount(rs: seq<RequestRecord>, c: Client, v: int, nmr: nat): seq<RequestRecord> {
    var added := AddResult(rs, c, v);
    match LastResults(added, c)
    case Some(values) =>
      if |values| < UINT8_SIZE && Decide(values, nmr).Some? then Erase(added, c) else added
    case None => added
  }

  lemma ReplyCounts(b: Broker, s: Service, c: Client, v: int)
    requires s in b.services && GetResponse(b, s, c, v, false).Ok?
    ensures var o := GetResponse(b, s, c, v, false);
            && o.state == Settle(b, s, AfterCount(b.services[s].requests, c, v, b.nmr))
            && (forall a :: a in o.out ==> a.Answer? && a.client == c)
            && (o.out == [] ==> o.state == Settle(b, s, AddResult(b.services[s].requests, c, v)))
  {
    var rs := b.services[s].requests;
    var b' := Settle(b, s, AddResult(rs, c, v));
    var after := AfterCount(rs, c, v, b.nmr);
    assert Settle(b', s, after) == Settle(b, s, after);
  }

  lemma AddedClients(rs: seq<RequestRecord>, c: Client, v: int)
    ensures forall d :: Adjacent(AddResult(rs, c, v), d) <==> Adjacent(rs, d)
    ensures forall d :: HasClient(AddResult(rs, c, v), d) <==> HasClient(rs, d)
    ensures Distinct(AddResult(rs, c, v)) <==> Distinct(rs)
  {
    var added := AddResult(rs, c, v);
    assert forall i :: 0 <= i < |rs| ==> added[i].client == rs[i].client;
    forall d ensures Adjacent(added, d) <==> Adjacent(rs, d) {
      if i :| 0 <= i < |rs| - 1 && rs[i].client == d && rs[i + 1].client == d {
        assert added[i].client == d && added[i + 1].client == d;
      }
      if i :| 0 <= i < |rs| - 1 && added[i].client == d && added[i + 1].client == d {
        assert rs[i].client == d && rs[i + 1].client == d;
      }
    }
    forall d ensures HasClient(added, d) <==> HasClient(rs, d) {
      if i :| 0 <= i < |rs| && rs[i].client == d {
        assert added[i].client == d;
      }
      if i :| 0 <= i < |rs| && added[i].client == d {
        assert rs[i].client == d;
      }
    }
  }

  /** Every record of the client has at least the results of its last one. */
  lemma EndsInLast(rs: seq<RequestRecord>, c: Client, r: RequestRecord)
    requires Nested(rs) && r in rs && r.client == c
    ensures LastResults(rs, c).Some? && EndsIn(r.results, LastResults(rs, c).value)
  {
    HasClientIn(rs, c);
    var k := LastIs(rs, c);
    var i :| 0 <= i < |rs| && rs[i] == r;
  }

  /** After a verdict for the client, what is left of the list is undecided exactly if no request of it is left. */
  lemma ClosedIff(rs: seq<RequestRecord>, rs': seq<RequestRecord>, c: Client, nmr: nat)
    requires nmr < UINT8_SIZE && Nested(rs) && forall r :: r in rs' ==> r in rs
    requires LastResults(rs, c).Some? ==>
               |LastResults(rs, c).value| < UINT8_SIZE && Decide(LastResults(rs, c).value, nmr).Some?
    requires forall r :: r in rs && r.client != c ==> Open(r.results, nmr)
    ensures UndecidedList(rs', nmr) <==> !HasClient(rs', c)
  {
    if i :| 0 <= i < |rs'| && rs'[i].client == c {
      assert rs'[i] in rs;
      EndsInLast(rs, c, rs'[i]);
      if Open(rs'[i].results, nmr) {
        OpenEnds(rs'[i].results, LastResults(rs, c).value, nmr);
      }
    } else {
      forall i | 0 <= i < |rs'| ensures Open(rs'[i].results, nmr) {
        assert rs'[i] in rs && rs'[i].client != c;
      }
    }
  }

  /** No verdict: all of the client's requests stay undecided if and only if the first one does. */
  lemma ExtendedIff(rs: seq<RequestRecord>, c: Client, v: int, nmr: nat)
    requires nmr < UINT8_SIZE && Nested(rs) && UndecidedList(rs, nmr) && HasClient(rs, c)
    ensures FirstResults(rs, c).Some?
    ensures UndecidedList(AddResult(rs, c, v), nmr) <==> Open(FirstResults(rs, c).value + [v], nmr)
  {
    var added := AddResult(rs, c, v);
    var k := FirstIs(rs, c);
    assert added[k].results == rs[k].results + [v];
    NestedAdd(rs, c, v);
    if Open(added[k].results, nmr) {
      forall i | 0 <= i < |added| ensures Open(added[i].results, nmr) {
        if rs[i].client == c {
          assert i >= k;
          assert i > k ==> EndsIn(added[k].results, added[i].results);
          OpenEnds(added[k].results, added[i].results, nmr);
        }
      }
    }
  }

  /** Exactly when a counted result leaves no decided request waiting. */
  lemma CountKeepsUndecidedIff(rs: seq<RequestRecord>, c: Client, v: int, nmr: nat)
    requires nmr < UINT8_SIZE && Nested(rs) && UndecidedList(rs, nmr)
    requires HasClient(rs, c) ==> LastResults(rs, c).Some? && |LastResults(rs, c).value| + 1 < UINT8_SIZE
    ensures UndecidedList(AfterCount(rs, c, v, nmr), nmr) <==> Guarded(rs, c, v, nmr)
  {
    var added := AddResult(rs, c, v);
    if HasClient(rs, c) {
      LastAfterAdd(rs, c, v);
      AddedClients(rs, c, v);
      ExtendedIff(rs, c, v, nmr);
      if Decide(LastResults(added, c).value, nmr).Some? {
        NestedAdd(rs, c, v);
        forall r | r in added && r.client != c ensures Open(r.results, nmr) {
          var i :| 0 <= i < |added| && added[i] == r;
          assert rs[i] == r;
        }
        EraseLeaves(added, c);
        ClosedIff(added, Erase(added, c), c, nmr);
      }
    } else {
      NoResults(rs, c);
    }
  }

  /** With one request per client the guard always holds. */
  lemma DistinctIsGuarded(rs: seq<RequestRecord>, c: Client, v: int, nmr: nat)
    requires 0 < nmr < UINT8_SIZE && Distinct(rs) && UndecidedList(rs, nmr)
    ensures Guarded(rs, c, v, nmr)
  {
    if HasClient(rs, c) {
      var k := FirstIs(rs, c);
      LastResultsOf(rs, k);
      assert Open(rs[k].results, nmr);
    } else {
      NoResults(rs, c);
    }
  }

  // ---- One request per client

  lemma {:induction false} DistinctErase(rs: seq<RequestRecord>, c: Client)
    requires Distinct(rs)
    ensures Distinct(Erase(rs, c))
    decreases |rs|
  {
    if k :| 0 <= k < |rs| && rs[k].client == c {
      EraseOne(rs, k);
    } else {
      EraseNone(rs, c);
    }
  }

  lemma {:induction false} DistinctEraseEach(rs: seq<RequestRecord>, late: seq<RequestRecord>)
    requires Distinct(rs)
    ensures Distinct(EraseEach(rs, late))
    decreases |late|
  {
    if late != [] {
      DistinctErase(rs, late[0].client);
      DistinctEraseEach(Erase(rs, late[0].client), late[1..]);
    }
  }

  lemma DistinctAppendIff(rs: seq<RequestRecord>, r: RequestRecord)
    requires Distinct(rs)
    ensures Distinct(rs + [r]) <==> !HasClient(rs, r.client)
  {
    if i :| 0 <= i < |rs| && rs[i].client == r.client {
      assert (rs + [r])[i].client == (rs + [r])[|rs|].client;
    }
  }
}
