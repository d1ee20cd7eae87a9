/** The pending requests of one service: a list of records that grows at the end and shrinks by client. */
module Requests {
  import opened Common
  import opened TimeArithmetic

  datatype RequestRecord = RequestRecord(client: Client, results: seq<int>, timeout: Timespec)

  predicate HasClient(rs: seq<RequestRecord>, c: Client) {
    exists i :: 0 <= i < |rs| && rs[i].client == c
  }

  /** A request of the client with that deadline. */
  ghost predicate HasRecord(rs: seq<RequestRecord>, c: Client, due: Timespec) {
    exists k :: 0 <= k < |rs| && rs[k].client == c && rs[k].timeout == due
  }

  predicate Distinct(rs: seq<RequestRecord>) {
    forall i, j :: 0 <= i < j < |rs| ==> rs[i].client != rs[j].client
  }

  /** Erasing by index while the index still advances: the record after an erased one is not looked at. */
  function Erase(rs: seq<RequestRecord>, c: Client): seq<RequestRecord> {
    if rs == [] then []
    else if rs[0].client != c then [rs[0]] + Erase(rs[1..], c)
    else if |rs| == 1 then []
    else [rs[1]] + Erase(rs[2..], c)
  }

  /** The records of every client but `c`. */
  function Others(rs: seq<RequestRecord>, c: Client): seq<RequestRecord> {
    if rs == [] then []
    else if rs[0].client == c then Others(rs[1..], c)
    else [rs[0]] + Others(rs[1..], c)
  }

  predicate Adjacent(rs: seq<RequestRecord>, c: Client) {
    exists i :: 0 <= i < |rs| - 1 && rs[i].client == c && rs[i + 1].client == c
  }

  /** A result counts for every record of the client, whichever of its requests it answers. */
  function AddResult(rs: seq<RequestRecord>, c: Client, v: int): (out: seq<RequestRecord>)
    ensures |out| == |rs|
  {
    seq(|rs|, i requires 0 <= i < |rs| =>
      if rs[i].client == c then rs[i].(results := rs[i].results + [v]) else rs[i])
  }

  /** The results in the client's last record; none if it has no record. */
  function LastResults(rs: seq<RequestRecord>, c: Client): Option<seq<int>> {
    if rs == [] then None
    else if rs[|rs| - 1].client == c then Some(rs[|rs| - 1].results)
    else LastResults(rs[..|rs| - 1], c)
  }

  // ---- Erasing against filtering

  lemma {:induction false} OthersSplit(xs: seq<RequestRecord>, ys: seq<RequestRecord>, c: Client)
    ensures Others(xs + ys, c) == Others(xs, c) + Others(ys, c)
  {
    if xs == [] {
      assert xs + ys == ys;
    } else {
      OthersSplit(xs[1..], ys, c);
      assert (xs + ys)[0] == xs[0] && (xs + ys)[1..] == xs[1..] + ys;
      assert Others(xs + ys, c) == if xs[0].client == c then Others(xs[1..], c) + Others(ys, c)
                                   else [xs[0]] + (Others(xs[1..], c) + Others(ys, c));
    }
  }

  lemma {:induction false} OthersHasNone(rs: seq<RequestRecord>, c: Client)
    ensures !HasClient(Others(rs, c), c)
    ensures Others(rs, c) == rs <==> !HasClient(rs, c)
    ensures |Others(rs, c)| <= |rs|
  {
    if rs != [] {
      OthersHasNone(rs[1..], c);
      if rs[0].client == c {
        assert |Others(rs, c)| < |rs|;
      } else {
        assert rs == [rs[0]] + rs[1..];
        if HasClient(rs, c) {
          var i :| 0 <= i < |rs| && rs[i].client == c;
          assert rs[1..][i - 1].client == c;
          assert Others(rs, c)[1..] == Others(rs[1..], c);
        }
        if HasClient(rs[1..], c) {
          var i :| 0 <= i < |rs[1..]| && rs[1..][i].client == c;
          assert rs[i + 1].client == c;
        }
      }
    }
  }

  /** Whatever is erased belongs to the client: all other records survive, unchanged and in order. */
  lemma {:induction false} EraseKeepsOthers(rs: seq<RequestRecord>, c: Client)
    ensures Others(Erase(rs, c), c) == Others(rs, c)
    decreases |rs|
  {
    if rs == [] {
    } else if rs[0].client != c {
      EraseKeepsOthers(rs[1..], c);
      OthersSplit([rs[0]], Erase(rs[1..], c), c);
    } else if |rs| > 1 {
      EraseKeepsOthers(rs[2..], c);
      OthersSplit([rs[1]], Erase(rs[2..], c), c);
      assert rs[1..] == [rs[1]] + rs[2..];
      OthersSplit([rs[1]], rs[2..], c);
    }
  }

  lemma AdjacentTail(rs: seq<RequestRecord>, k: nat, c: Client)
    requires k <= |rs| && Adjacent(rs[k..], c)
    ensures Adjacent(rs, c)
  {
    var i :| 0 <= i < |rs[k..]| - 1 && rs[k..][i].client == c && rs[k..][i + 1].client == c;
    assert rs[k + i].client == c && rs[k + i + 1].client == c;
  }

  /** `delete_request` removes all of the client's records exactly when no two of them are neighbours. */
  lemma {:induction false} EraseIsFilterIff(rs: seq<RequestRecord>, c: Client)
    ensures Erase(rs, c) == Others(rs, c) <==> !Adjacent(rs, c)
    decreases |rs|
  {
    OthersHasNone(rs, c);
    if |rs| <= 1 {
    } else if rs[0].client != c {
      EraseIsFilterIff(rs[1..], c);
      assert Erase(rs, c)[1..] == Erase(rs[1..], c) && Others(rs, c)[1..] == Others(rs[1..], c);
      if Adjacent(rs[1..], c) {
        AdjacentTail(rs, 1, c);
      }
      if Adjacent(rs, c) {
        var i :| 0 <= i < |rs| - 1 && rs[i].client == c && rs[i + 1].client == c;
        assert rs[1..][i - 1].client == c && rs[1..][i].client == c;
      }
    } else if rs[1].client == c {
      assert Adjacent(rs, c);
      assert Erase(rs, c)[0].client == c;
    } else {
      EraseIsFilterIff(rs[2..], c);
      assert rs[1..][1..] == rs[2..];
      assert Others(rs, c) == [rs[1]] + Others(rs[2..], c);
      assert Erase(rs, c)[1..] == Erase(rs[2..], c) && Others(rs, c)[1..] == Others(rs[2..], c);
      if Adjacent(rs[2..], c) {
        AdjacentTail(rs, 2, c);
      }
      if Adjacent(rs, c) {
        var i :| 0 <= i < |rs| - 1 && rs[i].client == c && rs[i + 1].client == c;
        assert rs[2..][i - 2].client == c && rs[2..][i - 1].client == c;
      }
    }
  }

  lemma {:induction false} EraseNone(rs: seq<RequestRecord>, c: Client)
    requires !HasClient(rs, c)
    ensures Erase(rs, c) == rs
  {
    if rs != [] {
      assert forall i :: 0 <= i < |rs[1..]| ==> rs[1..][i] == rs[i + 1];
      EraseNone(rs[1..], c);
    }
  }

  /** With distinct clients, erasing is taking out the one record. */
  lemma {:induction false} EraseOne(rs: seq<RequestRecord>, k: nat)
    requires Distinct(rs) && k < |rs|
    ensures Erase(rs, rs[k].client) == rs[..k] + rs[k + 1..]
  {
    if k > 0 {
      EraseOne(rs[1..], k - 1);
      assert rs[..k] + rs[k + 1..] == [rs[0]] + (rs[1..][..k - 1] + rs[1..][k..]);
    } else if |rs| > 1 {
      assert forall i :: 0 <= i < |rs[2..]| ==> rs[2..][i] == rs[i + 2];
      EraseNone(rs[2..], rs[0].client);
      assert rs[..0] + rs[1..] == [rs[1]] + rs[2..];
    }
  }

  // ---- Results of the one record of a client

  lemma {:induction false} LastResultsOf(rs: seq<RequestRecord>, k: nat)
    requires Distinct(rs) && k < |rs|
    ensures LastResults(rs, rs[k].client) == Some(rs[k].results)
    decreases |rs|
  {
    if k < |rs| - 1 {
      LastResultsOf(rs[..|rs| - 1], k);
    }
  }

  lemma {:induction false} NoResults(rs: seq<RequestRecord>, c: Client)
    requires !HasClient(rs, c)
    ensures LastResults(rs, c).None?
    ensures forall v :: AddResult(rs, c, v) == rs
    decreases |rs|
  {
    if rs != [] {
      var init := rs[..|rs| - 1];
      assert forall i :: 0 <= i < |init| ==> init[i] == rs[i];
      NoResults(init, c);
    }
  }
}
