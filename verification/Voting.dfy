/** The majority voter, and why deciding early is the same as waiting for every copy. */
module Voting {
  import opened Common

  newtype uint8 = x: int | 0 <= x < 0x100

  /** What a client is told. */
  datatype Verdict = Available(value: int) | NotReliable | NotAvailable

  /** How many of the results equal `v`. */
  function Votes(values: seq<int>, v: int): nat {
    multiset(values)[v]
  }

  predicate HasMajority(values: seq<int>, nmr: nat, v: int) {
    Votes(values, v) > nmr / 2
  }

  /** The first index, among the first `n`, whose value has the most votes in the whole list. */
  function Leader(values: seq<int>, n: nat): (m: nat)
    requires 0 < n <= |values|
    ensures m < n
    ensures forall j :: 0 <= j < n ==> Votes(values, values[j]) <= Votes(values, values[m])
    ensures forall j :: 0 <= j < m ==> Votes(values, values[j]) < Votes(values, values[m])
  {
    if n == 1 then 0
    else
      var m := Leader(values, n - 1);
      if Votes(values, values[n - 1]) > Votes(values, values[m]) then n - 1 else m
  }

  /** A `uint8_t` returned as an `int8_t`. */
  function AsInt8(x: nat): int
    requires x < UINT8_SIZE
  {
    if x < 128 then x else x - 256
  }

  /** The value the voter lets its caller see: a negative index reads as no majority. */
  function Elect(values: seq<int>, nmr: nat): Option<int>
    requires |values| < UINT8_SIZE
  {
    if values == [] then None
    else
      var m := Leader(values, |values|);
      if Votes(values, values[m]) > nmr / 2 && AsInt8(m) >= 0 then Some(values[m]) else None
  }

  /** The voter's first loop nest: how often each value occurs in the list. */
  method CountVotes(values: seq<int>) returns (count: seq<uint8>)
    requires |values| < UINT8_SIZE
    ensures |count| == |values|
    ensures forall k :: 0 <= k < |count| ==> count[k] as int == Votes(values, values[k])
  {
    count := [];
    var i: uint8 := 0;
    while i as int < |values|
      invariant i as int <= |values| && |count| == i as int
      invariant forall k :: 0 <= k < |count| ==> count[k] as int == Votes(values, values[k])
    {
      count := count + [0];
      var j: uint8 := 0;
      while j as int < |values|
        invariant j as int <= |values| && |count| == i as int + 1
        invariant forall k :: 0 <= k < i as int ==> count[k] as int == Votes(values, values[k])
        invariant count[i] as int == Votes(values[..j], values[i])
      {
        VotesStep(values, j as nat, values[i]);
        VotesBound(values[..j + 1], values[i]);
        if values[i] == values[j] {
          count := count[i := count[i] + 1];
        }
        j := j + 1;
      }
      assert values[..j] == values;
      i := i + 1;
    }
  }

  /**
   * `vote`. Its counters and indices are single bytes: a list of 256 or more results would loop
   * forever, which is what the precondition excludes. `prior` is what `result` held before.
   */
  method Vote(values: seq<int>, nmr: nat, prior: int) returns (ret: int, result: int)
    requires |values| < UINT8_SIZE && nmr < UINT8_SIZE
    ensures ret >= 0 <==> Elect(values, nmr).Some?
    ensures ret >= 0 ==> ret < |values| && result == values[ret] && Elect(values, nmr) == Some(result)
    ensures |values| <= nmr ==>
              (ret >= 0 <==> exists v :: HasMajority(values, nmr, v))
    ensures |values| <= nmr && ret >= 0 ==> HasMajority(values, nmr, result)
    ensures |values| <= nmr && ret < 0 ==> ret == -1 && result == prior
  {
    result := prior;
    var count := CountVotes(values);
    var max: uint8 := 0;
    var i: uint8 := 0;
    while i as int < |count|
      invariant i as int <= |count|
      invariant if i == 0 then max == 0 else max as nat == Leader(values, i as nat)
    {
      if count[i] > count[max] {
        max := i;
      }
      i := i + 1;
    }

    if |values| <= nmr {
      ElectFindsMajority(values, nmr);
    }
    if |count| == 0 {
      return -1, prior;
    }
    if |values| <= nmr {
      LeaderIsSmall(values, nmr);
    }
    if count[max] as int > nmr / 2 {
      result := values[max];
      ret := AsInt8(max as nat);
    } else {
      ret := -1;
    }
  }

  lemma VotesStep(values: seq<int>, k: nat, v: int)
    requires k < |values|
    ensures Votes(values[..k + 1], v) == Votes(values[..k], v) + if values[k] == v then 1 else 0
  {
    assert values[..k + 1] == values[..k] + [values[k]];
  }

  lemma {:induction false} VotesBound(values: seq<int>, v: int)
    ensures Votes(values, v) <= |values|
  {
    if values != [] {
      VotesBound(values[..|values| - 1], v);
      VotesStep(values, |values| - 1, v);
      assert values[..|values|] == values;
    }
  }

  lemma {:induction false} TwoCandidates(values: seq<int>, v: int, w: int)
    requires v != w
    ensures Votes(values, v) + Votes(values, w) <= |values|
  {
    if values != [] {
      TwoCandidates(values[..|values| - 1], v, w);
      VotesStep(values, |values| - 1, v);
      VotesStep(values, |values| - 1, w);
      assert values[..|values|] == values;
    }
  }

  lemma VotesSplit(values: seq<int>, k: nat, v: int)
    requires k <= |values|
    ensures Votes(values, v) == Votes(values[..k], v) + Votes(values[k..], v)
  {
    assert values == values[..k] + values[k..];
  }

  /** A prefix never has more votes for a value than the whole. */
  lemma VotesMonotone(values: seq<int>, k: nat, v: int)
    requires k <= |values|
    ensures Votes(values[..k], v) <= Votes(values, v)
  {
    VotesSplit(values, k, v);
  }

  lemma MajorityIsUnique(values: seq<int>, nmr: nat, v: int, w: int)
    requires |values| <= nmr && HasMajority(values, nmr, v) && HasMajority(values, nmr, w)
    ensures v == w
  {
    if v != w {
      TwoCandidates(values, v, w);
    }
  }

  /**
   * The winning index fits the signed byte for every redundancy a byte can hold: a majority value
   * must first occur in the first half.
   */
  lemma LeaderIsSmall(values: seq<int>, nmr: nat)
    requires 0 < |values| <= nmr < UINT8_SIZE
    ensures var m := Leader(values, |values|);
            HasMajority(values, nmr, values[m]) ==> m < 128
  {
    var m := Leader(values, |values|);
    var v := values[m];
    if HasMajority(values, nmr, v) {
      assert v !in values[..m];
      VotesSplit(values, m, v);
      VotesBound(values[m..], v);
    }
  }

  /** The voter meets its majority specification, in both directions and for every value. */
  lemma ElectFindsMajority(values: seq<int>, nmr: nat)
    requires |values| <= nmr < UINT8_SIZE
    ensures forall v :: Elect(values, nmr) == Some(v) <==> HasMajority(values, nmr, v)
    ensures Elect(values, nmr).None? <==> forall v :: !HasMajority(values, nmr, v)
  {
    if values == [] {
      return;
    }
    LeaderIsSmall(values, nmr);
    var m := Leader(values, |values|);
    forall v
      ensures Elect(values, nmr) == Some(v) <==> HasMajority(values, nmr, v)
    {
      if HasMajority(values, nmr, v) {
        assert v in values;
        var k :| 0 <= k < |values| && values[k] == v;
        MajorityIsUnique(values, nmr, v, values[m]);
      }
    }
  }

  /** Permuting the results does not change what is elected. */
  lemma ElectIgnoresOrder(xs: seq<int>, ys: seq<int>, nmr: nat)
    requires multiset(xs) == multiset(ys) && |xs| <= nmr < UINT8_SIZE
    ensures |ys| == |xs| && Elect(xs, nmr) == Elect(ys, nmr)
  {
    assert |multiset(xs)| == |multiset(ys)|;
    ElectFindsMajority(xs, nmr);
    ElectFindsMajority(ys, nmr);
    if Elect(xs, nmr).Some? {
      assert HasMajority(ys, nmr, Elect(xs, nmr).value);
    }
  }

  /** What the broker does with the results held so far when one more has just come in. */
  function Decide(results: seq<int>, nmr: nat): Option<Verdict>
    requires |results| < UINT8_SIZE
  {
    if |results| > nmr / 2 then
      match Elect(results, nmr)
      case Some(v) => Some(Available(v))
      case None => if |results| == nmr then Some(NotReliable) else None
    else None
  }

  lemma {:induction false} AllAlike(k: nat, v: int)
    ensures Votes(seq(k, _ => v), v) == k
  {
    if k > 0 {
      AllAlike(k - 1, v);
      assert seq(k, _ => v) == seq(k - 1, _ => v) + [v];
    } else {
      assert seq(0, _ => v) == [];
    }
  }

  /** Results that all say the same are decided by the first one past half of the redundancy. */
  lemma UnanimousDecision(k: nat, v: int, nmr: nat)
    requires k <= nmr / 2 + 1 && 0 < nmr < UINT8_SIZE
    ensures Decide(seq(k, _ => v), nmr) == if k <= nmr / 2 then None else Some(Available(v))
  {
    AllAlike(k, v);
    ElectFindsMajority(seq(k, _ => v), nmr);
  }

  /** The verdict reached when the results of `xs` come in one by one, the first `k` being in already. */
  function EarlyVerdict(xs: seq<int>, nmr: nat, k: nat): Option<Verdict>
    requires k <= |xs| < UINT8_SIZE
    decreases |xs| - k
  {
    if k == |xs| then None
    else
      match Decide(xs[..k + 1], nmr)
      case Some(v) => Some(v)
      case None => EarlyVerdict(xs, nmr, k + 1)
  }

  /** One majority count over all the results. */
  ghost function FullVerdict(xs: seq<int>, nmr: nat): Verdict {
    if exists v :: HasMajority(xs, nmr, v) then
      var v :| HasMajority(xs, nmr, v);
      Available(v)
    else NotReliable
  }

  lemma FullVerdictOf(xs: seq<int>, nmr: nat, v: int)
    requires |xs| <= nmr && HasMajority(xs, nmr, v)
    ensures FullVerdict(xs, nmr) == Available(v)
  {
    forall w | HasMajority(xs, nmr, w) ensures w == v {
      MajorityIsUnique(xs, nmr, v, w);
    }
  }

  /**
   * Before a majority forms the broker stays silent, and a prefix majority is the full majority:
   * whatever the order of arrival, the early verdict is the one the full count gives.
   */
  lemma {:induction false} EarlyFromPrefix(xs: seq<int>, nmr: nat, k: nat)
    requires 0 < |xs| == nmr < UINT8_SIZE && k < nmr
    requires forall v :: !HasMajority(xs[..k], nmr, v)
    ensures EarlyVerdict(xs, nmr, k) == Some(FullVerdict(xs, nmr))
    decreases nmr - k
  {
    var pre := xs[..k + 1];
    ElectFindsMajority(pre, nmr);
    match Elect(pre, nmr)
    case Some(v) =>
      VotesBound(pre, v);
      VotesMonotone(xs, k + 1, v);
      FullVerdictOf(xs, nmr, v);
    case None =>
      if k + 1 == nmr {
        assert pre == xs;
      } else {
        EarlyFromPrefix(xs, nmr, k + 1);
      }
  }

  /** Early voting refines full voting, for every list of `nmr` results in every order. */
  lemma EarlyVotingIsFullVoting(xs: seq<int>, nmr: nat)
    requires 0 < |xs| == nmr < UINT8_SIZE
    ensures EarlyVerdict(xs, nmr, 0) == Some(FullVerdict(xs, nmr))
  {
    assert xs[..0] == [];
    EarlyFromPrefix(xs, nmr, 0);
  }

  lemma ArrivalOrderIsIrrelevant(xs: seq<int>, ys: seq<int>, nmr: nat)
    requires 0 < |xs| == nmr < UINT8_SIZE && multiset(xs) == multiset(ys)
    ensures |ys| == nmr && EarlyVerdict(xs, nmr, 0) == EarlyVerdict(ys, nmr, 0)
  {
    assert |multiset(xs)| == |multiset(ys)|;
    EarlyVotingIsFullVoting(xs, nmr);
    EarlyVotingIsFullVoting(ys, nmr);
    if v :| HasMajority(xs, nmr, v) {
      FullVerdictOf(xs, nmr, v);
      FullVerdictOf(ys, nmr, v);
    } else if v :| HasMajority(ys, nmr, v) {
      FullVerdictOf(xs, nmr, v);
    }
  }

  /** A verdict reached early is the one the full count gives, whatever the missing copies would still say. */
  lemma DecisionIsFinal(xs: seq<int>, nmr: nat, ys: seq<int>)
    requires xs <= ys && |ys| == nmr < UINT8_SIZE && Decide(xs, nmr).Some?
    ensures Decide(xs, nmr).value == FullVerdict(ys, nmr)
  {
    ElectFindsMajority(xs, nmr);
    assert xs == ys[..|xs|];
    match Elect(xs, nmr)
    case Some(v) =>
      VotesMonotone(ys, |xs|, v);
      FullVerdictOf(ys, nmr, v);
    case None =>
      assert xs == ys;
  }
}
