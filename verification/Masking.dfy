/** Votes with their provenance: how many bad ones a majority can bear. */
module Masking {
  import opened Common
  import opened Voting

  /** The request a message goes back to. */
  datatype Origin = Origin(service: Service, id: nat)

  /** A result counted for a client: the process it came from, the request it answers, its value. */
  datatype Ballot = Ballot(pid: nat, origin: Origin, value: int)

  function Values(vs: seq<Ballot>): (out: seq<int>)
    ensures |out| == |vs|
  {
    seq(|vs|, i requires 0 <= i < |vs| => vs[i].value)
  }

  /** Votes that answer an earlier request of the client. */
  function Stale(vs: seq<Ballot>, o: Origin): nat {
    if vs == [] then 0 else Stale(vs[..|vs| - 1], o) + if vs[|vs| - 1].origin != o then 1 else 0
  }

  /** Votes that are stale or do not carry the honest value. */
  function Bad(vs: seq<Ballot>, o: Origin, honest: int): nat {
    if vs == [] then 0
    else
      var v := vs[|vs| - 1];
      Bad(vs[..|vs| - 1], o, honest) + if v.origin != o || v.value != honest then 1 else 0
  }

  /** No process votes twice on one request id. */
  ghost predicate OneVoteEach(vs: seq<Ballot>) {
    forall i, j :: 0 <= i < j < |vs| ==> vs[i].pid != vs[j].pid || vs[i].origin.id != vs[j].origin.id
  }

  lemma ValuesStep(vs: seq<Ballot>, v: int)
    requires vs != []
    ensures Votes(Values(vs), v) == Votes(Values(vs[..|vs| - 1]), v) + if vs[|vs| - 1].value == v then 1 else 0
  {
    assert Values(vs) == Values(vs[..|vs| - 1]) + [vs[|vs| - 1].value];
  }

  lemma {:induction false} WrongVotesAreBad(vs: seq<Ballot>, o: Origin, honest: int, v: int)
    requires v != honest
    ensures Votes(Values(vs), v) <= Bad(vs, o, honest)
  {
    if vs == [] {
      assert Values(vs) == [];
    } else {
      WrongVotesAreBad(vs[..|vs| - 1], o, honest, v);
      ValuesStep(vs, v);
    }
  }

  lemma {:induction false} GoodVotesCount(vs: seq<Ballot>, o: Origin, honest: int)
    ensures Votes(Values(vs), honest) + Bad(vs, o, honest) >= |vs|
  {
    if vs != [] {
      GoodVotesCount(vs[..|vs| - 1], o, honest);
      ValuesStep(vs, honest);
    }
  }

  /** While at most half of the copies' number are bad, only the honest value can have the majority. */
  lemma MajorityIsHonest(vs: seq<Ballot>, nmr: nat, o: Origin, honest: int, v: int)
    requires Bad(vs, o, honest) <= nmr / 2 && HasMajority(Values(vs), nmr, v)
    ensures v == honest
  {
    if v != honest {
      WrongVotesAreBad(vs, o, honest, v);
    }
  }

  /** Exactly when an elected value is the honest one: at most half of the copies' number voted for another. */
  lemma HonestIffFewWrong(vs: seq<Ballot>, nmr: nat, honest: int, v: int)
    requires |vs| <= nmr && HasMajority(Values(vs), nmr, v)
    ensures v == honest <==> |vs| - Votes(Values(vs), honest) <= nmr / 2
  {
    if v != honest {
      TwoCandidates(Values(vs), v, honest);
    }
  }

  /** Once the good votes outnumber half of the copies, the honest value is elected. */
  lemma HonestMajorityWins(vs: seq<Ballot>, nmr: nat, o: Origin, honest: int)
    requires |vs| <= nmr < UINT8_SIZE && |vs| - Bad(vs, o, honest) > nmr / 2
    ensures Decide(Values(vs), nmr) == Some(Available(honest))
  {
    GoodVotesCount(vs, o, honest);
    ElectFindsMajority(Values(vs), nmr);
    assert HasMajority(Values(vs), nmr, honest);
  }

  /** Bad votes are stale ones or come from faulty processes, each of which has one vote on the request. */
  lemma {:induction false} BadIsStaleOrFaulty(vs: seq<Ballot>, o: Origin, honest: int, faulty: set<nat>)
    requires OneVoteEach(vs)
    requires forall i :: 0 <= i < |vs| && vs[i].origin == o && vs[i].pid !in faulty ==> vs[i].value == honest
    ensures Bad(vs, o, honest) <= Stale(vs, o) + |CurrentFaulty(vs, o, faulty)|
  {
    if vs != [] {
      var init, v := vs[..|vs| - 1], vs[|vs| - 1];
      BadIsStaleOrFaulty(init, o, honest, faulty);
      if v.origin == o && v.pid in faulty {
        forall i | 0 <= i < |init| && init[i].origin == o ensures init[i].pid != v.pid {
          assert vs[i] == init[i];
        }
        assert CurrentFaulty(vs, o, faulty) == CurrentFaulty(init, o, faulty) + {v.pid};
      } else {
        assert CurrentFaulty(vs, o, faulty) == CurrentFaulty(init, o, faulty);
      }
    }
  }

  function CurrentFaulty(vs: seq<Ballot>, o: Origin, faulty: set<nat>): set<nat> {
    set p | p in faulty && exists i :: 0 <= i < |vs| && vs[i].pid == p && vs[i].origin == o
  }

  /** Values that `bad` votes agree on against the honest rest, in the order they come in. */
  function Split(nmr: nat, bad: nat, o: Origin, past: Origin, honest: int, wrong: int): seq<Ballot>
    requires bad <= nmr
  {
    seq(nmr, i requires 0 <= i < nmr => if i < bad then Ballot(i, past, wrong) else Ballot(i, o, honest))
  }

  lemma {:induction false} SplitCounts(nmr: nat, bad: nat, o: Origin, past: Origin, honest: int, wrong: int, k: nat)
    requires bad <= nmr && k <= nmr && wrong != honest && past != o
    ensures var vs := Split(nmr, bad, o, past, honest, wrong)[..k];
            && Bad(vs, o, honest) == (if k < bad then k else bad)
            && Votes(Values(vs), wrong) == (if k < bad then k else bad)
  {
    var all := Split(nmr, bad, o, past, honest, wrong);
    if k > 0 {
      SplitCounts(nmr, bad, o, past, honest, wrong, k - 1);
      assert all[..k][..k - 1] == all[..k - 1];
      ValuesStep(all[..k], wrong);
    } else {
      assert Values(all[..0]) == [];
    }
  }

  /**
   * The bound is tight for every redundancy: with one bad vote more there are ballots, the bad ones all for
   * an earlier request and no two from one process, on which early voting gives the wrong value.
   */
  lemma MaskingIsTight(nmr: nat, bad: nat, o: Origin, past: Origin, honest: int, wrong: int)
    requires nmr < UINT8_SIZE && nmr / 2 < bad <= nmr && wrong != honest && past != o
    ensures var vs := Split(nmr, bad, o, past, honest, wrong);
            && |vs| == nmr && OneVoteEach(vs) && Bad(vs, o, honest) == bad
            && EarlyVerdict(Values(vs), nmr, 0) == Some(Available(wrong))
  {
    var vs := Split(nmr, bad, o, past, honest, wrong);
    SplitCounts(nmr, bad, o, past, honest, wrong, nmr);
    assert vs[..nmr] == vs;
    EarlyVotingIsFullVoting(Values(vs), nmr);
    FullVerdictOf(Values(vs), nmr, wrong);
  }
}
