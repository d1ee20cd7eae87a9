/** Liveness slots and copy counters of one service, over every sequence of pongs, checks and re-registrations. */
module Heartbeats {
  import opened Common
  import opened Database

  /** What happens to a service after its first registration. The copy behind a registration is not sent. */
  datatype Beat = Pong(copy: nat) | Check | Again(copy: nat)

  function Apply(r: ServiceRecord, nmr: nat, b: Beat): ServiceRecord
    requires |r.newPong| == |r.lostPong| == nmr
  {
    match b
    case Pong(j) => if j < nmr then r.(newPong := r.newPong[j := true]) else r
    case Check => CheckRecord(r)
    case Again(_) =>
      if r.registered < nmr then
        r.(registered := (r.registered + 1) % UINT8_SIZE, reliable := (r.reliable + 1) % UINT8_SIZE)
      else r
  }

  /** The record after `bs`, starting from the first registration. */
  function Play(r: ServiceRecord, nmr: nat, bs: seq<Beat>): (r': ServiceRecord)
    requires |r.newPong| == |r.lostPong| == nmr
    ensures |r'.newPong| == |r'.lostPong| == nmr
  {
    if bs == [] then r else Apply(Play(r, nmr, bs[..|bs| - 1]), nmr, bs[|bs| - 1])
  }

  function Start(nmr: nat): ServiceRecord {
    FreshRecord(nmr, 0, 0)
  }

  function After(nmr: nat, bs: seq<Beat>): ServiceRecord {
    Play(Start(nmr), nmr, bs)
  }

  // ---- When a copy is written off

  /** Whether copy `j` has ponged since the last check. */
  function Ponged(bs: seq<Beat>, j: nat): bool {
    bs != [] &&
    match bs[|bs| - 1]
    case Check => false
    case Pong(k) => k == j || Ponged(bs[..|bs| - 1], j)
    case Again(_) => Ponged(bs[..|bs| - 1], j)
  }

  /** One entry per check: whether the copy had ponged since the check before. */
  function Rounds(bs: seq<Beat>, j: nat): seq<bool> {
    if bs == [] then []
    else
      var before := bs[..|bs| - 1];
      if bs[|bs| - 1].Check? then Rounds(before, j) + [Ponged(before, j)] else Rounds(before, j)
  }

  /** The number of silent rounds at the end. */
  function Silent(rounds: seq<bool>): nat {
    if rounds == [] || rounds[|rounds| - 1] then 0 else 1 + Silent(rounds[..|rounds| - 1])
  }

  /** A copy that never ponged is given one round more. */
  function Patience(rounds: seq<bool>): nat {
    if true in rounds then LIVENESS else LIVENESS + 1
  }

  function Lost(rounds: seq<bool>): int {
    var n := Silent(rounds) - (Patience(rounds) - LIVENESS);
    if n < LIVENESS then n else LIVENESS
  }

  lemma LostStep(rounds: seq<bool>, ponged: bool)
    ensures Lost(rounds + [ponged]) == CheckSlot(Lost(rounds), ponged)
    ensures -1 <= Lost(rounds) <= LIVENESS
    ensures Silent(rounds + [ponged]) == if ponged then 0 else Silent(rounds) + 1
  {
    var all := rounds + [ponged];
    assert all[..|all| - 1] == rounds;
    assert true in all <==> true in rounds || ponged;
    NeverPonged(rounds);
  }

  lemma {:induction false} NeverPonged(rounds: seq<bool>)
    ensures true !in rounds ==> Silent(rounds) == |rounds|
  {
    if rounds != [] && true !in rounds {
      assert rounds[|rounds| - 1] != true;
      NeverPonged(rounds[..|rounds| - 1]);
    }
  }

  /** In every run a slot is what its own history of pongs and checks says, and stays between -1 and LIVENESS. */
  lemma {:induction false} SlotFollowsHistory(nmr: nat, bs: seq<Beat>, j: nat)
    requires j < nmr
    ensures var r := After(nmr, bs);
            && r.newPong[j] == Ponged(bs, j)
            && r.lostPong[j] == Lost(Rounds(bs, j))
            && -1 <= r.lostPong[j] <= LIVENESS
  {
    LostStep(Rounds(bs, j), false);
    if bs != [] {
      var before := bs[..|bs| - 1];
      SlotFollowsHistory(nmr, before, j);
      if bs[|bs| - 1].Check? {
        LostStep(Rounds(before, j), Ponged(before, j));
      }
    }
  }

  /**
   * A check writes copy `j` off exactly when it ends LIVENESS silent rounds in a row, counted from the
   * copy's last pong, or one more than that if the copy has never ponged.
   */
  lemma WriteOffTiming(nmr: nat, bs: seq<Beat>, j: nat)
    requires j < nmr
    ensures j in Charged(After(nmr, bs)) <==>
            Silent(Rounds(bs + [Check], j)) == Patience(Rounds(bs + [Check], j))
  {
    SlotFollowsHistory(nmr, bs, j);
    var all := bs + [Check];
    assert all[..|all| - 1] == bs;
    var rounds := Rounds(bs, j);
    LostStep(rounds, Ponged(bs, j));
    assert true in rounds + [Ponged(bs, j)] <==> true in rounds || Ponged(bs, j);
  }

  ghost predicate NoPongBetween(bs: seq<Beat>, i: nat, k: nat, j: nat)
    requires i <= k <= |bs|
  {
    forall m :: i <= m < k ==> bs[m] != Pong(j)
  }

  lemma {:induction false} SilenceGrows(bs: seq<Beat>, i: nat, k: nat, j: nat)
    requires i <= k <= |bs| && NoPongBetween(bs, i, k, j) && !Ponged(bs[..i], j)
    ensures !Ponged(bs[..k], j)
    ensures Patience(Rounds(bs[..k], j)) == Patience(Rounds(bs[..i], j))
    ensures Silent(Rounds(bs[..k], j)) >= Silent(Rounds(bs[..i], j))
    decreases k
  {
    if i < k {
      SilenceGrows(bs, i, k - 1, j);
      assert bs[..k][..k - 1] == bs[..k - 1];
      var rounds := Rounds(bs[..k - 1], j);
      LostStep(rounds, false);
      assert true in rounds + [false] <==> true in rounds;
    }
  }

  /** A copy is not written off a second time unless it has ponged in between. */
  lemma NotTwiceWithoutPong(nmr: nat, bs: seq<Beat>, i: nat, k: nat, j: nat)
    requires j < nmr && i < k < |bs| && bs[i] == Check && bs[k] == Check
    requires j in Charged(After(nmr, bs[..i])) && j in Charged(After(nmr, bs[..k]))
    ensures exists m :: i < m < k && bs[m] == Pong(j)
  {
    if NoPongBetween(bs, i + 1, k, j) {
      WriteOffTiming(nmr, bs[..i], j);
      WriteOffTiming(nmr, bs[..k], j);
      assert bs[..i] + [Check] == bs[..i + 1] && bs[..k] + [Check] == bs[..k + 1];
      assert bs[..i + 1][..i] == bs[..i] && bs[..k + 1][..k] == bs[..k];
      SilenceGrows(bs, i + 1, k, j);
      var rounds := Rounds(bs[..k], j);
      LostStep(rounds, false);
      assert false;
    }
  }

  // ---- Counters against slots

  function LiveSlots(r: ServiceRecord): set<nat> {
    set j: nat | j < |r.lostPong| && r.lostPong[j] < LIVENESS
  }

  /** Written-off copies that the next check brings back. */
  function Revived(r: ServiceRecord): set<nat>
    requires |r.newPong| == |r.lostPong|
  {
    set j: nat | j < |r.lostPong| && r.lostPong[j] >= LIVENESS && r.newPong[j]
  }

  function Accepted(nmr: nat, bs: seq<Beat>): nat {
    if bs == [] then 0
    else
      var before := bs[..|bs| - 1];
      Accepted(nmr, before) + if bs[|bs| - 1].Again? && After(nmr, before).registered < nmr then 1 else 0
  }

  function Revivals(nmr: nat, bs: seq<Beat>): nat {
    if bs == [] then 0
    else
      var before := bs[..|bs| - 1];
      Revivals(nmr, before) + if bs[|bs| - 1].Check? then |Revived(After(nmr, before))| else 0
  }

  lemma CheckMovesSets(r: ServiceRecord)
    requires |r.newPong| == |r.lostPong|
    requires forall j :: 0 <= j < |r.lostPong| ==> r.lostPong[j] <= LIVENESS
    ensures LiveSlots(CheckRecord(r)) == LiveSlots(r) - Charged(r) + Revived(r)
    ensures Charged(r) <= LiveSlots(r) && Revived(r) !! LiveSlots(r)
  {
    var r' := CheckRecord(r);
    forall j: nat | j < |r.lostPong|
      ensures j in LiveSlots(r') <==> j in LiveSlots(r) - Charged(r) + Revived(r)
    {
      assert r'.lostPong[j] == CheckSlot(r.lostPong[j], r.newPong[j]);
    }
  }

  lemma CheckMovesSlots(r: ServiceRecord)
    requires |r.newPong| == |r.lostPong|
    requires forall j :: 0 <= j < |r.lostPong| ==> r.lostPong[j] <= LIVENESS
    ensures LiveSlots(CheckRecord(r)) == LiveSlots(r) - Charged(r) + Revived(r)
    ensures Charged(r) <= LiveSlots(r) && Revived(r) !! LiveSlots(r)
    ensures |LiveSlots(CheckRecord(r))| == |LiveSlots(r)| - |Charged(r)| + |Revived(r)|
  {
    CheckMovesSets(r);
    var live, charged, revived := LiveSlots(r), Charged(r), Revived(r);
    assert |live| == |live - charged| + |charged|;
    assert |live - charged + revived| == |live - charged| + |revived|;
  }

  lemma PongMovesNoSlot(r: ServiceRecord, nmr: nat, b: Beat)
    requires |r.newPong| == |r.lostPong| == nmr && !b.Check?
    ensures LiveSlots(Apply(r, nmr, b)) == LiveSlots(r)
  {
    assert Apply(r, nmr, b).lostPong == r.lostPong;
  }

  lemma {:induction false} SetBelow(n: nat, s: set<nat>)
    requires forall j: nat :: j in s <==> j < n
    ensures |s| == n
  {
    if n == 0 {
      assert s == {};
    } else {
      SetBelow(n - 1, s - {n - 1});
    }
  }

  lemma StartIsLive(nmr: nat)
    ensures forall j: nat :: j in LiveSlots(Start(nmr)) <==> j < nmr
    ensures |LiveSlots(Start(nmr))| == nmr
  {
    assert forall j :: 0 <= j < nmr ==> Start(nmr).lostPong[j] == -1;
    SetBelow(nmr, LiveSlots(Start(nmr)));
  }

  lemma SlotRange(nmr: nat, bs: seq<Beat>)
    ensures forall j :: 0 <= j < nmr ==> -1 <= After(nmr, bs).lostPong[j] <= LIVENESS
  {
    forall j | 0 <= j < nmr ensures -1 <= After(nmr, bs).lostPong[j] <= LIVENESS {
      SlotFollowsHistory(nmr, bs, j);
    }
  }

  /** The counters agree with each other and exceed the live slots by `excess`, modulo a byte. */
  predicate Excess(r: ServiceRecord, excess: int) {
    r.registered == r.reliable == (|LiveSlots(r)| + excess) % UINT8_SIZE
  }

  lemma ExcessAfterCheck(r: ServiceRecord, excess: int)
    requires |r.newPong| == |r.lostPong| && Excess(r, excess)
    requires forall j :: 0 <= j < |r.lostPong| ==> r.lostPong[j] <= LIVENESS
    ensures Excess(CheckRecord(r), excess - |Revived(r)|)
  {
    CheckMovesSlots(r);
    Shift(|LiveSlots(r)| + excess, -|Charged(r)|);
  }

  lemma ExcessAfterOther(r: ServiceRecord, nmr: nat, b: Beat, excess: int)
    requires |r.newPong| == |r.lostPong| == nmr && Excess(r, excess) && !b.Check?
    ensures Excess(Apply(r, nmr, b), excess + if b.Again? && r.registered < nmr then 1 else 0)
  {
    PongMovesNoSlot(r, nmr, b);
    Shift(|LiveSlots(r)| + excess, 1);
  }

  lemma Shift(a: int, d: int)
    ensures (a % UINT8_SIZE + d) % UINT8_SIZE == (a + d) % UINT8_SIZE
  {
  }

  /**
   * Without any assumption on the copies: modulo 256, the counters exceed the number of live slots by
   * the re-registrations accepted beyond the first `nmr`, less the copies that came back to life by
   * ponging.
   */
  lemma {:induction false} CounterLaw(nmr: nat, bs: seq<Beat>)
    requires nmr < UINT8_SIZE
    ensures Excess(After(nmr, bs), 1 + Accepted(nmr, bs) - nmr - Revivals(nmr, bs))
  {
    if bs == [] {
      StartIsLive(nmr);
    } else {
      var before, b := bs[..|bs| - 1], bs[|bs| - 1];
      var r := After(nmr, before);
      var excess := 1 + Accepted(nmr, before) - nmr - Revivals(nmr, before);
      CounterLaw(nmr, before);
      if b.Check? {
        SlotRange(nmr, before);
        ExcessAfterCheck(r, excess);
      } else {
        ExcessAfterOther(r, nmr, b, excess);
      }
    }
  }

  /** Live slots, plus the registrations accepted beyond the first `nmr`, less the copies that ponged back to life. */
  function Headcount(nmr: nat, bs: seq<Beat>): int {
    |LiveSlots(After(nmr, bs))| + 1 + Accepted(nmr, bs) - nmr - Revivals(nmr, bs)
  }

  /** No check takes more off a counter than there is. */
  ghost predicate NeverWraps(nmr: nat, bs: seq<Beat>) {
    forall k :: 0 <= k < |bs| && bs[k] == Check ==>
      |Charged(After(nmr, bs[..k]))| <= After(nmr, bs[..k]).registered
  }

  ghost predicate HeadcountHolds(nmr: nat, bs: seq<Beat>) {
    forall k :: 0 <= k <= |bs| ==> Headcount(nmr, bs[..k]) >= 0
  }

  lemma HeadcountStep(nmr: nat, bs: seq<Beat>, b: Beat)
    requires 0 < nmr < UINT8_SIZE
    ensures var r, r' := After(nmr, bs), After(nmr, bs + [b]);
            && (b.Check? ==> Headcount(nmr, bs + [b]) == Headcount(nmr, bs) - |Charged(r)|)
            && (b.Again? && r.registered < nmr ==> Headcount(nmr, bs + [b]) == Headcount(nmr, bs) + 1)
            && (b.Pong? || (b.Again? && r.registered >= nmr) ==> Headcount(nmr, bs + [b]) == Headcount(nmr, bs))
  {
    assert (bs + [b])[..|bs|] == bs;
    if b.Check? {
      SlotRange(nmr, bs);
      CheckMovesSlots(After(nmr, bs));
    } else {
      PongMovesNoSlot(After(nmr, bs), nmr, b);
    }
  }

  /** While the counters are the headcount, a check wraps them exactly if it takes the headcount below zero. */
  lemma WrapStep(nmr: nat, bs: seq<Beat>, b: Beat)
    requires 0 < nmr < UINT8_SIZE
    requires var r := After(nmr, bs);
             r.registered == r.reliable == Headcount(nmr, bs) && 0 <= r.registered <= nmr
    ensures Headcount(nmr, bs + [b]) >= 0 <==> (b.Check? ==> |Charged(After(nmr, bs))| <= After(nmr, bs).registered)
    ensures Headcount(nmr, bs + [b]) >= 0 ==>
              var r := After(nmr, bs + [b]);
              r.registered == r.reliable == Headcount(nmr, bs + [b]) <= nmr
  {
    assert (bs + [b])[..|bs|] == bs;
    HeadcountStep(nmr, bs, b);
  }

  lemma PrefixesOf(bs: seq<Beat>, b: Beat)
    ensures forall k :: 0 <= k <= |bs| ==> (bs + [b])[..k] == bs[..k]
    ensures (bs + [b])[..|bs|] == bs && (bs + [b])[..|bs| + 1] == bs + [b]
  {
  }

  lemma LongerHeadcount(nmr: nat, bs: seq<Beat>, b: Beat)
    requires 0 < nmr < UINT8_SIZE
    ensures HeadcountHolds(nmr, bs + [b]) <==> HeadcountHolds(nmr, bs) && Headcount(nmr, bs + [b]) >= 0
    ensures NeverWraps(nmr, bs + [b]) <==>
            NeverWraps(nmr, bs) && (b.Check? ==> |Charged(After(nmr, bs))| <= After(nmr, bs).registered)
  {
    var all := bs + [b];
    PrefixesOf(bs, b);
    if HeadcountHolds(nmr, all) {
      forall k | 0 <= k <= |bs| ensures Headcount(nmr, bs[..k]) >= 0 {
        assert Headcount(nmr, all[..k]) >= 0;
      }
      assert Headcount(nmr, all[..|bs| + 1]) >= 0;
    }
    if NeverWraps(nmr, all) {
      forall k | 0 <= k < |bs| && bs[k] == Check
        ensures |Charged(After(nmr, bs[..k]))| <= After(nmr, bs[..k]).registered
      {
        assert all[k] == Check;
      }
      assert b.Check? ==> all[|bs|] == Check;
    }
  }

  /**
   * Whatever copies do: no check ever takes more off the counters than there is if and only if the headcount
   * is never negative, and in that case both counters are the headcount, at most `nmr`.
   */
  lemma {:induction false} NeverWrapsIff(nmr: nat, bs: seq<Beat>)
    requires 0 < nmr < UINT8_SIZE
    ensures NeverWraps(nmr, bs) <==> HeadcountHolds(nmr, bs)
    ensures NeverWraps(nmr, bs) ==>
              var r := After(nmr, bs);
              0 <= r.registered == r.reliable == Headcount(nmr, bs) <= nmr
  {
    if bs == [] {
      StartIsLive(nmr);
      assert Headcount(nmr, []) == 1;
      assert forall k :: 0 <= k <= 0 ==> bs[..k] == [];
    } else {
      var before, b := bs[..|bs| - 1], bs[|bs| - 1];
      assert before + [b] == bs;
      NeverWrapsIff(nmr, before);
      LongerHeadcount(nmr, before, b);
      if NeverWraps(nmr, before) {
        WrapStep(nmr, before, b);
      }
    }
  }

  /** Two copies, no pong under way: the slots and the counter after `bs`. */
  ghost predicate At(bs: seq<Beat>, a: int, b: int, n: int) {
    var r := After(2, bs);
    r.newPong == [false, false] && r.lostPong == [a, b] && r.reliable == n
  }

  lemma CheckTwo(r: ServiceRecord, a: int, b: int)
    requires r.newPong == [false, false] && r.lostPong == [a, b]
    ensures CheckRecord(r).lostPong == [CheckSlot(a, false), CheckSlot(b, false)]
    ensures CheckRecord(r).newPong == [false, false]
    ensures |Charged(r)| == (if a == LIVENESS - 1 then 1 else 0) + (if b == LIVENESS - 1 then 1 else 0)
  {
    var hit: set<nat> := (if a == LIVENESS - 1 then {0} else {}) + (if b == LIVENESS - 1 then {1} else {});
    assert Charged(r) == hit;
  }

  lemma AtCheck(bs: seq<Beat>, a: int, b: int, n: int)
    requires At(bs, a, b, n)
    ensures var charged := (if a == LIVENESS - 1 then 1 else 0) + (if b == LIVENESS - 1 then 1 else 0);
            At(bs + [Check], CheckSlot(a, false), CheckSlot(b, false), (n - charged) % UINT8_SIZE)
  {
    assert (bs + [Check])[..|bs|] == bs;
    CheckTwo(After(2, bs), a, b);
  }

  lemma AtRevival(bs: seq<Beat>, n: int)
    requires At(bs, LIVENESS, LIVENESS, n)
    ensures At(bs + [Pong(0)] + [Check], 0, LIVENESS, n % UINT8_SIZE)
  {
    var r := After(2, bs);
    assert (bs + [Pong(0)])[..|bs|] == bs;
    var r' := After(2, bs + [Pong(0)]);
    assert r'.newPong == [true, false];
    assert Charged(r') == {};
    assert (bs + [Pong(0)] + [Check])[..|bs| + 1] == bs + [Pong(0)];
  }

  lemma BothWrittenOff(bs: seq<Beat>)
    requires At(bs, -1, -1, 2)
    ensures At(bs + [Check] + [Check] + [Check] + [Check], LIVENESS, LIVENESS, 0)
  {
    AtCheck(bs, -1, -1, 2);
    AtCheck(bs + [Check], 0, 0, 2);
    AtCheck(bs + [Check] + [Check], 1, 1, 2);
    AtCheck(bs + [Check] + [Check] + [Check], 2, 2, 2);
  }

  lemma FirstWrittenOffAgain(bs: seq<Beat>)
    requires At(bs, 0, LIVENESS, 0)
    ensures At(bs + [Check] + [Check] + [Check], LIVENESS, LIVENESS, 255)
  {
    AtCheck(bs, 0, LIVENESS, 0);
    AtCheck(bs + [Check], 1, LIVENESS, 0);
    AtCheck(bs + [Check] + [Check], 2, LIVENESS, 0);
  }

  /**
   * A written-off copy that pongs without registering again is not counted, and writing it off once
   * more takes the counter of reliable copies below zero.
   */
  lemma UnregisteredPongWraps()
    ensures var silent := [Again(1)] + [Check] + [Check] + [Check] + [Check];
            var revived := silent + [Pong(0)] + [Check];
            After(2, revived + [Check] + [Check] + [Check]).reliable == 255
  {
    assert [Again(1)][..0] == [];
    assert At([Again(1)], -1, -1, 2);
    BothWrittenOff([Again(1)]);
    var silent := [Again(1)] + [Check] + [Check] + [Check] + [Check];
    AtRevival(silent, 0);
    FirstWrittenOffAgain(silent + [Pong(0)] + [Check]);
  }

  // ---- Copies that register again before they pong again

  function Agains(bs: seq<Beat>): nat {
    if bs == [] then 0 else Agains(bs[..|bs| - 1]) + if bs[|bs| - 1].Again? then 1 else 0
  }

  /** All copies have registered once. */
  predicate Ready(nmr: nat, bs: seq<Beat>) {
    Agains(bs) + 1 >= nmr
  }

  /** A check that sees a copy's pong ends the wait for it. */
  function StillAwaiting(r: ServiceRecord, awaiting: set<nat>): set<nat> {
    set j | j in awaiting && !(j < |r.newPong| && r.newPong[j])
  }

  /** Written-off copies that have registered again and whose pong no check has counted yet. */
  function Awaiting(nmr: nat, bs: seq<Beat>): set<nat> {
    if bs == [] then {}
    else
      var before := bs[..|bs| - 1];
      var awaiting := Awaiting(nmr, before);
      match bs[|bs| - 1]
      case Pong(_) => awaiting
      case Check => StillAwaiting(After(nmr, before), awaiting)
      case Again(j) => if Ready(nmr, before) then awaiting + {j} else awaiting
  }

  /**
   * What the next beat may be: no check before the service is ready; afterwards only a written-off copy
   * registers again, once, and it does not pong before it has.
   */
  predicate Orderly(nmr: nat, before: seq<Beat>, b: Beat) {
    var r := After(nmr, before);
    match b
    case Check => Ready(nmr, before)
    case Pong(j) => j < nmr && (r.lostPong[j] < LIVENESS || j in Awaiting(nmr, before))
    case Again(j) =>
      Ready(nmr, before) ==>
        j < nmr && r.lostPong[j] >= LIVENESS && !r.newPong[j] && j !in Awaiting(nmr, before)
  }

  predicate Disciplined(nmr: nat, bs: seq<Beat>) {
    bs == [] || (Disciplined(nmr, bs[..|bs| - 1]) && Orderly(nmr, bs[..|bs| - 1], bs[|bs| - 1]))
  }

  ghost predicate Accounted(nmr: nat, r: ServiceRecord, awaiting: set<nat>, agains: nat) {
    && |r.newPong| == |r.lostPong| == nmr
    && (forall j :: 0 <= j < nmr ==> r.lostPong[j] <= LIVENESS)
    && (forall j :: j in awaiting ==> j < nmr && r.lostPong[j] >= LIVENESS)
    && (forall j :: 0 <= j < nmr && r.newPong[j] && r.lostPong[j] >= LIVENESS ==> j in awaiting)
    && r.registered == r.reliable
    && (agains + 1 < nmr ==> r.registered == agains + 1 && awaiting == {} && |LiveSlots(r)| == nmr)
    && (agains + 1 >= nmr ==> r.registered == |LiveSlots(r)| + |awaiting|)
  }

  lemma {:induction false} Within(s: set<nat>, n: nat)
    requires forall j :: j in s ==> j < n
    ensures |s| <= n
    ensures |s| == n ==> forall j: nat :: j < n ==> j in s
  {
    if n > 0 {
      Within(s - {n - 1}, n - 1);
      if |s| == n {
        assert n - 1 in s;
      }
    } else {
      assert s == {};
    }
  }

  /** Live and awaiting slots are different ones, so together they are at most `nmr`. */
  lemma Headroom(nmr: nat, r: ServiceRecord, awaiting: set<nat>, agains: nat)
    requires Accounted(nmr, r, awaiting, agains)
    ensures |LiveSlots(r)| + |awaiting| <= nmr
    ensures forall j :: 0 <= j < nmr && r.lostPong[j] >= LIVENESS && j !in awaiting ==>
              |LiveSlots(r)| + |awaiting| < nmr
  {
    var all := LiveSlots(r) + awaiting;
    assert LiveSlots(r) !! awaiting;
    assert |all| == |LiveSlots(r)| + |awaiting|;
    Within(all, nmr);
  }

  lemma AwaitingSplit(nmr: nat, r: ServiceRecord, awaiting: set<nat>, agains: nat)
    requires Accounted(nmr, r, awaiting, agains)
    ensures |awaiting| == |StillAwaiting(r, awaiting)| + |Revived(r)|
  {
    var rest := StillAwaiting(r, awaiting);
    assert awaiting == rest + Revived(r) && rest !! Revived(r);
  }

  lemma CheckTakesOff(nmr: nat, r: ServiceRecord, awaiting: set<nat>, agains: nat)
    requires nmr < UINT8_SIZE && Accounted(nmr, r, awaiting, agains) && agains + 1 >= nmr
    ensures CheckRecord(r).registered == CheckRecord(r).reliable == r.registered - |Charged(r)|
  {
    CheckMovesSlots(r);
    Headroom(nmr, r, awaiting, agains);
    assert |LiveSlots(r)| == |LiveSlots(r) - Charged(r)| + |Charged(r)|;
  }

  lemma AccountCheck(nmr: nat, r: ServiceRecord, awaiting: set<nat>, agains: nat)
    requires nmr < UINT8_SIZE && Accounted(nmr, r, awaiting, agains) && agains + 1 >= nmr
    ensures Accounted(nmr, CheckRecord(r), StillAwaiting(r, awaiting), agains)
  {
    CheckMovesSlots(r);
    AwaitingSplit(nmr, r, awaiting, agains);
    CheckTakesOff(nmr, r, awaiting, agains);
  }

  lemma AccountPong(nmr: nat, r: ServiceRecord, awaiting: set<nat>, agains: nat, j: nat)
    requires Accounted(nmr, r, awaiting, agains) && j < nmr && (r.lostPong[j] < LIVENESS || j in awaiting)
    ensures Accounted(nmr, Apply(r, nmr, Pong(j)), awaiting, agains)
  {
    PongMovesNoSlot(r, nmr, Pong(j));
  }

  lemma AccountAgain(nmr: nat, r: ServiceRecord, awaiting: set<nat>, agains: nat, j: nat)
    requires nmr < UINT8_SIZE && Accounted(nmr, r, awaiting, agains)
    requires agains + 1 >= nmr ==> j < nmr && r.lostPong[j] >= LIVENESS && !r.newPong[j] && j !in awaiting
    ensures Accounted(nmr, Apply(r, nmr, Again(j)), if agains + 1 >= nmr then awaiting + {j} else awaiting, agains + 1)
    ensures r.registered < nmr
  {
    PongMovesNoSlot(r, nmr, Again(j));
    Headroom(nmr, r, awaiting, agains);
    if agains + 1 >= nmr {
      assert |awaiting + {j}| == |awaiting| + 1;
    }
  }

  lemma {:induction false} DisciplineAccounts(nmr: nat, bs: seq<Beat>)
    requires 0 < nmr < UINT8_SIZE && Disciplined(nmr, bs)
    ensures Accounted(nmr, After(nmr, bs), Awaiting(nmr, bs), Agains(bs))
  {
    if bs == [] {
      StartIsLive(nmr);
      assert |LiveSlots(Start(nmr))| + |Awaiting(nmr, [])| == nmr;
    } else {
      var before := bs[..|bs| - 1];
      var r, awaiting, agains := After(nmr, before), Awaiting(nmr, before), Agains(before);
      DisciplineAccounts(nmr, before);
      match bs[|bs| - 1]
      case Check => AccountCheck(nmr, r, awaiting, agains);
      case Pong(j) => AccountPong(nmr, r, awaiting, agains, j);
      case Again(j) => AccountAgain(nmr, r, awaiting, agains, j);
    }
  }

  /**
   * With such copies, in every run of a ready service: both counters are the live slots plus the
   * re-registered slots awaiting a pong, at most `nmr`; no check takes more off than there is; and a
   * written-off copy that registers again is never refused.
   */
  lemma CopyAccounting(nmr: nat, bs: seq<Beat>, j: nat)
    requires 0 < nmr < UINT8_SIZE && Disciplined(nmr, bs) && Ready(nmr, bs)
    ensures var r := After(nmr, bs);
            && r.registered == r.reliable == |LiveSlots(r)| + |Awaiting(nmr, bs)| <= nmr
            && |Charged(r)| <= r.registered
            && (Orderly(nmr, bs, Again(j)) ==> r.registered < nmr)
  {
    var r, awaiting := After(nmr, bs), Awaiting(nmr, bs);
    DisciplineAccounts(nmr, bs);
    Headroom(nmr, r, awaiting, Agains(bs));
    CheckMovesSlots(r);
    assert |LiveSlots(r)| == |LiveSlots(r) - Charged(r)| + |Charged(r)|;
    if Orderly(nmr, bs, Again(j)) {
      AccountAgain(nmr, r, awaiting, Agains(bs), j);
    }
  }
}
