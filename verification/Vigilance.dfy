/** How long a server copy waits for its broker, and everything it does in a round, read off what it met. */
module Vigilance {
  import opened Common
  import opened TimeArithmetic
  import opened Server

  const PATIENCE_NS := (HEARTBEAT_INTERVAL + WCDPING) * 1_000_000

  /**
   * A copy is away from its broker, or on since the last of joining, taking a message and missing a ping, with
   * so many pings missed since it joined.
   */
  datatype Vigil = Away | On(since: Timespec, misses: nat)

  function Hear(v: Vigil, t: Turn): Vigil {
    if v.On? && t.inbox.Some? then On(t.received, v.misses) else v
  }

  predicate Enters(v: Vigil, t: Turn) {
    v.Away? && 0 < t.port < UINT16_SIZE
  }

  function Enter(v: Vigil, t: Turn): Vigil {
    if Enters(v, t) then On(t.joined, 0) else v
  }

  /** The vigil when the round looks at its deadline. */
  function Alert(v: Vigil, t: Turn): Vigil {
    Enter(Hear(v, t), t)
  }

  /**
   * The clock reading at the top of the round lies more than 2500 ms back of nothing heard; exactly 2500 ms
   * count as well when the sum of the nanoseconds is a whole second.
   */
  predicate Overdue(v: Vigil, t: Turn) {
    v.On? &&
    (Total(t.now) > Total(v.since) + PATIENCE_NS
     || (Total(t.now) == Total(v.since) + PATIENCE_NS && v.since.nsec == NSEC / 2))
  }

  /** The third miss loses the broker. */
  predicate Loses(v: Vigil, t: Turn) {
    Overdue(v, t) && v.misses + 1 == LIVENESS
  }

  function Next(v: Vigil, t: Turn): Vigil {
    var w := Alert(v, t);
    if Loses(w, t) then Away else if Overdue(w, t) then On(t.missed, w.misses + 1) else w
  }

  function Keep(ts: seq<Turn>): Vigil {
    if ts == [] then Away else Next(Keep(ts[..|ts| - 1]), ts[|ts| - 1])
  }

  predicate ClocksOk(t: Turn) {
    Normalized(t.now) && Normalized(t.received) && Normalized(t.joined) && Normalized(t.missed)
  }

  ghost predicate AllClocksOk(ts: seq<Turn>) {
    forall i :: 0 <= i < |ts| ==> ClocksOk(ts[i])
  }

  /** The process keeps this vigil. */
  predicate Keeps(s: Server, v: Vigil) {
    && s.regOk == v.On?
    && (v.On? ==> Normalized(v.since) && s.pingLoss == v.misses < LIVENESS
                  && Total(s.deadline) == Total(v.since) + PATIENCE_NS
                  && 0 <= s.deadline.nsec <= NSEC
                  && (s.deadline.nsec == NSEC <==> v.since.nsec == NSEC / 2))
  }

  lemma NewDeadline(since: Timespec)
    requires Normalized(since)
    ensures var d := AddMs(since, PATIENCE);
            && Total(d) == Total(since) + PATIENCE_NS && 0 <= d.nsec <= NSEC
            && (d.nsec == NSEC <==> since.nsec == NSEC / 2)
  {
    AddMsIsExact(since, PATIENCE);
    AddMsRange(since, PATIENCE);
  }

  // ---- One round

  /** What the copy does with a message of the broker that it takes. */
  function Taking(requestId: nat, v: Vigil, t: Turn): seq<Act> {
    if v.Away? || t.inbox.None? then []
    else if t.inbox.value.heartbeat then [PongBroker]
    else if requestId == 0 || t.inbox.value.id == requestId then [Execute(t.inbox.value.id)]
    else [Duplicate]
  }

  /** All that it does in a round, in order. */
  function Doing(requestId: nat, v: Vigil, t: Turn): seq<Act> {
    Taking(requestId, v, t)
    + (if t.checked then [PongChecker] else [])
    + (if Enters(v, t) then [Joined] else [])
    + if Loses(Alert(v, t), t) then [MissedPing, BrokerDead] else if Overdue(Alert(v, t), t) then [MissedPing] else []
  }

  lemma ServeKeeps(s: Server, t: Turn, v: Vigil)
    requires Keeps(s, v) && ClocksOk(t)
    ensures Keeps(Serve(s, t).state, Hear(v, t)) && Serve(s, t).acts == Taking(s.requestId, v, t)
  {
    NewDeadline(t.received);
  }

  lemma JoinKeeps(s: Server, t: Turn, v: Vigil)
    requires Keeps(s, v) && ClocksOk(t)
    ensures Join(s, t).Stopped? <==> v.Away? && t.port == 0
    ensures Join(s, t).Going? ==> Keeps(Join(s, t).state, Enter(v, t))
                                  && Join(s, t).acts == if Enters(v, t) then [Joined] else []
  {
    NewDeadline(t.joined);
  }

  lemma WatchKeeps(s: Server, t: Turn, v: Vigil)
    requires Keeps(s, v) && ClocksOk(t)
    ensures Keeps(Watch(s, t).state,
                  if Loses(v, t) then Away else if Overdue(v, t) then On(t.missed, v.misses + 1) else v)
    ensures Watch(s, t).acts
         == if Loses(v, t) then [MissedPing, BrokerDead] else if Overdue(v, t) then [MissedPing] else []
  {
    NewDeadline(t.missed);
    if v.On? {
      CompareFollowsTotal(t.now, s.deadline);
    }
  }

  lemma RoundKeeps(s: Server, t: Turn, v: Vigil)
    requires Keeps(s, v) && ClocksOk(t)
    ensures Round(s, t).Stopped? <==> v.Away? && t.port == 0
    ensures Round(s, t).Going? ==> Keeps(Round(s, t).state, Next(v, t))
                                   && Round(s, t).acts == Doing(s.requestId, v, t)
  {
    var p := Serve(s, t);
    ServeKeeps(s, t, v);
    JoinKeeps(p.state, t, Hear(v, t));
    if Join(p.state, t).Going? {
      WatchKeeps(Join(p.state, t).state, t, Alert(v, t));
    }
  }

  // ---- Whole lives

  lemma OneTurnMore(deadline: Timespec, ts: seq<Turn>, t: Turn)
    requires Play(Init(deadline), ts + [t]).Going?
    ensures var p := Play(Init(deadline), ts);
            && p.Going? && Round(p.state, t).Going?
            && Play(Init(deadline), ts + [t]) == Going(Round(p.state, t).state, p.acts + Round(p.state, t).acts)
    ensures Keep(ts + [t]) == Next(Keep(ts), t)
  {
    assert (ts + [t])[..|ts|] == ts;
  }

  /** In every life: the copy is registered exactly while its vigil is on, and its deadline and misses follow it. */
  lemma {:induction false} LifeKeepsVigil(deadline: Timespec, ts: seq<Turn>)
    requires Play(Init(deadline), ts).Going? && AllClocksOk(ts)
    ensures Keeps(Play(Init(deadline), ts).state, Keep(ts))
  {
    if ts != [] {
      var before, t := ts[..|ts| - 1], ts[|ts| - 1];
      assert ts == before + [t];
      OneTurnMore(deadline, before, t);
      LifeKeepsVigil(deadline, before);
      RoundKeeps(Play(Init(deadline), before).state, t, Keep(before));
    }
  }

  /**
   * In every life, all that one more round makes the copy do: what it does with the message it takes, the reply
   * to its checker, joining, and missing a ping. It misses one exactly if it is registered when the round comes
   * to the deadline and 2500 ms have passed since it last joined, took a message or missed a ping; the third
   * miss since it joined declares the broker dead.
   */
  lemma RoundInLife(deadline: Timespec, ts: seq<Turn>, t: Turn)
    requires Play(Init(deadline), ts + [t]).Going? && AllClocksOk(ts + [t])
    ensures Play(Init(deadline), ts).Going?
    ensures var id := ExpectedAfter(0, Delivered(Init(deadline), ts));
            Play(Init(deadline), ts + [t]).acts == Play(Init(deadline), ts).acts + Doing(id, Keep(ts), t)
  {
    OneTurnMore(deadline, ts, t);
    assert ClocksOk((ts + [t])[|ts|]);
    assert forall i :: 0 <= i < |ts| ==> (ts + [t])[i] == ts[i];
    LifeKeepsVigil(deadline, ts);
    LifeFollowsTracking(deadline, ts);
    RoundKeeps(Play(Init(deadline), ts).state, t, Keep(ts));
  }

  /** A life ends exactly in a round that finds the copy away and its registration refused. */
  lemma StopsIff(deadline: Timespec, ts: seq<Turn>, t: Turn)
    requires Play(Init(deadline), ts).Going? && AllClocksOk(ts) && ClocksOk(t)
    ensures Play(Init(deadline), ts + [t]).Stopped? <==> Keep(ts).Away? && t.port == 0
  {
    assert (ts + [t])[..|ts|] == ts;
    LifeKeepsVigil(deadline, ts);
    RoundKeeps(Play(Init(deadline), ts).state, t, Keep(ts));
  }

  // ---- A broker that is heard of often enough

  /** The last of joining and taking a message, once the copy has joined. */
  function LastSign(ts: seq<Turn>): Option<Timespec> {
    if ts == [] then None else SignAfter(LastSign(ts[..|ts| - 1]), ts[|ts| - 1])
  }

  function SignAfter(sign: Option<Timespec>, t: Turn): Option<Timespec> {
    if sign.Some? && t.inbox.Some? then Some(t.received)
    else if sign.None? && 0 < t.port < UINT16_SIZE then Some(t.joined)
    else sign
  }

  /** No round begins 2500 ms or more after the last sign of the broker. */
  ghost predicate HeardOften(ts: seq<Turn>) {
    forall n :: 0 <= n < |ts| ==> HeardInTime(ts[n], LastSign(ts[..n + 1]))
  }

  predicate HeardInTime(t: Turn, sign: Option<Timespec>) {
    sign.Some? ==> Total(t.now) < Total(sign.value) + PATIENCE_NS
  }

  lemma HeardBefore(ts: seq<Turn>)
    requires ts != [] && HeardOften(ts)
    ensures HeardOften(ts[..|ts| - 1])
    ensures HeardInTime(ts[|ts| - 1], LastSign(ts))
  {
    var before := ts[..|ts| - 1];
    forall n | 0 <= n < |before| ensures HeardInTime(before[n], LastSign(before[..n + 1])) {
      assert before[..n + 1] == ts[..n + 1];
    }
    assert ts[..|ts| - 1 + 1] == ts;
  }

  /** A copy that hears of its broker often enough misses nothing, and its vigil is what it has heard. */
  lemma {:induction false} NeverOverdue(ts: seq<Turn>)
    requires HeardOften(ts)
    ensures Keep(ts) == match LastSign(ts) case Some(since) => On(since, 0) case None => Away
    ensures ts != [] ==> !Overdue(Alert(Keep(ts[..|ts| - 1]), ts[|ts| - 1]), ts[|ts| - 1])
  {
    if ts != [] {
      HeardBefore(ts);
      NeverOverdue(ts[..|ts| - 1]);
    }
  }

  lemma QuietRound(requestId: nat, v: Vigil, t: Turn)
    requires !Overdue(Alert(v, t), t)
    ensures MissedPing !in Doing(requestId, v, t) && BrokerDead !in Doing(requestId, v, t)
  {
  }

  /** A copy that takes a message from its broker at least every 2500 ms never declares it dead. */
  lemma {:induction false} HeardIsNeverDead(deadline: Timespec, ts: seq<Turn>)
    requires Play(Init(deadline), ts).Going? && AllClocksOk(ts) && HeardOften(ts)
    ensures MissedPing !in Play(Init(deadline), ts).acts && BrokerDead !in Play(Init(deadline), ts).acts
    ensures Play(Init(deadline), ts).state.regOk <==> LastSign(ts).Some?
  {
    NeverOverdue(ts);
    LifeKeepsVigil(deadline, ts);
    if ts != [] {
      var before, t := ts[..|ts| - 1], ts[|ts| - 1];
      assert ts == before + [t];
      HeardBefore(ts);
      OneTurnMore(deadline, before, t);
      HeardIsNeverDead(deadline, before);
      RoundInLife(deadline, before, t);
      QuietRound(ExpectedAfter(0, Delivered(Init(deadline), before)), Keep(before), t);
    }
  }

  // ---- Pings

  /** The ping ids that a process takes in while registered. */
  function PingsTaken(s: Server, ts: seq<Turn>): seq<nat> {
    if ts == [] then []
    else
      match Play(s, ts[..|ts| - 1])
      case Stopped => []
      case Going(s', _) => PingsTaken(s, ts[..|ts| - 1]) + PingTaken(s', ts[|ts| - 1])
  }

  function PingTaken(s: Server, t: Turn): seq<nat> {
    if s.regOk && t.inbox.Some? && t.inbox.value.heartbeat then [t.inbox.value.id] else []
  }

  lemma RoundTracksPings(s: Server, t: Turn)
    requires Round(s, t).Going?
    ensures Round(s, t).state.pingId == ExpectedAfter(s.pingId, PingTaken(s, t))
  {
    if PingTaken(s, t) != [] {
      OneDelivery(s.pingId, t.inbox.value.id);
    }
  }

  /** Over a whole life the ping id expected is what id tracking makes of all pings taken in. */
  lemma {:induction false} PingsFollowTracking(deadline: Timespec, ts: seq<Turn>)
    requires Play(Init(deadline), ts).Going?
    ensures Play(Init(deadline), ts).state.pingId == ExpectedAfter(0, PingsTaken(Init(deadline), ts))
  {
    if ts != [] {
      var before, t := ts[..|ts| - 1], ts[|ts| - 1];
      var p := Play(Init(deadline), before);
      PingsFollowTracking(deadline, before);
      RoundTracksPings(p.state, t);
      Split(0, PingsTaken(Init(deadline), before), PingTaken(p.state, t));
    }
  }
}
