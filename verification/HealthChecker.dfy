/** The ping/pong/restart loop of the two health checkers; they differ only in the poll interval. */
module HealthChecker {

  const HEARTBEAT_LIVENESS := 3

  datatype Checker = Checker(liveness: int, pongArrived: bool, pings: nat, pongs: nat, restarts: nat)

  /** The first ping is sent before the loop. */
  function Init(): Checker {
    Checker(HEARTBEAT_LIVENESS, false, 1, 0, 0)
  }

  /** One poll: it returns either with a pong or by timeout. */
  function Poll(c: Checker, pong: bool): Checker {
    if pong then c.(liveness := HEARTBEAT_LIVENESS, pongArrived := true, pongs := c.pongs + 1)
    else if c.pongArrived then c.(pings := c.pings + 1, pongArrived := false)
    else if c.liveness - 1 == 0 then c.(liveness := HEARTBEAT_LIVENESS, restarts := c.restarts + 1)
    else c.(liveness := c.liveness - 1)
  }

  function After(polls: seq<bool>): Checker {
    if polls == [] then Init() else Poll(After(polls[..|polls| - 1]), polls[|polls| - 1])
  }

  /** The socket delivers a pong only while a ping is unanswered. */
  predicate Feasible(polls: seq<bool>) {
    polls == [] ||
    (Feasible(polls[..|polls| - 1]) && (polls[|polls| - 1] ==> !After(polls[..|polls| - 1]).pongArrived))
  }

  /** The number of timeouts at the end, without a break, that passed while a ping was unanswered. */
  function Quiet(polls: seq<bool>): nat {
    if polls == [] || polls[|polls| - 1] || After(polls[..|polls| - 1]).pongArrived then 0
    else Quiet(polls[..|polls| - 1]) + 1
  }

  class Monitor {
    const interval: nat
    var liveness: int
    var pongArrived: bool
    ghost var pings: nat
    ghost var pongs: nat
    ghost var restarts: nat

    ghost function State(): Checker
      reads this
    {
      Checker(liveness, pongArrived, pings, pongs, restarts)
    }

    constructor (interval: nat)
      ensures State() == Init() && this.interval == interval
    {
      this.interval := interval;
      liveness, pongArrived := HEARTBEAT_LIVENESS, false;
      pings, pongs, restarts := 1, 0, 0;
    }

    /** One round of `step`; `restart` tells whether the monitored process is killed and started anew. */
    method DoPoll(pong: bool) returns (restart: bool)
      modifies this
      ensures State() == Poll(old(State()), pong)
      ensures restart <==> restarts == old(restarts) + 1
    {
      restart := false;
      var timeout := true;
      if pong {
        liveness := HEARTBEAT_LIVENESS;
        timeout := false;
        pongArrived := true;
        pongs := pongs + 1;
      }
      if timeout {
        if pongArrived {
          pings := pings + 1;
          pongArrived := false;
        } else {
          liveness := liveness - 1;
          if liveness == 0 {
            liveness := HEARTBEAT_LIVENESS;
            restarts := restarts + 1;
            restart := true;
          }
        }
      }
    }
  }

  /** In every run at most one ping is unanswered, and the countdown is fixed by the quiet polls. */
  lemma {:induction false} RunInvariant(polls: seq<bool>)
    requires Feasible(polls)
    ensures var c := After(polls);
            && c.pings - c.pongs == (if c.pongArrived then 0 else 1)
            && 1 <= c.liveness <= HEARTBEAT_LIVENESS
            && c.liveness == HEARTBEAT_LIVENESS - Quiet(polls) % HEARTBEAT_LIVENESS
  {
    if polls != [] {
      RunInvariant(polls[..|polls| - 1]);
      AfterPongFull(polls[..|polls| - 1]);
    }
  }

  /** While no ping is unanswered the countdown is at its start. */
  lemma {:induction false} AfterPongFull(polls: seq<bool>)
    ensures After(polls).pongArrived ==> After(polls).liveness == HEARTBEAT_LIVENESS
  {
    if polls != [] {
      AfterPongFull(polls[..|polls| - 1]);
    }
  }

  /** A poll restarts the process exactly when it completes a group of three quiet polls in a row. */
  lemma RestartIff(polls: seq<bool>, pong: bool)
    requires Feasible(polls + [pong])
    ensures var quiet := Quiet(polls + [pong]);
            && After(polls + [pong]).restarts ==
               After(polls).restarts + (if quiet > 0 && quiet % HEARTBEAT_LIVENESS == 0 then 1 else 0)
  {
    var all := polls + [pong];
    assert all[..|all| - 1] == polls;
    RunInvariant(polls);
  }

  lemma Snoc(polls: seq<bool>, pong: bool)
    ensures (polls + [pong])[..|polls|] == polls
    ensures After(polls + [pong]) == Poll(After(polls), pong)
    ensures Feasible(polls + [pong]) ==> Feasible(polls)
    ensures Quiet(polls + [pong]) == if pong || After(polls).pongArrived then 0 else Quiet(polls) + 1
  {
    assert (polls + [pong])[..|polls|] == polls;
  }

  lemma {:induction false} QuietBound(polls: seq<bool>)
    ensures Quiet(polls) <= |polls|
  {
    if polls != [] {
      QuietBound(polls[..|polls| - 1]);
    }
  }

  /** No restart before the third poll. */
  lemma RestartNeedsThreePolls(polls: seq<bool>, pong: bool)
    requires Feasible(polls + [pong]) && After(polls + [pong]).restarts > After(polls).restarts
    ensures |polls| >= 2
  {
    RestartIff(polls, pong);
    QuietBound(polls + [pong]);
  }

  /**
   * Every restart is preceded by three timeouts in a row with a ping unanswered at each, and by no other
   * restart among them.
   */
  lemma RestartNeedsThreeSilentPolls(p: seq<bool>, x: bool, y: bool, z: bool)
    requires Feasible(p + [x] + [y] + [z]) && After(p + [x] + [y] + [z]).restarts > After(p + [x] + [y]).restarts
    ensures !x && !y && !z
    ensures !After(p).pongArrived && !After(p + [x]).pongArrived && !After(p + [x] + [y]).pongArrived
    ensures After(p + [x] + [y]).restarts == After(p).restarts
  {
    Snoc(p, x);
    Snoc(p + [x], y);
    Snoc(p + [x] + [y], z);
    RestartIff(p + [x] + [y], z);
    RestartIff(p + [x], y);
    RestartIff(p, x);
  }

  function Silence(n: nat): seq<bool> {
    seq(n, _ => false)
  }

  /**
   * A restart sends no new ping: if the answer to the outstanding one is lost with the old process, the
   * new process is restarted again every third poll, for ever.
   */
  lemma {:induction false} LostPongRestartsForever(polls: seq<bool>, n: nat)
    requires Feasible(polls) && !After(polls).pongArrived && After(polls).liveness == HEARTBEAT_LIVENESS
    ensures var c := After(polls + Silence(n));
            && c.restarts == After(polls).restarts + n / HEARTBEAT_LIVENESS
            && c.pings == After(polls).pings && !c.pongArrived
            && c.liveness == HEARTBEAT_LIVENESS - n % HEARTBEAT_LIVENESS
  {
    var all := polls + Silence(n);
    if n == 0 {
      assert all == polls;
    } else {
      LostPongRestartsForever(polls, n - 1);
      assert all[..|all| - 1] == polls + Silence(n - 1);
    }
  }
}
