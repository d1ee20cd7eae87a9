/**
 * Results are stored by client alone. For every redundancy, a run without any faulty process: the copies
 * answer a first request after its deadline, their replies are counted for the client's second request, and
 * the client is told the first request's value.
 */
module StaleReplies {
  import opened Common
  import opened TimeArithmetic
  import opened Voting
  import opened Requests
  import opened BrokerMachine
  import opened Deadlines
  import opened BrokerRuns
  import opened Masking
  import opened System
  import opened Fleet

  ghost predicate Reached(nmr: nat, body: Bodies, y: Sys) {
    exists ys, acts, outs :: IsSystemRun(nmr, body, {}, ys, acts, outs) && ys[|acts|] == y
  }

  lemma EarlierStep(body: Bodies, ys: seq<Sys>, acts: seq<Act>, outs: seq<seq<Output>>, i: nat,
                    y: Sys, a: Act, out: seq<Output>)
    requires i < |acts| == |outs| && |ys| == |acts| + 1 && SysRunStep(body, {}, ys, acts, outs, i)
    ensures SysRunStep(body, {}, ys + [y], acts + [a], outs + [out], i)
  {
  }

  lemma LastStep(body: Bodies, ys: seq<Sys>, acts: seq<Act>, outs: seq<seq<Output>>, y: Sys, a: Act, out: seq<Output>)
    requires |acts| == |outs| && |ys| == |acts| + 1 && SysStep(body, {}, ys[|acts|], a, out, y)
    ensures SysRunStep(body, {}, ys + [y], acts + [a], outs + [out], |acts|)
  {
  }

  lemma LongerRun(nmr: nat, body: Bodies, ys: seq<Sys>, acts: seq<Act>, outs: seq<seq<Output>>,
                  y: Sys, a: Act, out: seq<Output>)
    requires IsSystemRun(nmr, body, {}, ys, acts, outs)
    requires SysRunStep(body, {}, ys + [y], acts + [a], outs + [out], |acts|)
    ensures IsSystemRun(nmr, body, {}, ys + [y], acts + [a], outs + [out])
  {
    forall i | 0 <= i < |acts| {
      EarlierStep(body, ys, acts, outs, i, y, a, out);
    }
  }

  lemma ReachedNext(nmr: nat, body: Bodies, y: Sys, a: Act, out: seq<Output>, y': Sys)
    requires Reached(nmr, body, y) && SysStep(body, {}, y, a, out, y')
    ensures Reached(nmr, body, y')
  {
    var ys, acts, outs :| IsSystemRun(nmr, body, {}, ys, acts, outs) && ys[|acts|] == y;
    LastStep(body, ys, acts, outs, y', a, out);
    LongerRun(nmr, body, ys, acts, outs, y', a, out);
    assert (ys + [y'])[|acts + [a]|] == y';
  }

  // ---- All copies register and start

  function Idle(nmr: nat, b: Broker, processes: map<nat, Process>): Sys {
    Start(nmr).(x := Session(b, multiset{}, multiset{}), processes := processes)
  }

  lemma {:induction false} CopiesRegister(nmr: nat, body: Bodies, n: nat)
    requires 2 <= nmr < UINT8_SIZE && 0 < n <= nmr
    ensures Reached(nmr, body, Idle(nmr, Registered(nmr, 0, n), map[]))
  {
    var e, out := Registering(0, T0), [RegistrationReply(DEALER_START_PORT)];
    assert AnswersIn(out) == multiset{} by {
      NoAnswers(out);
    }
    if n == 1 {
      assert IsSystemRun(nmr, body, {}, [Start(nmr)], [], []);
      assert Reached(nmr, body, Start(nmr));
      FirstRegisters(nmr, 0);
      ReachedNext(nmr, body, Start(nmr), Internal(e), out, Idle(nmr, Registered(nmr, 0, 1), map[]));
    } else {
      CopiesRegister(nmr, body, n - 1);
      NextRegisters(nmr, 0, n - 1);
      ReachedNext(nmr, body, Idle(nmr, Registered(nmr, 0, n - 1), map[]), Internal(e), out,
                  Idle(nmr, Registered(nmr, 0, n), map[]));
    }
  }

  /** The first `n` processes, none of which has received anything. */
  function Processes(n: nat): (ps: map<nat, Process>)
    ensures forall p: nat :: (p in ps <==> p < n) && (p < n ==> ps[p] == Process(0, 0))
  {
    if n == 0 then map[] else Processes(n - 1)[n - 1 := Process(0, 0)]
  }

  lemma {:induction false} CopiesStart(nmr: nat, body: Bodies, n: nat)
    requires 2 <= nmr < UINT8_SIZE
    ensures Reached(nmr, body, Idle(nmr, Registered(nmr, 0, nmr), Processes(n)))
  {
    var b := Registered(nmr, 0, nmr);
    if n == 0 {
      CopiesRegister(nmr, body, nmr);
    } else {
      CopiesStart(nmr, body, n - 1);
      ReachedNext(nmr, body, Idle(nmr, b, Processes(n - 1)), Spawn(n - 1, 0), [], Idle(nmr, b, Processes(n)));
    }
  }

  // ---- The broker's steps

  /** All copies of service 0 have registered. */
  function Serving(nmr: nat, id: nat, requests: seq<RequestRecord>, timer: Timespec): Broker {
    Registered(nmr, 0, nmr).(services := map[0 := Entry(nmr, nmr, id, requests)], timeouts := [timer])
  }

  lemma ServingIsValid(nmr: nat, id: nat, requests: seq<RequestRecord>, timer: Timespec)
    requires nmr < UINT8_SIZE && id < UINT32_SIZE
    ensures Valid(Serving(nmr, id, requests, timer))
  {
    RegisteredIsValid(nmr, 0, nmr);
  }

  function Forwards(nmr: nat, id: nat, params: string): seq<Output> {
    seq(nmr, _ => Forward(0, 0, id, 0, params))
  }

  lemma Requested(nmr: nat, id: nat, timer: Timespec, params: string, now: Timespec)
    requires 0 < nmr < UINT8_SIZE && id < 2
    ensures Valid(Serving(nmr, id, [], timer))
    ensures Step(Serving(nmr, id, [], timer), Requesting(0, 0, params, now, now))
         == Ok(Serving(nmr, id + 1, [RequestRecord(0, [], AddMs(now, REQUEST_TIMEOUT))],
                       AddMs(now, HEARTBEAT_INTERVAL)),
               Forwards(nmr, id, params))
  {
    ServingIsValid(nmr, id, [], timer);
    var b := Serving(nmr, id, [], timer);
    var r := RequestRecord(0, [], AddMs(now, REQUEST_TIMEOUT));
    assert [] + [r] == [r];
    assert b.services[0 := Entry(nmr, nmr, id + 1, [r])] == map[0 := Entry(nmr, nmr, id + 1, [r])];
    assert Accept(b, 0, 0, now) == Serving(nmr, id + 1, [r], timer);
    assert IndexOf([0], 0) == 0;
    assert [timer][0 := AddMs(now, HEARTBEAT_INTERVAL)] == [AddMs(now, HEARTBEAT_INTERVAL)];
  }

  /** Six seconds into the run a request due after five is given up. */
  lemma GivenUp(nmr: nat, timer: Timespec)
    requires 0 < nmr < UINT8_SIZE
    ensures Valid(Serving(nmr, 1, [RequestRecord(0, [], Timespec(5, 0))], timer))
    ensures Step(Serving(nmr, 1, [RequestRecord(0, [], Timespec(5, 0))], timer), Sweeping(T6))
         == Ok(Serving(nmr, 1, [], timer), [Answer(0, NotReliable)])
  {
    var r := RequestRecord(0, [], Timespec(5, 0));
    var b := Serving(nmr, 1, [r], timer);
    ServingIsValid(nmr, 1, [r], timer);
    SweepIsExactIff(b, T6);
    assert Late([r], T6) == [r] && Live([r], T6) == [] by {
      assert [r][1..] == [];
    }
    assert WithoutLate(b.services, T6) == map[0 := Entry(nmr, nmr, 1, [])];
    assert TimeoutVerdict(r, nmr) == NotReliable;
    assert Notices([r], nmr) == [Answer(0, NotReliable)];
    assert AllNotices(b.services, nmr, [0], 1, T6) == [];
  }

  /** The second request, due eleven seconds into the run, with `k` results that all say `v`. */
  function Record(k: nat, v: int): RequestRecord {
    RequestRecord(0, seq(k, _ => v), Timespec(11, 0))
  }

  /** One more result that says the same is stored. */
  lemma OneMoreCounts(nmr: nat, k: nat, v: int, timer: Timespec)
    requires 2 <= nmr < UINT8_SIZE && k < nmr / 2
    ensures Valid(Serving(nmr, 2, [Record(k, v)], timer))
    ensures Step(Serving(nmr, 2, [Record(k, v)], timer), Replying(0, 0, v, false))
         == Ok(Serving(nmr, 2, [Record(k + 1, v)], timer), [])
  {
    var r, r' := Record(k, v), Record(k + 1, v);
    var b := Serving(nmr, 2, [r], timer);
    ServingIsValid(nmr, 2, [r], timer);
    ReplyEffect(b, 0, 0, v);
    assert r.results + [v] == r'.results;
    UnanimousDecision(k + 1, v, nmr);
    assert [r][0 := r'] == [r'];
    assert b.services[0 := Entry(nmr, nmr, 2, [r'])] == map[0 := Entry(nmr, nmr, 2, [r'])];
  }

  /** The last one needed closes the request. */
  lemma LastOneCounts(nmr: nat, v: int, timer: Timespec)
    requires 2 <= nmr < UINT8_SIZE
    ensures Valid(Serving(nmr, 2, [Record(nmr / 2, v)], timer))
    ensures Step(Serving(nmr, 2, [Record(nmr / 2, v)], timer), Replying(0, 0, v, false))
         == Ok(Serving(nmr, 2, [], timer), [Answer(0, Available(v))])
  {
    var r := Record(nmr / 2, v);
    var b := Serving(nmr, 2, [r], timer);
    ServingIsValid(nmr, 2, [r], timer);
    ReplyEffect(b, 0, 0, v);
    LastOneDecides(nmr, v);
    assert [r][..0] + [r][1..] == [];
    assert b.services[0 := Entry(nmr, nmr, 2, [])] == map[0 := Entry(nmr, nmr, 2, [])];
  }

  lemma LastOneDecides(nmr: nat, v: int)
    requires 2 <= nmr < UINT8_SIZE
    ensures |Record(nmr / 2, v).results| + 1 < UINT8_SIZE
    ensures Decide(Record(nmr / 2, v).results + [v], nmr) == Some(Available(v))
  {
    assert Record(nmr / 2, v).results + [v] == seq(nmr / 2 + 1, _ => v);
    UnanimousDecision(nmr / 2 + 1, v, nmr);
  }

  // ---- The first request

  function Request(id: nat, a: int): Parcel {
    Parcel(Origin(0, id), 0, Params([a]))
  }

  function Result(pid: nat, v: int): Reply {
    Reply(0, 0, pid, Origin(0, 0), v, false)
  }

  /** The results of processes 0 to k-1. */
  function Results(k: nat, v: int): multiset<Reply> {
    if k == 0 then multiset{} else Results(k - 1, v) + multiset{Result(k - 1, v)}
  }

  lemma {:induction false} ParcelsOfForwards(n: nat, id: nat, a: int)
    ensures Parcels(Forwards(n, id, Params([a]))) == seq(n, _ => Request(id, a))
  {
    var out := Forwards(n, id, Params([a]));
    if n > 0 {
      ParcelsOfForwards(n - 1, id, a);
      assert out[1..] == Forwards(n - 1, id, Params([a]));
      assert seq(n, _ => Request(id, a)) == [Request(id, a)] + seq(n - 1, _ => Request(id, a));
    }
  }

  lemma {:induction false} SameParcels(n: nat, m: Parcel)
    ensures multiset(seq(n, _ => m))[m] == n
  {
    if n > 0 {
      SameParcels(n - 1, m);
      assert seq(n, _ => m) == seq(n - 1, _ => m) + [m];
    } else {
      assert seq(0, _ => m) == [];
    }
  }

  lemma AcceptedAsk(y: Sys, a: Act, out: seq<Output>, x: Session)
    requires a.Ask? && 0 < |a.args| <= 8 && Codec.AllInt32(a.args)
    requires !Waiting(y.x.b.services, a.client) && Next(y.x, AskEvent(a), out, x)
    requires a.service in y.x.b.services && y.x.b.services[a.service].requestId < UINT32_SIZE - 1
    ensures AskStep(y, a, out, Noted(y, x, a.client, Origin(a.service, y.x.b.services[a.service].requestId), a.args,
                                     y.parcels + multiset(Parcels(out))))
  {
  }

  /** The client asks `a` under id `id`; every copy is sent the request. */
  lemma AsksFor(nmr: nat, body: Bodies, y: Sys, id: nat, a: int, timer: Timespec, now: Timespec) returns (y': Sys)
    requires 2 <= nmr < UINT8_SIZE && Codec.AllInt32([a]) && id < 2
    requires Reached(nmr, body, y) && y.x.b == Serving(nmr, id, [], timer)
    ensures Reached(nmr, body, y')
    ensures y'.x == Session(Serving(nmr, id + 1, [RequestRecord(0, [], AddMs(now, REQUEST_TIMEOUT))],
                                    AddMs(now, HEARTBEAT_INTERVAL)),
                            y.x.asked + multiset{0}, y.x.answered)
    ensures y' == Noted(y, y'.x, 0, Origin(0, id), [a], y'.parcels)
    ensures y'.parcels[Request(id, a)] >= nmr
  {
    var act := Ask(0, 0, [a], now, now);
    var out := Forwards(nmr, id, Params([a]));
    Requested(nmr, id, timer, Params([a]), now);
    NoAnswers(out);
    ParcelsOfForwards(nmr, id, a);
    SameParcels(nmr, Request(id, a));
    var x := Session(Serving(nmr, id + 1, [RequestRecord(0, [], AddMs(now, REQUEST_TIMEOUT))],
                             AddMs(now, HEARTBEAT_INTERVAL)),
                     y.x.asked + multiset{0}, y.x.answered);
    assert Next(y.x, AskEvent(act), out, x);
    AcceptedAsk(y, act, out, x);
    y' := Noted(y, x, 0, Origin(0, id), [a], y.parcels + multiset(Parcels(out)));
    ReachedNext(nmr, body, y, act, out, y');
  }

  /** The first `k` processes have executed the request for `a`, and their replies are still on the way. */
  ghost predicate Executing(nmr: nat, y: Sys, k: nat, a: int, v: int) {
    && y.x == Session(Serving(nmr, 1, [RequestRecord(0, [], Timespec(5, 0))], Timespec(2, 0)), multiset{0}, multiset{})
    && (forall p: nat :: p < nmr ==> p in y.processes && y.processes[p].service == 0)
    && (forall p: nat :: k <= p < nmr ==> y.processes[p].requestId == 0)
    && y.parcels[Request(0, a)] >= nmr - k && y.replies == Results(k, v)
  }

  lemma FirstRequest(nmr: nat, body: Bodies, a: int) returns (y: Sys)
    requires 2 <= nmr < UINT8_SIZE && Codec.AllInt32([a])
    ensures Reached(nmr, body, y) && Executing(nmr, y, 0, a, body(0, a))
  {
    CopiesStart(nmr, body, nmr);
    var y0 := Idle(nmr, Registered(nmr, 0, nmr), Processes(nmr));
    y := AsksFor(nmr, body, y0, 0, a, Timespec(2, 0), T0);
  }

  lemma Delivered(body: Bodies, y: Sys, pid: nat, a: int) returns (y': Sys)
    requires Codec.AllInt32([a]) && Request(0, a) in y.parcels
    requires pid in y.processes && y.processes[pid] == Process(0, 0)
    ensures SysStep(body, {}, y, Deliver(pid, Request(0, a), body(0, a), 0), [], y')
    ensures y'.x == y.x && y'.processes == y.processes[pid := Process(0, 1)]
    ensures y'.parcels == y.parcels - multiset{Request(0, a)}
    ensures y'.replies == y.replies + multiset{Result(pid, body(0, a))}
  {
    ReadsFirstArgument([a], 0);
    y' := y.(parcels := y.parcels - multiset{Request(0, a)},
             processes := y.processes[pid := Process(0, 1)],
             replies := y.replies + multiset{Result(pid, body(0, a))},
             executed := y.executed + {(pid, 0)});
  }

  lemma NextExecutes(nmr: nat, body: Bodies, y: Sys, k: nat, a: int) returns (y': Sys)
    requires 2 <= nmr < UINT8_SIZE && Codec.AllInt32([a]) && k < nmr
    requires Reached(nmr, body, y) && Executing(nmr, y, k, a, body(0, a))
    ensures Reached(nmr, body, y') && Executing(nmr, y', k + 1, a, body(0, a))
  {
    assert Request(0, a) in y.parcels;
    y' := Delivered(body, y, k, a);
    ReachedNext(nmr, body, y, Deliver(k, Request(0, a), body(0, a), 0), [], y');
  }

  lemma {:induction false} CopiesExecute(nmr: nat, body: Bodies, a: int, k: nat) returns (y: Sys)
    requires 2 <= nmr < UINT8_SIZE && Codec.AllInt32([a]) && k <= nmr
    ensures Reached(nmr, body, y) && Executing(nmr, y, k, a, body(0, a))
  {
    if k == 0 {
      y := FirstRequest(nmr, body, a);
    } else {
      y := CopiesExecute(nmr, body, a, k - 1);
      y := NextExecutes(nmr, body, y, k - 1, a);
    }
  }

  // ---- The second request

  /** The client waits for `b`, and `k` late results for `a` have been counted for it. */
  ghost predicate Misled(nmr: nat, y: Sys, k: nat, b: int, v: int) {
    && k <= nmr
    && y.x == Counting(nmr, [Record(k, v)], multiset{0})
    && y.replies == Results(nmr - k, v)
    && 0 in y.current && y.current[0] in y.asked && y.asked[y.current[0]] == Question(0, [b])
  }

  /** The first request is given up while the results are on the way. */
  lemma FirstIsGivenUp(nmr: nat, body: Bodies, y: Sys, a: int) returns (y': Sys)
    requires 2 <= nmr < UINT8_SIZE && Reached(nmr, body, y) && Executing(nmr, y, nmr, a, body(0, a))
    ensures Reached(nmr, body, y')
    ensures y' == y.(x := Session(Serving(nmr, 1, [], Timespec(2, 0)), multiset{0}, multiset{0}))
  {
    var out := [Answer(0, NotReliable)];
    GivenUp(nmr, Timespec(2, 0));
    assert AnswersIn(out) == multiset{0} by {
      assert out[1..] == [];
    }
    y' := y.(x := Session(Serving(nmr, 1, [], Timespec(2, 0)), multiset{0}, multiset{0}));
    ReachedNext(nmr, body, y, Internal(Sweeping(T6)), out, y');
  }

  lemma SecondRequest(nmr: nat, body: Bodies, a: int, b: int) returns (y: Sys)
    requires 2 <= nmr < UINT8_SIZE && Codec.AllInt32([a]) && Codec.AllInt32([b])
    ensures Reached(nmr, body, y) && Misled(nmr, y, 0, b, body(0, a))
  {
    y := CopiesExecute(nmr, body, a, nmr);
    y := FirstIsGivenUp(nmr, body, y, a);
    y := AsksFor(nmr, body, y, 1, b, Timespec(2, 0), T6);
    assert RequestRecord(0, [], AddMs(T6, REQUEST_TIMEOUT)) == Record(0, body(0, a)) by {
      assert seq(0, _ => body(0, a)) == [];
    }
  }

  /** A late reply has been counted. */
  function Arrived(y: Sys, r: Reply, x: Session): Sys {
    y.(x := x, replies := y.replies - multiset{r}, counted := y.counted + {Key(r)},
       votes := y.votes[r.client := VotesFor(y, r.client) + [BallotOf(r)]])
  }

  lemma CountedArrival(body: Bodies, y: Sys, r: Reply, out: seq<Output>, x: Session)
    requires r in y.replies && Counts(y, r) && Next(y.x, ReplyEvent(r), out, x)
    ensures SysStep(body, {}, y, Arrive(r), out, Arrived(y, r, x))
  {
  }

  /** The session while late results are counted for the second request. */
  function Counting(nmr: nat, requests: seq<RequestRecord>, answered: multiset<Client>): Session {
    Session(Serving(nmr, 2, requests, Timespec(8, 0)), multiset{0, 0}, answered)
  }

  lemma NextCount(nmr: nat, k: nat, pid: nat, v: int)
    requires 2 <= nmr < UINT8_SIZE && k < nmr / 2
    ensures Next(Counting(nmr, [Record(k, v)], multiset{0}), ReplyEvent(Result(pid, v)), [],
                 Counting(nmr, [Record(k + 1, v)], multiset{0}))
  {
    OneMoreCounts(nmr, k, v, Timespec(8, 0));
  }

  lemma LastCount(nmr: nat, pid: nat, v: int)
    requires 2 <= nmr < UINT8_SIZE
    ensures Next(Counting(nmr, [Record(nmr / 2, v)], multiset{0}), ReplyEvent(Result(pid, v)),
                 [Answer(0, Available(v))], Counting(nmr, [], multiset{0, 0}))
  {
    LastOneCounts(nmr, v, Timespec(8, 0));
    assert [Answer(0, Available(v))][1..] == [];
  }

  /** The next late reply is counted. */
  lemma ReplyIsCounted(nmr: nat, y: Sys, k: nat, b: int, v: int)
    requires 2 <= nmr < UINT8_SIZE && k <= nmr / 2 && Misled(nmr, y, k, b, v)
    ensures var r := Result(nmr - k - 1, v);
            r in y.replies && Counts(y, r) && y.replies - multiset{r} == Results(nmr - k - 1, v)
  {
    assert y.x.b.services[0].requests[0].client == 0;
  }

  lemma NextArrival(nmr: nat, body: Bodies, y: Sys, k: nat, b: int, v: int) returns (y': Sys)
    requires 2 <= nmr < UINT8_SIZE && k < nmr / 2 && Reached(nmr, body, y) && Misled(nmr, y, k, b, v)
    ensures Reached(nmr, body, y') && Misled(nmr, y', k + 1, b, v)
  {
    var r, x := Result(nmr - k - 1, v), Counting(nmr, [Record(k + 1, v)], multiset{0});
    ReplyIsCounted(nmr, y, k, b, v);
    NextCount(nmr, k, nmr - k - 1, v);
    CountedArrival(body, y, r, [], x);
    y' := Arrived(y, r, x);
    ReachedNext(nmr, body, y, Arrive(r), [], y');
  }

  lemma {:induction false} LateRepliesCount(nmr: nat, body: Bodies, a: int, b: int, k: nat) returns (y: Sys)
    requires 2 <= nmr < UINT8_SIZE && Codec.AllInt32([a]) && Codec.AllInt32([b]) && k <= nmr / 2
    ensures Reached(nmr, body, y) && Misled(nmr, y, k, b, body(0, a))
  {
    if k == 0 {
      y := SecondRequest(nmr, body, a, b);
    } else {
      var y0 := LateRepliesCount(nmr, body, a, b, k - 1);
      y := NextArrival(nmr, body, y0, k - 1, b, body(0, a));
    }
  }

  /**
   * For every redundancy of two or more: no process is faulty, and still the client that asks `b` is told
   * the value of `a`, because nmr/2 + 1 late replies to its first request are counted for the second.
   */
  lemma StaleRepliesMislead(nmr: nat, body: Bodies, a: int, b: int)
    requires 2 <= nmr < UINT8_SIZE && Codec.AllInt32([a]) && Codec.AllInt32([b])
    ensures exists y, r, y' ::
              && Reached(nmr, body, y) && SysStep(body, {}, y, Arrive(r), [Answer(0, Available(body(0, a)))], y')
              && 0 in y.current && y.current[0] in y.asked && y.asked[y.current[0]] == Question(0, [b])
  {
    var y := LateRepliesCount(nmr, body, a, b, nmr / 2);
    var v := body(0, a);
    var r := Result(nmr - nmr / 2 - 1, v);
    ReplyIsCounted(nmr, y, nmr / 2, b, v);
    LastCount(nmr, nmr - nmr / 2 - 1, v);
    CountedArrival(body, y, r, [Answer(0, Available(v))], Counting(nmr, [], multiset{0, 0}));
  }
}
