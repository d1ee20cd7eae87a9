/** The broker object: its handlers update it in place and follow the machine step for step. */
module Broker {
  import opened Common
  import opened TimeArithmetic
  import opened Voting
  import opened Requests
  import opened Database
  import M = BrokerMachine

  /** What one round of the loop finds: messages ready on the sockets it polled, and its clock readings. */
  datatype Poll = Poll(
    now: Timespec,
    registration: Option<M.Event>,
    request: Option<M.Event>,
    replies: seq<Option<M.Event>>,   // per dealer socket
    rearm: nat -> Timespec,          // the clock when heartbeat timer i is set again
    sweep: Timespec)

  /** A poll looks at every dealer there is when it begins. */
  predicate PollShape(p: Poll, dealers: nat) {
    && (p.registration.Some? ==> p.registration.value.Registering?)
    && (p.request.Some? ==> p.request.value.Requesting?)
    && |p.replies| == dealers
    && forall i :: 0 <= i < |p.replies| && p.replies[i].Some? ==>
         p.replies[i].value.Replying? || p.replies[i].value.Ponging?
  }

  function Arrived(e: Option<M.Event>): seq<M.Event> {
    if e.Some? then [e.value] else []
  }

  function ArrivedAll(es: seq<Option<M.Event>>): seq<M.Event> {
    if es == [] then [] else ArrivedAll(es[..|es| - 1]) + Arrived(es[|es| - 1])
  }

  /** The timers of the first `n` available services. */
  function Beats(p: Poll, n: nat): seq<M.Event> {
    seq(n, i requires 0 <= i < n => M.Beating(i, p.now, p.rearm(i)))
  }

  function After(out: seq<M.Output>, rest: M.Outcome): M.Outcome {
    rest.(out := out + rest.out)
  }

  lemma AfterAfter(done: seq<M.Output>, out: seq<M.Output>, rest: M.Outcome)
    ensures After(done, After(out, rest)) == After(done + out, rest)
  {
    assert done + (out + rest.out) == (done + out) + rest.out;
  }

  /** Several events one after the other, up to the first fault. */
  ghost function RunAll(b: M.Broker, es: seq<M.Event>): M.Outcome
    requires M.Valid(b)
    decreases |es|
  {
    if es == [] then M.Ok(b, [])
    else
      M.StepKeepsValid(b, es[0]);
      match M.Step(b, es[0])
      case Failed(f, out) => M.Failed(f, out)
      case Ok(b', out) => After(out, RunAll(b', es[1..]))
  }

  lemma {:induction false} RunAllConcat(b: M.Broker, xs: seq<M.Event>, ys: seq<M.Event>)
    requires M.Valid(b)
    ensures RunAll(b, xs).Ok? ==> M.Valid(RunAll(b, xs).state)
    ensures RunAll(b, xs + ys) == AndThen(RunAll(b, xs), ys)
    decreases |xs|
  {
    if xs == [] {
      assert xs + ys == ys;
    } else {
      M.StepKeepsValid(b, xs[0]);
      assert (xs + ys)[0] == xs[0] && (xs + ys)[1..] == xs[1..] + ys;
      match M.Step(b, xs[0])
      case Failed(_, _) =>
      case Ok(b', out) =>
        RunAllConcat(b', xs[1..], ys);
        var rest := RunAll(b', xs[1..]);
        if rest.Ok? {
          AfterAfter(out, rest.out, RunAll(rest.state, ys));
        }
    }
  }

  ghost function AndThen(o: M.Outcome, es: seq<M.Event>): M.Outcome
    requires o.Ok? ==> M.Valid(o.state)
  {
    match o
    case Failed(_, _) => o
    case Ok(b, out) => After(out, RunAll(b, es))
  }

  lemma RunAllOne(b: M.Broker, e: M.Event)
    requires M.Valid(b)
    ensures RunAll(b, [e]) == M.Step(b, e)
  {
    M.StepKeepsValid(b, e);
    assert [e][1..] == [];
  }

  lemma {:induction false} ArrivedSplit(es: seq<Option<M.Event>>, i: nat)
    requires i <= |es|
    ensures ArrivedAll(es) == ArrivedAll(es[..i]) + ArrivedAll(es[i..])
    decreases |es|
  {
    if i == |es| {
      assert es[..i] == es;
    } else {
      ArrivedSplit(es[..|es| - 1], i);
      assert es[..|es| - 1][..i] == es[..i] && es[..|es| - 1][i..] == es[i..][..|es| - i - 1];
      assert es[i..][|es| - i - 1] == es[|es| - 1];
    }
  }

  /** A fault after some of the events is the fault of all of them. */
  lemma FaultIsFinal(b: M.Broker, xs: seq<M.Event>, ys: seq<M.Event>)
    requires M.Valid(b) && RunAll(b, xs).Failed?
    ensures RunAll(b, xs + ys) == RunAll(b, xs)
  {
    RunAllConcat(b, xs, ys);
  }

  lemma RepliesStep(xs: seq<M.Event>, replies: seq<Option<M.Event>>, i: nat)
    requires i < |replies|
    ensures xs + ArrivedAll(replies[..i]) + Arrived(replies[i]) == xs + ArrivedAll(replies[..i + 1])
    ensures xs + ArrivedAll(replies) == xs + ArrivedAll(replies[..i + 1]) + ArrivedAll(replies[i + 1..])
  {
    var done, next := ArrivedAll(replies[..i]), Arrived(replies[i]);
    assert ArrivedAll(replies[..i + 1]) == done + next by {
      assert replies[..i + 1][..i] == replies[..i];
    }
    ArrivedSplit(replies, i + 1);
    Regroup(xs, done, next);
    Regroup(xs, done + next, ArrivedAll(replies[i + 1..]));
  }

  lemma Regroup(a: seq<M.Event>, b: seq<M.Event>, c: seq<M.Event>)
    ensures a + b + c == a + (b + c)
  {
  }

  lemma BeatsStep(p: Poll, i: nat, n: nat)
    requires i < n
    ensures Beats(p, i) + [M.Beating(i, p.now, p.rearm(i))] == Beats(p, i + 1)
    ensures Beats(p, n) == Beats(p, i + 1) + Beats(p, n)[i + 1..]
  {
  }

  lemma NextOutcome(b: M.Broker, xs: seq<M.Event>, e: M.Event)
    requires M.Valid(b) && RunAll(b, xs).Ok?
    ensures var o := RunAll(b, xs);
            M.Valid(o.state) && RunAll(b, xs + [e]) == After(o.out, M.Step(o.state, e))
  {
    RunAllConcat(b, xs, [e]);
    RunAllOne(RunAll(b, xs).state, e);
  }

  lemma DealersStay(b: M.Broker, e: M.Event)
    requires M.Valid(b) && M.Step(b, e).Ok?
    ensures |M.Step(b, e).state.dealers| >= |b.dealers|
  {
  }

  lemma {:induction false} DealersStayInAll(b: M.Broker, es: seq<M.Event>)
    requires M.Valid(b) && RunAll(b, es).Ok?
    ensures |RunAll(b, es).state.dealers| >= |b.dealers|
    decreases |es|
  {
    if es != [] {
      M.StepKeepsValid(b, es[0]);
      DealersStay(b, es[0]);
      DealersStayInAll(M.Step(b, es[0]).state, es[1..]);
    }
  }

  /** The messages of a round in the order they are handled: registration, request, replies dealer by dealer. */
  function Messages(p: Poll): seq<M.Event> {
    Arrived(p.registration) + Arrived(p.request) + ArrivedAll(p.replies)
  }

  /**
   * One round: the messages, then every heartbeat timer there is by then, one of a service that has just
   * become available included, then the deadlines.
   */
  ghost function Round(b: M.Broker, p: Poll): M.Outcome
    requires M.Valid(b)
  {
    RunAllConcat(b, Messages(p), []);
    var o := RunAll(b, Messages(p));
    if o.Failed? then o else AndThen(o, Beats(p, |o.state.timeouts|) + [M.Sweeping(p.sweep)])
  }

  class RsfBroker {
    const nmr: nat
    const db: ServiceDatabase
    var availableDealerPort: int
    var items: seq<M.Socket>
    var dealers: seq<int>
    var availableServices: seq<Service>
    var timeouts: seq<Timespec>
    var sent: seq<M.Output>      // all that went out so far

    ghost function State(): M.Broker
      reads this, db
    {
      M.Broker(nmr, db.services, db.nextIndex, availableDealerPort, availableServices, dealers, items, timeouts)
    }

    ghost predicate Valid()
      reads this, db
    {
      nmr == db.nmr && M.Valid(State())
    }

    /** The object is where the machine says, with the machine's output appended to what was sent before. */
    ghost predicate Follows(o: M.Outcome, fault: Option<M.Fault>, before: seq<M.Output>)
      reads this, db
    {
      match o
      case Ok(b, out) => fault.None? && Valid() && State() == b && sent == before + out
      case Failed(f, out) => fault == Some(f) && sent == before + out
    }

    constructor (nmr: nat)
      requires nmr < UINT8_SIZE
      ensures Valid() && State() == M.Init(nmr) && sent == [] && fresh(db)
    {
      this.nmr := nmr;
      db := new ServiceDatabase(nmr);
      availableDealerPort := DEALER_START_PORT;
      items := [M.Router, M.Registrations, M.HealthCheck];
      dealers, availableServices, timeouts, sent := [], [], [], [];
    }

    method AddDealer(port: int)
      modifies this`dealers, this`items
      ensures dealers == old(dealers) + [port] && items == old(items) + [M.Dealer(port)]
    {
      dealers := dealers + [port];
      items := items + [M.Dealer(port)];
    }

    method GetRegistration(s: Service, clock: Timespec) returns (fault: Option<M.Fault>)
      requires Valid()
      modifies this, db
      ensures Follows(M.GetRegistration(old(State()), s, clock), fault, old(sent))
    {
      ghost var b := State();
      M.RegistrationKeepsValid(b, s, clock);
      var ret, ready;
      ret, availableDealerPort, ready := db.PushRegistration(s, availableDealerPort);
      var already := false;
      for i := 0 to |availableServices|
        invariant already <==> s in availableServices[..i]
        invariant availableServices == b.available
      {
        if availableServices[i] == s {
          already := true;
        }
      }
      assert availableServices[..|availableServices|] == availableServices;
      if ready && !already {
        availableServices := availableServices + [s];
        AddDealer(ret);
        var timeout := new TimespecCell(clock);
        timeout.TimeAddMs(HEARTBEAT_INTERVAL);
        timeouts := timeouts + [timeout.Value()];
      }
      sent := sent + [M.RegistrationReply(ret)];
      fault := None;
    }

    /** Storing past the end of the timers, for a service that is not available, is the fault. */
    method UpdateTimeout(s: Service, clock: Timespec) returns (fault: Option<M.Fault>)
      requires Valid()
      modifies this`timeouts
      ensures match M.UpdateTimeout(old(State()), s, clock)
              case Some(b) => fault.None? && State() == b
              case None => fault == Some(M.OutOfBounds) && State() == old(State())
    {
      var i := 0;
      while i < |availableServices|
        invariant i <= |availableServices| && s !in availableServices[..i]
      {
        if availableServices[i] == s {
          break;
        }
        i := i + 1;
      }
      M.IndexOfIs(availableServices, s, i);
      var timeout := new TimespecCell(clock);
      timeout.TimeAddMs(HEARTBEAT_INTERVAL);
      if i == |timeouts| {
        return Some(M.OutOfBounds);
      }
      timeouts := timeouts[i := timeout.Value()];
      fault := None;
    }

    method Send(out: M.Output, copies: nat)
      modifies this`sent
      ensures sent == old(sent) + seq(copies, _ => out)
    {
      var j := 0;
      while j < copies
        invariant j <= copies && sent == old(sent) + seq(j, _ => out)
      {
        sent := sent + [out];
        j := j + 1;
      }
    }

    method GetRequest(c: Client, s: Service, params: string, clock: Timespec, rearm: Timespec)
      returns (fault: Option<M.Fault>)
      requires Valid()
      modifies this, db
      ensures Follows(M.GetRequest(old(State()), c, s, params, clock, rearm), fault, old(sent))
    {
      ghost var b := State();
      M.RequestKeepsValid(b, c, s, params, clock, rearm);
      var index := db.FindRegistration(s);
      if index == -1 {
        sent := sent + [M.Answer(c, NotAvailable)];
        return None;
      }
      var found, id := db.GetRequestId(s);
      var known, copies := db.GetReliableCopies(s);
      if copies > 0 && index >= |dealers| {
        return Some(M.OutOfBounds);
      }
      Send(M.Forward(index, s, id, c, params), copies);
      var pushed := db.PushRequest(c, s, clock);
      assert State() == M.Accept(b, c, s, clock);
      fault := UpdateTimeout(s, rearm);
    }

    method GetResponse(s: Service, c: Client, result: int, duplicated: bool) returns (fault: Option<M.Fault>)
      requires Valid()
      modifies this, db
      ensures Follows(M.GetResponse(old(State()), s, c, result, duplicated), fault, old(sent))
    {
      ghost var b := State();
      if duplicated {
        return None;
      }
      var known, copies := db.PushResult(s, c, result);
      if !known {
        return Some(M.Exited);
      }
      M.SettleKeepsValid(b, s, AddResult(b.services[s].requests, c, result));
      assert State() == M.Settle(b, s, AddResult(b.services[s].requests, c, result));
      fault := AfterResult(s, c, copies);
    }

    method AfterResult(s: Service, c: Client, copies: int) returns (fault: Option<M.Fault>)
      requires Valid() && s in db.services
      requires copies == match LastResults(db.services[s].requests, c) case Some(vs) => |vs| case None => -1
      modifies this, db
      ensures Follows(M.AfterResult(old(State()), s, c), fault, old(sent))
    {
      fault := None;
      if copies > nmr / 2 {
        var found, values := db.GetResult(s, c);
        if |values| >= UINT8_SIZE {
          return Some(M.Diverged);
        }
        var verdict := VoteOn(copies, values);
        if verdict.Some? {
          M.SettleKeepsValid(State(), s, Erase(db.services[s].requests, c));
          var deleted := Conclude(s, c, verdict.value);
        }
      }
    }

    /** Answers a client and deletes its requests of the service; false when the service is unknown. */
    method Conclude(s: Service, c: Client, verdict: Verdict) returns (ok: bool)
      requires db.Valid()
      modifies db`services, this`sent
      ensures db.Valid() && sent == old(sent) + [M.Answer(c, verdict)]
      ensures ok == (s in old(db.services))
      ensures db.services == if ok then WithRequests(old(db.services), s, Erase(old(db.services)[s].requests, c))
                             else old(db.services)
    {
      sent := sent + [M.Answer(c, verdict)];
      ok := db.DeleteRequest(s, c);
    }

    /** The voter's part in handling a reply, once more than half of the copies have answered. */
    method VoteOn(copies: int, values: seq<int>) returns (verdict: Option<Verdict>)
      requires nmr / 2 < copies == |values| < UINT8_SIZE && nmr < UINT8_SIZE
      ensures verdict == Decide(values, nmr)
    {
      var ret, value := Vote(values, nmr, 0);
      if ret >= 0 {
        verdict := Some(Available(value));
      } else if copies == nmr {
        verdict := Some(NotReliable);
      } else {
        verdict := None;
      }
    }

    /** The voter's part in the deadline pass. */
    method VoteLate(r: RequestRecord) returns (verdict: Verdict)
      requires |r.results| < UINT8_SIZE && nmr < UINT8_SIZE
      ensures verdict == M.TimeoutVerdict(r, nmr)
    {
      var ret, value := Vote(r.results, nmr, 0);
      verdict := if ret >= 0 then Available(value) else NotReliable;
    }

    method GetPong(s: Service, copy: nat) returns (fault: Option<M.Fault>)
      requires Valid()
      modifies db
      ensures Follows(M.GetPong(old(State()), s, copy), fault, old(sent))
    {
      var known, inBounds := db.RegisterPong(copy, s);
      if !known {
        return Some(M.Exited);
      }
      fault := if inBounds then None else Some(M.OutOfBounds);
    }

    method PingServer(i: nat, s: Service)
      requires Valid() && i < |availableServices| && s in db.services
      modifies this`sent
      ensures sent == old(sent) + M.Pings(old(State()), i, s)
    {
      var k := i % UINT8_SIZE;
      var known, id := db.GetPingId(s);
      var found, copies := db.GetReliableCopies(availableServices[k]);
      Send(M.Ping(k, id), copies);
    }

    method Heartbeat(i: nat, now: Timespec, rearm: Timespec) returns (fault: Option<M.Fault>)
      requires Valid()
      modifies this, db
      ensures Follows(M.Heartbeat(old(State()), i, now, rearm), fault, old(sent))
    {
      ghost var b := State();
      M.HeartbeatKeepsValid(b, i, now, rearm);
      if i >= |timeouts| || !Expired(now, timeouts[i]) {
        return None;
      }
      var s := availableServices[i];
      db.CheckPong(s);
      assert State() == M.Checked(b, s);
      PingServer(i, s);
      fault := UpdateTimeout(s, rearm);
    }

    /** The inner loop of the deadline pass, over the snapshot of one service's requests. */
    method SweepPending(i: nat, pending: seq<RequestRecord>, now: Timespec) returns (fault: Option<M.Fault>)
      requires Valid()
      modifies db, this`sent
      ensures match M.SweepPending(old(db.services), nmr, i, pending, now)
              case Swept(services, out) =>
                fault.None? && db.services == services && sent == old(sent) + out
              case Broken(f, out) => fault == Some(f) && sent == old(sent) + out
      ensures fault.None? ==> Valid() && State() == old(State()).(services := db.services)
    {
      ghost var whole := M.SweepPending(db.services, nmr, i, pending, now);
      M.SweepPendingKeeps(db.services, nmr, i, pending, now);
      ghost var done: seq<M.Output> := [];
      assert pending[0..] == pending;
      var j := 0;
      while j < |pending|
        invariant j <= |pending| && db.Valid()
        invariant State() == old(State()).(services := db.services)
        invariant sent == old(sent) + done
        invariant whole == M.Then(done, M.SweepPending(db.services, nmr, i, pending[j..], now))
      {
        assert pending[j..][1..] == pending[j + 1..];
        if Expired(now, pending[j].timeout) {
          if |pending[j].results| >= UINT8_SIZE {
            return Some(M.Diverged);
          }
          var verdict := VoteLate(pending[j]);
          var deleted := Conclude(i, pending[j].client, verdict);
          if !deleted {
            return Some(M.Exited);
          }
          ghost var answer := M.Answer(pending[j].client, verdict);
          M.ThenThen(done, [answer], M.SweepPending(db.services, nmr, i, pending[j + 1..], now));
          done := done + [answer];
        }
        j := j + 1;
      }
      fault := None;
    }

    method SweepService(i: nat, now: Timespec) returns (fault: Option<M.Fault>)
      requires Valid() && i < |availableServices|
      modifies db, this`sent
      ensures match M.SweepPending(old(db.services), nmr, i, old(db.services)[availableServices[i]].requests, now)
              case Swept(services, out) => fault.None? && db.services == services && sent == old(sent) + out
              case Broken(f, out) => fault == Some(f) && sent == old(sent) + out
      ensures fault.None? ==> Valid() && State() == old(State()).(services := db.services)
    {
      var known, pending := db.GetPendingRequests(availableServices[i]);
      fault := SweepPending(i, pending, now);
    }

    /** The outer loop, over the available services. */
    method SweepServices(now: Timespec) returns (fault: Option<M.Fault>)
      requires Valid()
      modifies db, this`sent
      ensures match M.SweepFrom(old(db.services), nmr, availableServices, 0, now)
              case Swept(services, out) => fault.None? && db.services == services && sent == old(sent) + out
              case Broken(f, out) => fault == Some(f) && sent == old(sent) + out
      ensures fault.None? ==> Valid() && State() == old(State()).(services := db.services)
    {
      ghost var whole := M.SweepFrom(db.services, nmr, availableServices, 0, now);
      ghost var done: seq<M.Output>, services := [], db.services;
      fault := None;
      for i := 0 to |availableServices|
        invariant Valid() && fault.None?
        invariant State() == old(State()).(services := services)
        invariant sent == old(sent) + done
        invariant whole == M.Then(done, M.SweepFrom(services, nmr, availableServices, i, now))
      {
        ghost var out := M.SweepPending(services, nmr, i, services[availableServices[i]].requests, now).out;
        M.SweepTurn(services, nmr, availableServices, i, now, done);
        fault := SweepService(i, now);
        done, services := done + out, db.services;
        if fault.Some? {
          return;
        }
      }
    }

    method CheckPendingRequests(now: Timespec) returns (fault: Option<M.Fault>)
      requires Valid()
      modifies this, db
      ensures Follows(M.CheckPendingRequests(old(State()), now), fault, old(sent))
    {
      fault := SweepServices(now);
    }

    method Handle(e: M.Event) returns (fault: Option<M.Fault>)
      requires Valid()
      modifies this, db
      ensures Follows(M.Step(old(State()), e), fault, old(sent))
    {
      match e
      case Registering(s, clock) => fault := GetRegistration(s, clock);
      case Requesting(c, s, params, clock, rearm) => fault := GetRequest(c, s, params, clock, rearm);
      case Replying(s, c, result, duplicated) => fault := GetResponse(s, c, result, duplicated);
      case Ponging(s, copy) => fault := GetPong(s, copy);
      case Beating(i, now, rearm) => fault := Heartbeat(i, now, rearm);
      case Sweeping(now) => fault := CheckPendingRequests(now);
    }

    lemma FollowsAfter(o: M.Outcome, fault: Option<M.Fault>, out: seq<M.Output>, before: seq<M.Output>)
      requires Follows(o, fault, before + out)
      ensures Follows(After(out, o), fault, before)
    {
      assert before + out + o.out == before + (out + o.out);
    }

    /** One event after those of `xs`, which have brought the object from `b` to where it is. */
    method HandleNext(e: M.Event, ghost b: M.Broker, ghost xs: seq<M.Event>, ghost before: seq<M.Output>)
      returns (fault: Option<M.Fault>)
      requires Valid() && M.Valid(b) && Follows(RunAll(b, xs), None, before)
      modifies this, db
      ensures Follows(RunAll(b, xs + [e]), fault, before)
    {
      ghost var o := RunAll(b, xs);
      NextOutcome(b, xs, e);
      ghost var next := M.Step(State(), e);
      fault := Handle(e);
      FollowsAfter(next, fault, o.out, before);
    }

    method HandleArrived(e: Option<M.Event>, ghost b: M.Broker, ghost xs: seq<M.Event>, ghost before: seq<M.Output>)
      returns (fault: Option<M.Fault>)
      requires Valid() && M.Valid(b) && Follows(RunAll(b, xs), None, before)
      modifies this, db
      ensures Follows(RunAll(b, xs + Arrived(e)), fault, before)
    {
      if e.Some? {
        fault := HandleNext(e.value, b, xs, before);
      } else {
        assert xs + Arrived(e) == xs;
        fault := None;
      }
    }

    /** The loop over the dealers; one added in this round has not been polled. */
    method HandleReplies(replies: seq<Option<M.Event>>, ghost b: M.Broker, ghost xs: seq<M.Event>,
                         ghost before: seq<M.Output>) returns (fault: Option<M.Fault>)
      requires Valid() && |replies| <= |dealers|
      requires M.Valid(b) && Follows(RunAll(b, xs), None, before)
      modifies this, db
      ensures Follows(RunAll(b, xs + ArrivedAll(replies)), fault, before)
    {
      assert xs + ArrivedAll([]) == xs;
      for i := 0 to |dealers|
        invariant Valid()
        invariant Follows(RunAll(b, xs + ArrivedAll(if i < |replies| then replies[..i] else replies)), None, before)
      {
        if i < |replies| {
          RepliesStep(xs, replies, i);
          fault := HandleArrived(replies[i], b, xs + ArrivedAll(replies[..i]), before);
          if fault.Some? {
            FaultIsFinal(b, xs + ArrivedAll(replies[..i + 1]), ArrivedAll(replies[i + 1..]));
            return;
          }
          assert i + 1 == |replies| ==> replies[..i + 1] == replies;
        }
      }
      fault := None;
    }

    /** The loop over the heartbeat timers. */
    method HandleTimers(p: Poll) returns (fault: Option<M.Fault>)
      requires Valid()
      modifies this, db
      ensures Follows(RunAll(old(State()), Beats(p, |old(timeouts)|)), fault, old(sent))
    {
      ghost var b := State();
      for i := 0 to |timeouts|
        invariant Valid() && Follows(RunAll(b, Beats(p, i)), None, old(sent))
      {
        BeatsStep(p, i, |b.timeouts|);
        fault := HandleNext(M.Beating(i, p.now, p.rearm(i)), b, Beats(p, i), old(sent));
        if fault.Some? {
          FaultIsFinal(b, Beats(p, i + 1), Beats(p, |b.timeouts|)[i + 1..]);
          return;
        }
      }
      fault := None;
    }

    method HandleMessages(p: Poll) returns (fault: Option<M.Fault>)
      requires Valid() && |p.replies| <= |dealers|
      modifies this, db
      ensures Follows(RunAll(old(State()), Messages(p)), fault, old(sent))
    {
      ghost var b := State();
      ghost var front := Arrived(p.registration) + Arrived(p.request);
      assert [] + Arrived(p.registration) == Arrived(p.registration);
      fault := HandleArrived(p.registration, b, [], sent);
      if fault.None? {
        fault := HandleArrived(p.request, b, Arrived(p.registration), old(sent));
        if fault.None? {
          DealersStayInAll(b, front);
          fault := HandleReplies(p.replies, b, front, old(sent));
        } else {
          FaultIsFinal(b, front, ArrivedAll(p.replies));
        }
      } else {
        Regroup(Arrived(p.registration), Arrived(p.request), ArrivedAll(p.replies));
        FaultIsFinal(b, Arrived(p.registration), Arrived(p.request) + ArrivedAll(p.replies));
      }
    }

    method HandleClocks(p: Poll) returns (fault: Option<M.Fault>)
      requires Valid()
      modifies this, db
      ensures Follows(RunAll(old(State()), Beats(p, |old(timeouts)|) + [M.Sweeping(p.sweep)]), fault, old(sent))
    {
      ghost var b, beats := State(), Beats(p, |timeouts|);
      fault := HandleTimers(p);
      if fault.None? {
        fault := HandleNext(M.Sweeping(p.sweep), b, beats, old(sent));
      } else {
        FaultIsFinal(b, beats, [M.Sweeping(p.sweep)]);
      }
    }

    /** One round of `step`. */
    method DoRound(p: Poll) returns (fault: Option<M.Fault>)
      requires Valid() && PollShape(p, |dealers|)
      modifies this, db
      ensures Follows(Round(old(State()), p), fault, old(sent))
    {
      ghost var o := RunAll(State(), Messages(p));
      fault := HandleMessages(p);
      if fault.None? {
        ghost var clocks := RunAll(State(), Beats(p, |timeouts|) + [M.Sweeping(p.sweep)]);
        fault := HandleClocks(p);
        FollowsAfter(clocks, fault, o.out, old(sent));
      }
    }
  }
}
