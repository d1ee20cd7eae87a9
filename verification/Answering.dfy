/**
 * The answer is given: if enough good votes on a request arrive before its deadline, its client is told the
 * honest value, whatever else happens in the meantime.
 */
module Answering {
  import opened Common
  import opened TimeArithmetic
  import opened Voting
  import opened Requests
  import opened BrokerMachine
  import opened Deadlines
  import opened BrokerRuns
  import opened FreeRuns
  import opened Masking
  import opened System
  import opened FreeSystem
  import opened SystemTheorems

  /** A request under way: who asked what service for what, under which id, and when it is due. */
  datatype Inquiry = Inquiry(client: Client, origin: Origin, args: seq<int>, due: Timespec)

  /** The ballot that a step brings in for the client at the service. */
  function Cast(a: Act, s: Service, c: Client): seq<Ballot> {
    if a.Arrive? && !a.reply.duplicated && a.reply.service == s && a.reply.client == c then [BallotOf(a.reply)] else []
  }

  /** All results for the client at the service that arrive from step `lo` up to step `hi`. */
  function Arriving(acts: seq<Act>, s: Service, c: Client, lo: nat, hi: nat): seq<Ballot>
    requires lo <= hi <= |acts|
  {
    if lo == hi then [] else Arriving(acts, s, c, lo, hi - 1) + Cast(acts[hi - 1], s, c)
  }

  /** The broker holds the request with its deadline, and has counted the votes `vs` for it. */
  ghost predicate Pending(y: Sys, q: Inquiry, vs: seq<Ballot>) {
    && q.origin.service in y.x.b.services
    && HasRecord(y.x.b.services[q.origin.service].requests, q.client, q.due)
    && q.client in y.current && y.current[q.client] == q.origin
    && q.client in y.votes && y.votes[q.client] == vs
  }

  /** The step is no deadline pass after the request's deadline. */
  ghost predicate InTime(a: Act, due: Timespec) {
    a.Internal? && a.event.Sweeping? ==> !Expired(a.event.now, due)
  }

  lemma PendingWaits(y: Sys, q: Inquiry, vs: seq<Ballot>)
    requires Pending(y, q, vs)
    ensures HasClient(y.x.b.services[q.origin.service].requests, q.client) && Waiting(y.x.b.services, q.client)
  {
    var rs := y.x.b.services[q.origin.service].requests;
    var k :| 0 <= k < |rs| && rs[k].client == q.client && rs[k].timeout == q.due;
  }

  // ---- One step

  lemma RecordAmongMore(rs: seq<RequestRecord>, rs': seq<RequestRecord>, c: Client, due: Timespec)
    requires HasRecord(rs, c, due) && rs <= rs'
    ensures HasRecord(rs', c, due)
  {
    var k :| 0 <= k < |rs| && rs[k].client == c && rs[k].timeout == due;
    assert rs'[k] == rs[k];
  }

  lemma AskLeavesPending(y: Sys, a: Act, out: seq<Output>, y': Sys, q: Inquiry, vs: seq<Ballot>)
    requires Sound(y.x.b) && AskedOk(y) && a.Ask? && AskStep(y, a, out, y') && Pending(y, q, vs)
    ensures Pending(y', q, vs) && AnswersIn(out)[q.client] == 0
  {
    PendingWaits(y, q, vs);
    assert a.client != q.client;
    if a.service in y.x.b.services {
      ForwardsAgree(y, a, out, y');
      RequestAppends(y.x.b, AskEvent(a));
      RecordAmongMore(y.x.b.services[q.origin.service].requests, y'.x.b.services[q.origin.service].requests,
                      q.client, q.due);
    } else {
      assert out == [Answer(a.client, NotAvailable)];
      assert out[1..] == [];
    }
  }

  /** A request that has not expired stays in the list, whichever way the pass treats the list. */
  lemma LiveRecordStays(rs: seq<RequestRecord>, rs': seq<RequestRecord>, now: Timespec, c: Client, due: Timespec)
    requires HasRecord(rs, c, due) && !Expired(now, due) && (rs' == rs || rs' == Live(rs, now))
    ensures HasRecord(rs', c, due) && HasClient(Live(rs, now), c)
  {
    var k :| 0 <= k < |rs| && rs[k].client == c && rs[k].timeout == due;
    LiveAndLate(rs, now);
    assert rs[k] in Live(rs, now);
    var i :| 0 <= i < |Live(rs, now)| && Live(rs, now)[i] == rs[k];
  }

  lemma SweepLeavesPending(b: Broker, e: Event, s: Service, c: Client, due: Timespec)
    requires Sound(b) && s in b.services && HasRecord(b.services[s].requests, c, due)
    requires e.Sweeping? && !Expired(e.now, due) && Step(b, e).Ok?
    ensures s in Step(b, e).state.services && HasRecord(Step(b, e).state.services[s].requests, c, due)
    ensures AnswersIn(Step(b, e).out)[c] == 0
  {
    SweepingKeepsSound(b, e);
    LiveRecordStays(b.services[s].requests, Step(b, e).state.services[s].requests, e.now, c, due);
    NotTold(b, e.now, s, c);
  }

  lemma NotTold(b: Broker, now: Timespec, s: Service, c: Client)
    requires Sound(b) && AllCountable(b.services) && s in b.services && HasClient(Live(b.services[s].requests, now), c)
    ensures AnswersIn(AllNotices(b.services, b.nmr, b.available, 0, now))[c] == 0
  {
    LiveSubset(b.services[s].requests, now, c);
    LateHere(b, now, s, c);
    SweepTally(b.services, b.nmr, b.available, 0, now, c);
  }

  lemma QuietLeavesPending(y: Sys, e: Event, q: Inquiry, vs: seq<Ballot>)
    requires Valid(y.x.b) && Pending(y, q, vs) && (e.Registering? || e.Ponging? || e.Beating?) && Step(y.x.b, e).Ok?
    ensures q.origin.service in Step(y.x.b, e).state.services
    ensures HasRecord(Step(y.x.b, e).state.services[q.origin.service].requests, q.client, q.due)
    ensures AnswersIn(Step(y.x.b, e).out)[q.client] == 0
  {
    QuietStep(y.x.b, e);
  }

  lemma InternalLeavesPending(y: Sys, a: Act, out: seq<Output>, y': Sys, q: Inquiry, vs: seq<Ballot>)
    requires Sound(y.x.b) && a.Internal? && InternalStep(y, a, out, y') && Pending(y, q, vs) && InTime(a, q.due)
    ensures Pending(y', q, vs) && AnswersIn(out)[q.client] == 0
  {
    if a.event.Sweeping? {
      SweepLeavesPending(y.x.b, a.event, q.origin.service, q.client, q.due);
    } else {
      QuietLeavesPending(y, a.event, q, vs);
    }
  }

  /** A counted result of another client leaves the record where it is. */
  lemma OtherCountLeavesRecord(b: Broker, s: Service, k: nat, v: int, c: Client, due: Timespec)
    requires s in b.services && k < |b.services[s].requests| && b.services[s].requests[k].client != c
    requires |b.services[s].requests[k].results| + 1 < UINT8_SIZE && HasRecord(b.services[s].requests, c, due)
    ensures HasRecord(Counted(b, s, k, v).state.services[s].requests, c, due)
  {
    var rs, rs' := b.services[s].requests, Counted(b, s, k, v).state.services[s].requests;
    var j :| 0 <= j < |rs| && rs[j].client == c && rs[j].timeout == due;
    var j' := if |rs'| == |rs| || j < k then j else j - 1;
    assert rs'[j'] == rs[j];
  }

  /** A counted result of the client itself either closes the record or leaves it with its deadline. */
  lemma OwnCountKeepsRecord(b: Broker, s: Service, k: nat, v: int, due: Timespec)
    requires s in b.services && k < |b.services[s].requests| && Distinct(b.services[s].requests)
    requires |b.services[s].requests[k].results| + 1 < UINT8_SIZE
    requires HasRecord(b.services[s].requests, b.services[s].requests[k].client, due)
    ensures var o := Counted(b, s, k, v);
            o.out == [] ==> HasRecord(o.state.services[s].requests, b.services[s].requests[k].client, due)
  {
    var rs := b.services[s].requests;
    var j :| 0 <= j < |rs| && rs[j].client == rs[k].client && rs[j].timeout == due;
    assert j == k;
    var o := Counted(b, s, k, v);
    if o.out == [] {
      assert o.state.services[s].requests[k].client == rs[k].client;
    }
  }

  lemma CountLeavesPending(y: Sys, r: Reply, k: nat, out: seq<Output>, x': Session, q: Inquiry, vs: seq<Ballot>)
    requires Sound(y.x.b) && Pending(y, q, vs) && r.service in y.x.b.services
    requires k < |y.x.b.services[r.service].requests| && y.x.b.services[r.service].requests[k].client == r.client
    requires |y.x.b.services[r.service].requests[k].results| + 1 < UINT8_SIZE
    requires Counted(y.x.b, r.service, k, r.value) == Ok(x'.b, out)
    ensures q.origin.service in x'.b.services
    ensures r.client != q.client || out == [] ==>
              HasRecord(x'.b.services[q.origin.service].requests, q.client, q.due)
    ensures r.client != q.client ==> AnswersIn(out)[q.client] == 0
  {
    PendingWaits(y, q, vs);
    assert HasClient(y.x.b.services[r.service].requests, r.client);
    if r.client == q.client {
      assert r.service == q.origin.service;
      OwnCountKeepsRecord(y.x.b, r.service, k, r.value, q.due);
    } else if r.service == q.origin.service {
      OtherCountLeavesRecord(y.x.b, r.service, k, r.value, q.client, q.due);
    }
    assert out != [] ==> out[1..] == [];
  }

  /** The client is told the verdict on all its votes, if there is one; if not, it goes on waiting. */
  ghost predicate Tallied(y: Sys, out: seq<Output>, y': Sys, q: Inquiry, vs: seq<Ballot>) {
    && |vs| <= y.x.b.nmr < UINT8_SIZE && out == Told(q.client, Values(vs), y.x.b.nmr)
    && (out == [] ==> Pending(y', q, vs))
  }

  lemma OwnArrival(y: Sys, r: Reply, out: seq<Output>, y': Sys, q: Inquiry, vs: seq<Ballot>,
                   body: Bodies, faulty: set<nat>)
    requires SysOk(y, body, faulty) && ArriveStep(y, Arrive(r), out, y') && Pending(y, q, vs)
    requires Counts(y, r) && r.client == q.client && r.service == q.origin.service
    requires q.origin.service in y'.x.b.services
    requires out == [] ==> HasRecord(y'.x.b.services[q.origin.service].requests, q.client, q.due)
    ensures Tallied(y, out, y', q, vs + [BallotOf(r)])
  {
    ReplyVerdict(y, r, out, y', body, faulty);
  }

  /** What a counted reply leaves of the request. */
  lemma CountedArrival(y: Sys, r: Reply, out: seq<Output>, x': Session, q: Inquiry, vs: seq<Ballot>)
    requires Sound(y.x.b) && Next(y.x, ReplyEvent(r), out, x') && Pending(y, q, vs) && Counts(y, r)
    ensures r.client == q.client ==> r.service == q.origin.service
    ensures q.origin.service in x'.b.services
    ensures r.client != q.client || out == [] ==>
              HasRecord(x'.b.services[q.origin.service].requests, q.client, q.due)
    ensures r.client != q.client ==> AnswersIn(out)[q.client] == 0
  {
    PendingWaits(y, q, vs);
    ArriveAtBroker(y, r, out, x');
    var rs := y.x.b.services[r.service].requests;
    var k :| 0 <= k < |rs| && rs[k].client == r.client && |rs[k].results| + 1 < UINT8_SIZE
             && Counted(y.x.b, r.service, k, r.value) == Ok(x'.b, out);
    CountLeavesPending(y, r, k, out, x', q, vs);
  }

  lemma IgnoredArrival(y: Sys, r: Reply, out: seq<Output>, y': Sys, q: Inquiry, vs: seq<Ballot>)
    requires Sound(y.x.b) && ArriveStep(y, Arrive(r), out, y') && Pending(y, q, vs) && !Counts(y, r)
    ensures Pending(y', q, vs) && out == []
  {
    ArriveAtBroker(y, r, out, y'.x);
  }

  lemma OtherArrival(y: Sys, r: Reply, out: seq<Output>, y': Sys, q: Inquiry, vs: seq<Ballot>)
    requires Sound(y.x.b) && ArriveStep(y, Arrive(r), out, y') && Pending(y, q, vs)
    requires Counts(y, r) && r.client != q.client
    ensures Pending(y', q, vs) && AnswersIn(out)[q.client] == 0
  {
    CountedArrival(y, r, out, y'.x, q, vs);
  }

  lemma ArrivalAndPending(y: Sys, r: Reply, out: seq<Output>, y': Sys, q: Inquiry, vs: seq<Ballot>,
                          body: Bodies, faulty: set<nat>)
    requires SysOk(y, body, faulty) && ArriveStep(y, Arrive(r), out, y') && Pending(y, q, vs)
    ensures var cast := Cast(Arrive(r), q.origin.service, q.client);
            if cast == [] then Pending(y', q, vs) && AnswersIn(out)[q.client] == 0
            else Tallied(y, out, y', q, vs + cast)
  {
    PendingWaits(y, q, vs);
    if Counts(y, r) && r.client == q.client {
      CountedArrival(y, r, out, y'.x, q, vs);
      OwnArrival(y, r, out, y', q, vs, body, faulty);
    } else if Counts(y, r) {
      OtherArrival(y, r, out, y', q, vs);
    } else {
      IgnoredArrival(y, r, out, y', q, vs);
    }
  }

  /** Processes and losses leave the broker and the votes alone. */
  lemma ElsewhereLeavesPending(y: Sys, a: Act, out: seq<Output>, y': Sys, q: Inquiry, vs: seq<Ballot>,
                               body: Bodies, faulty: set<nat>)
    requires SysStep(body, faulty, y, a, out, y') && EventOf(a).None? && Pending(y, q, vs)
    ensures Pending(y', q, vs) && AnswersIn(out)[q.client] == 0
  {
    assert y'.x == y.x && y'.current == y.current && y'.votes == y.votes && out == [];
  }

  /** Every step but an arrival. */
  lemma NoArrivalLeavesPending(y: Sys, a: Act, out: seq<Output>, y': Sys, q: Inquiry, vs: seq<Ballot>,
                               body: Bodies, faulty: set<nat>)
    requires Sound(y.x.b) && AskedOk(y) && SysStep(body, faulty, y, a, out, y') && !a.Arrive?
    requires Pending(y, q, vs) && InTime(a, q.due)
    ensures Pending(y', q, vs) && AnswersIn(out)[q.client] == 0
  {
    match a
    case Ask(_, _, _, _, _) => AskLeavesPending(y, a, out, y', q, vs);
    case Internal(_) => InternalLeavesPending(y, a, out, y', q, vs);
    case _ => ElsewhereLeavesPending(y, a, out, y', q, vs, body, faulty);
  }

  /** Any step of the system, seen from a request whose deadline has not passed. */
  lemma StepAndPending(y: Sys, a: Act, out: seq<Output>, y': Sys, q: Inquiry, vs: seq<Ballot>,
                       body: Bodies, faulty: set<nat>)
    requires SysOk(y, body, faulty) && SysStep(body, faulty, y, a, out, y') && Pending(y, q, vs) && InTime(a, q.due)
    ensures var cast := Cast(a, q.origin.service, q.client);
            if cast == [] then Pending(y', q, vs) && AnswersIn(out)[q.client] == 0
            else Tallied(y, out, y', q, vs + cast)
  {
    if a.Arrive? {
      ArrivalAndPending(y, a.reply, out, y', q, vs, body, faulty);
    } else {
      NoArrivalLeavesPending(y, a, out, y', q, vs, body, faulty);
    }
  }

  // ---- Whole runs

  /** Step `i` of the run asks `q`, and the broker accepts it. */
  ghost predicate Opens(ys: seq<Sys>, acts: seq<Act>, i: nat, q: Inquiry)
    requires i < |acts| < |ys|
  {
    && acts[i].Ask? && acts[i].args != [] && acts[i].service in ys[i].x.b.services
    && q == Inquiry(acts[i].client, Origin(acts[i].service, ys[i].x.b.services[acts[i].service].requestId),
                    acts[i].args, AddMs(acts[i].clock, REQUEST_TIMEOUT))
  }

  /** No deadline pass from step `lo` up to step `hi` comes after the deadline. */
  ghost predicate AllInTime(acts: seq<Act>, due: Timespec, lo: nat, hi: nat)
    requires lo <= hi <= |acts|
  {
    forall k :: lo <= k < hi ==> InTime(acts[k], due)
  }

  ghost predicate Unanswered(outs: seq<seq<Output>>, c: Client, lo: nat, hi: nat)
    requires lo <= hi <= |outs|
  {
    forall k :: lo <= k < hi ==> AnswersIn(outs[k])[c] == 0
  }

  lemma OpensPending(nmr: nat, body: Bodies, faulty: set<nat>, ys: seq<Sys>, acts: seq<Act>,
                     outs: seq<seq<Output>>, i: nat, q: Inquiry)
    requires 0 < nmr < UINT8_SIZE && IsSystemRun(nmr, body, faulty, ys, acts, outs) && i < |acts|
    requires Opens(ys, acts, i, q)
    ensures Pending(ys[i + 1], q, [])
    ensures q.origin in ys[i + 1].asked && ys[i + 1].asked[q.origin] == Question(q.client, q.args)
  {
    SystemRunsAreOk(nmr, body, faulty, ys, acts, outs, i);
    assert SysRunStep(body, faulty, ys, acts, outs, i);
    ForwardsAgree(ys[i], acts[i], outs[i], ys[i + 1]);
    var rs, rs' := ys[i].x.b.services[acts[i].service].requests, ys[i + 1].x.b.services[acts[i].service].requests;
    assert rs'[|rs|] == RequestRecord(q.client, [], q.due);
  }

  /** One more step of the run, from a state in which the request is pending with all votes that have arrived. */
  lemma PendingStep(nmr: nat, body: Bodies, faulty: set<nat>, ys: seq<Sys>, acts: seq<Act>,
                    outs: seq<seq<Output>>, k: nat, q: Inquiry, vs: seq<Ballot>)
    requires 0 < nmr < UINT8_SIZE && IsSystemRun(nmr, body, faulty, ys, acts, outs) && k < |acts|
    requires Pending(ys[k], q, vs) && InTime(acts[k], q.due)
    ensures var cast := Cast(acts[k], q.origin.service, q.client);
            && ys[k].x.b.nmr == nmr
            && if cast == [] then Pending(ys[k + 1], q, vs) && AnswersIn(outs[k])[q.client] == 0
               else Tallied(ys[k], outs[k], ys[k + 1], q, vs + cast)
  {
    SystemRunsAreOk(nmr, body, faulty, ys, acts, outs, k);
    RedundancyIsFixed(nmr, body, faulty, ys, acts, outs, k);
    assert SysRunStep(body, faulty, ys, acts, outs, k);
    StepAndPending(ys[k], acts[k], outs[k], ys[k + 1], q, vs, body, faulty);
  }

  lemma ToldIsTold(c: Client, results: seq<int>, nmr: nat)
    requires |results| < UINT8_SIZE
    ensures AnswersIn(Told(c, results, nmr))[c] == 0 <==> Told(c, results, nmr) == []
  {
    match Decide(results, nmr)
    case Some(verdict) => assert [Answer(c, verdict)][1..] == [];
    case None =>
  }

  /** Until its client is answered or its deadline passes, a request is pending with all votes that have arrived. */
  lemma {:induction false} PendingWhileUnanswered(nmr: nat, body: Bodies, faulty: set<nat>, ys: seq<Sys>,
                                                  acts: seq<Act>, outs: seq<seq<Output>>, i: nat, k: nat, q: Inquiry)
    requires 0 < nmr < UINT8_SIZE && IsSystemRun(nmr, body, faulty, ys, acts, outs) && i < k <= |acts|
    requires Opens(ys, acts, i, q) && AllInTime(acts, q.due, i + 1, k) && Unanswered(outs, q.client, i + 1, k)
    ensures Pending(ys[k], q, Arriving(acts, q.origin.service, q.client, i + 1, k))
    decreases k
  {
    if k == i + 1 {
      OpensPending(nmr, body, faulty, ys, acts, outs, i, q);
    } else {
      PendingWhileUnanswered(nmr, body, faulty, ys, acts, outs, i, k - 1, q);
      var vs := Arriving(acts, q.origin.service, q.client, i + 1, k - 1);
      var cast := Cast(acts[k - 1], q.origin.service, q.client);
      PendingStep(nmr, body, faulty, ys, acts, outs, k - 1, q, vs);
      if cast == [] {
        assert vs + cast == vs;
      } else {
        ToldIsTold(q.client, Values(vs + cast), nmr);
      }
    }
  }

  /** A pending request has no majority among its votes. */
  lemma PendingIsUndecided(y: Sys, q: Inquiry, vs: seq<Ballot>, v: int, body: Bodies, faulty: set<nat>)
    requires SysOk(y, body, faulty) && Pending(y, q, vs)
    ensures |vs| < y.x.b.nmr && !HasMajority(Values(vs), y.x.b.nmr, v)
  {
    var rs := y.x.b.services[q.origin.service].requests;
    var k :| 0 <= k < |rs| && rs[k].client == q.client && rs[k].timeout == q.due;
    assert RecordOk(y, body, faulty, q.origin.service, rs[k]);
    UndecidedMeansNoMajority(rs[k].results, y.x.b.nmr, v);
  }

  lemma {:induction false} ArrivedRemain(acts: seq<Act>, s: Service, c: Client, lo: nat, mid: nat, hi: nat)
    requires lo <= mid <= hi <= |acts|
    ensures Arriving(acts, s, c, lo, mid) <= Arriving(acts, s, c, lo, hi)
    decreases hi
  {
    if mid < hi {
      ArrivedRemain(acts, s, c, lo, mid, hi - 1);
    }
  }

  /** Later votes take no bad vote away. */
  lemma {:induction false} BadOfPrefix(vs: seq<Ballot>, all: seq<Ballot>, o: Origin, honest: int)
    requires vs <= all
    ensures Bad(vs, o, honest) <= Bad(all, o, honest)
  {
    if |vs| < |all| {
      BadOfPrefix(vs, all[..|all| - 1], o, honest);
    } else {
      assert vs == all;
    }
  }

  /** The first step from `lo` on that answers the client, if there is one before `hi`. */
  lemma {:induction false} FirstAnswer(outs: seq<seq<Output>>, c: Client, lo: nat, hi: nat) returns (k: nat)
    requires lo <= hi <= |outs|
    ensures lo <= k <= hi && Unanswered(outs, c, lo, k)
    ensures k < hi ==> AnswersIn(outs[k])[c] > 0
    decreases hi - lo
  {
    if lo == hi || AnswersIn(outs[lo])[c] > 0 {
      k := lo;
    } else {
      k := FirstAnswer(outs, c, lo + 1, hi);
    }
  }

  /** What is told on votes of which few are bad is the honest value. */
  lemma ToldHonest(c: Client, vs: seq<Ballot>, nmr: nat, o: Origin, honest: int)
    requires |vs| <= nmr < UINT8_SIZE
    ensures Bad(vs, o, honest) <= (nmr - 1) / 2 && Told(c, Values(vs), nmr) != [] ==>
              Told(c, Values(vs), nmr) == [Answer(c, Available(honest))]
  {
    if Bad(vs, o, honest) <= (nmr - 1) / 2 {
      ElectFindsMajority(Values(vs), nmr);
      match Decide(Values(vs), nmr)
      case None =>
      case Some(Available(v)) =>
        assert Answer(c, Available(v)) in Told(c, Values(vs), nmr);
        ToldMajority(c, Values(vs), nmr, v);
        MajorityIsHonest(vs, nmr, o, honest, v);
      case Some(_) =>
        HonestMajorityWins(vs, nmr, o, honest);
    }
  }

  /** With enough good votes in, the client has been answered. */
  lemma EnoughVotesAnswer(nmr: nat, body: Bodies, faulty: set<nat>, ys: seq<Sys>, acts: seq<Act>,
                          outs: seq<seq<Output>>, i: nat, j: nat, q: Inquiry, honest: int)
    requires 0 < nmr < UINT8_SIZE && IsSystemRun(nmr, body, faulty, ys, acts, outs) && i < j <= |acts|
    requires Opens(ys, acts, i, q) && AllInTime(acts, q.due, i + 1, j)
    requires var arrived := Arriving(acts, q.origin.service, q.client, i + 1, j);
             |arrived| - Bad(arrived, q.origin, honest) > nmr / 2
    ensures !Unanswered(outs, q.client, i + 1, j)
  {
    if Unanswered(outs, q.client, i + 1, j) {
      var arrived := Arriving(acts, q.origin.service, q.client, i + 1, j);
      PendingWhileUnanswered(nmr, body, faulty, ys, acts, outs, i, j, q);
      SystemRunsAreOk(nmr, body, faulty, ys, acts, outs, j);
      RedundancyIsFixed(nmr, body, faulty, ys, acts, outs, j);
      PendingIsUndecided(ys[j], q, arrived, honest, body, faulty);
      GoodVotesCount(arrived, q.origin, honest);
      assert false;
    }
  }

  /** The first answer the client gets is the verdict on the votes that have arrived by then. */
  lemma FirstAnswerIsVerdict(nmr: nat, body: Bodies, faulty: set<nat>, ys: seq<Sys>, acts: seq<Act>,
                             outs: seq<seq<Output>>, i: nat, k: nat, q: Inquiry)
    requires 0 < nmr < UINT8_SIZE && IsSystemRun(nmr, body, faulty, ys, acts, outs) && i < k < |acts|
    requires Opens(ys, acts, i, q) && AllInTime(acts, q.due, i + 1, k + 1)
    requires Unanswered(outs, q.client, i + 1, k) && AnswersIn(outs[k])[q.client] > 0
    ensures var vs := Arriving(acts, q.origin.service, q.client, i + 1, k + 1);
            |vs| <= nmr && outs[k] == Told(q.client, Values(vs), nmr) != []
  {
    PendingWhileUnanswered(nmr, body, faulty, ys, acts, outs, i, k, q);
    PendingStep(nmr, body, faulty, ys, acts, outs, k, q, Arriving(acts, q.origin.service, q.client, i + 1, k));
  }

  lemma ToldHonestEarly(c: Client, vs: seq<Ballot>, all: seq<Ballot>, nmr: nat, o: Origin, honest: int)
    requires vs <= all && |vs| <= nmr < UINT8_SIZE && Bad(all, o, honest) <= (nmr - 1) / 2
    requires Told(c, Values(vs), nmr) != []
    ensures Told(c, Values(vs), nmr) == [Answer(c, Available(honest))]
  {
    BadOfPrefix(vs, all, o, honest);
    ToldHonest(c, vs, nmr, o, honest);
  }

  /** The first answer is the verdict on some of the votes that arrive before step `j`. */
  lemma FirstAnswerInTime(nmr: nat, body: Bodies, faulty: set<nat>, ys: seq<Sys>, acts: seq<Act>,
                          outs: seq<seq<Output>>, i: nat, k: nat, j: nat, q: Inquiry, all: seq<Ballot>)
    returns (vs: seq<Ballot>)
    requires 0 < nmr < UINT8_SIZE && IsSystemRun(nmr, body, faulty, ys, acts, outs) && i < k < j <= |acts|
    requires Opens(ys, acts, i, q) && AllInTime(acts, q.due, i + 1, j)
    requires Unanswered(outs, q.client, i + 1, k) && AnswersIn(outs[k])[q.client] > 0
    requires all == Arriving(acts, q.origin.service, q.client, i + 1, j)
    ensures vs <= all && |vs| <= nmr && outs[k] == Told(q.client, Values(vs), nmr) != []
  {
    FirstAnswerIsVerdict(nmr, body, faulty, ys, acts, outs, i, k, q);
    ArrivedRemain(acts, q.origin.service, q.client, i + 1, k + 1, j);
    vs := Arriving(acts, q.origin.service, q.client, i + 1, k + 1);
  }

  lemma FirstAnswerIsHonest(nmr: nat, body: Bodies, faulty: set<nat>, ys: seq<Sys>, acts: seq<Act>,
                            outs: seq<seq<Output>>, i: nat, k: nat, j: nat, q: Inquiry, all: seq<Ballot>, honest: int)
    requires 0 < nmr < UINT8_SIZE && IsSystemRun(nmr, body, faulty, ys, acts, outs) && i < k < j <= |acts|
    requires Opens(ys, acts, i, q) && AllInTime(acts, q.due, i + 1, j)
    requires Unanswered(outs, q.client, i + 1, k) && AnswersIn(outs[k])[q.client] > 0
    requires all == Arriving(acts, q.origin.service, q.client, i + 1, j)
    requires Bad(all, q.origin, honest) <= (nmr - 1) / 2
    ensures outs[k] == [Answer(q.client, Available(honest))]
  {
    var vs := FirstAnswerInTime(nmr, body, faulty, ys, acts, outs, i, k, j, q, all);
    ToldHonestEarly(q.client, vs, all, nmr, q.origin, honest);
  }

  /**
   * In every run: a request is accepted at step `i`, and up to step `j` no deadline pass comes after its
   * deadline. If among the results that arrive for its client at its service at most (nmr-1)/2 are wrong or
   * answer another request, and the others are more than half of the copies, then the first answer the
   * client gets after asking is SERVICE_AVAILABLE with the honest value, and it gets it before step `j`.
   */
  lemma HonestValueIsAnswered(nmr: nat, body: Bodies, faulty: set<nat>, ys: seq<Sys>, acts: seq<Act>,
                              outs: seq<seq<Output>>, i: nat, j: nat, q: Inquiry)
    requires 0 < nmr < UINT8_SIZE && IsSystemRun(nmr, body, faulty, ys, acts, outs) && i < j <= |acts|
    requires Opens(ys, acts, i, q) && AllInTime(acts, q.due, i + 1, j)
    requires var arrived := Arriving(acts, q.origin.service, q.client, i + 1, j);
             var bad := Bad(arrived, q.origin, body(q.origin.service, q.args[0]));
             bad <= (nmr - 1) / 2 && |arrived| - bad > nmr / 2
    ensures exists k :: i < k < j && Unanswered(outs, q.client, i + 1, k)
                        && outs[k] == [Answer(q.client, Available(body(q.origin.service, q.args[0])))]
  {
    var honest := body(q.origin.service, q.args[0]);
    var arrived := Arriving(acts, q.origin.service, q.client, i + 1, j);
    EnoughVotesAnswer(nmr, body, faulty, ys, acts, outs, i, j, q, honest);
    var k := FirstAnswer(outs, q.client, i + 1, j);
    FirstAnswerIsHonest(nmr, body, faulty, ys, acts, outs, i, k, j, q, arrived, honest);
  }

  /** In particular when all `nmr` results arrive in time and at most (nmr-1)/2 of them are wrong or stale. */
  lemma AllVotesInTimeAreAnswered(nmr: nat, body: Bodies, faulty: set<nat>, ys: seq<Sys>, acts: seq<Act>,
                                  outs: seq<seq<Output>>, i: nat, j: nat, q: Inquiry)
    requires 0 < nmr < UINT8_SIZE && IsSystemRun(nmr, body, faulty, ys, acts, outs) && i < j <= |acts|
    requires Opens(ys, acts, i, q) && AllInTime(acts, q.due, i + 1, j)
    requires var arrived := Arriving(acts, q.origin.service, q.client, i + 1, j);
             |arrived| >= nmr && Bad(arrived, q.origin, body(q.origin.service, q.args[0])) <= (nmr - 1) / 2
    ensures exists k :: i < k < j && Unanswered(outs, q.client, i + 1, k)
                        && outs[k] == [Answer(q.client, Available(body(q.origin.service, q.args[0])))]
  {
    HonestValueIsAnswered(nmr, body, faulty, ys, acts, outs, i, j, q);
  }

  // ---- Every accepted request is answered

  lemma DueIsLate(b: Broker, now: Timespec, s: Service, c: Client, due: Timespec)
    requires Sound(b) && s in b.services && HasRecord(b.services[s].requests, c, due) && Expired(now, due)
    ensures LateSomewhere(b.services, b.available, 0, now, c)
  {
    var rs := b.services[s].requests;
    var i :| 0 <= i < |rs| && rs[i].client == c && rs[i].timeout == due;
    LiveAndLate(rs, now);
    HasClientIn(Late(rs, now), c);
    LateHere(b, now, s, c);
  }

  lemma LatePassTells(b: Broker, now: Timespec, s: Service, c: Client, due: Timespec)
    requires Sound(b) && s in b.services && HasRecord(b.services[s].requests, c, due) && Expired(now, due)
    requires Step(b, Sweeping(now)).Ok?
    ensures AnswersIn(Step(b, Sweeping(now)).out)[c] == 1 && Answer(c, NotReliable) in Step(b, Sweeping(now)).out
  {
    var o := Step(b, Sweeping(now));
    BrokerTheorems.PassIsNotReliable(b, now, o.state, o.out);
    DueIsLate(b, now, s, c, due);
    SweepTally(b.services, b.nmr, b.available, 0, now, c);
    AnswersInIff(o.out, c);
  }

  /** The first answer: the verdict on what has arrived by then, or NOT_RELIABLE in the pass at step `j`. */
  ghost predicate Concluded(nmr: nat, acts: seq<Act>, outs: seq<seq<Output>>, i: nat, k: nat, j: nat, q: Inquiry)
    requires nmr < UINT8_SIZE && i < k <= j < |acts| == |outs|
  {
    var vs := Arriving(acts, q.origin.service, q.client, i + 1, k + 1);
    && Unanswered(outs, q.client, i + 1, k)
    && (k < j ==> |vs| <= nmr && outs[k] == Told(q.client, Values(vs), nmr) != [])
    && (k == j ==> AnswersIn(outs[j])[q.client] == 1 && Answer(q.client, NotReliable) in outs[j])
  }

  lemma PassConcludes(nmr: nat, body: Bodies, faulty: set<nat>, ys: seq<Sys>, acts: seq<Act>,
                      outs: seq<seq<Output>>, i: nat, j: nat, q: Inquiry, now: Timespec)
    requires 0 < nmr < UINT8_SIZE && IsSystemRun(nmr, body, faulty, ys, acts, outs) && i < j < |acts|
    requires Opens(ys, acts, i, q) && AllInTime(acts, q.due, i + 1, j) && Unanswered(outs, q.client, i + 1, j)
    requires acts[j] == Internal(Sweeping(now)) && Expired(now, q.due)
    ensures AnswersIn(outs[j])[q.client] == 1 && Answer(q.client, NotReliable) in outs[j]
  {
    PendingWhileUnanswered(nmr, body, faulty, ys, acts, outs, i, j, q);
    SystemRunsAreOk(nmr, body, faulty, ys, acts, outs, j);
    assert SysRunStep(body, faulty, ys, acts, outs, j);
    LatePassTells(ys[j].x.b, now, q.origin.service, q.client, q.due);
  }

  /**
   * In every run: the client of an accepted request is answered, at the latest by the first deadline pass
   * after the deadline. Its first answer is the verdict on all results that have arrived by then, or
   * NOT_RELIABLE, once, in that pass.
   */
  lemma EveryRequestIsConcluded(nmr: nat, body: Bodies, faulty: set<nat>, ys: seq<Sys>, acts: seq<Act>,
                                outs: seq<seq<Output>>, i: nat, j: nat, q: Inquiry, now: Timespec)
    requires 0 < nmr < UINT8_SIZE && IsSystemRun(nmr, body, faulty, ys, acts, outs) && i < j < |acts|
    requires Opens(ys, acts, i, q) && AllInTime(acts, q.due, i + 1, j)
    requires acts[j] == Internal(Sweeping(now)) && Expired(now, q.due)
    ensures exists k :: i < k <= j && Concluded(nmr, acts, outs, i, k, j, q)
  {
    var k := FirstAnswer(outs, q.client, i + 1, j);
    if k < j {
      FirstAnswerIsVerdict(nmr, body, faulty, ys, acts, outs, i, k, q);
    } else {
      PassConcludes(nmr, body, faulty, ys, acts, outs, i, j, q, now);
    }
    assert Concluded(nmr, acts, outs, i, k, j, q);
  }

  // ---- The votes on a request in terms of processes, whenever clients ask

  lemma AskedStep(y: Sys, a: Act, out: seq<Output>, y': Sys, body: Bodies, faulty: set<nat>, o: Origin)
    requires FreeOk(y, body, faulty) && FreeSysStep(body, faulty, y, a, out, y') && o in y.asked
    ensures o in y'.asked && y'.asked[o] == y.asked[o]
  {
    if a.Ask? && a.service in y.x.b.services {
      ForwardsAgree(y, a, out, y');
    }
  }

  lemma {:induction false} AskedStays(nmr: nat, body: Bodies, faulty: set<nat>, ys: seq<Sys>, acts: seq<Act>,
                                      outs: seq<seq<Output>>, i: nat, k: nat, q: Inquiry)
    requires 0 < nmr < UINT8_SIZE && IsFreeSystemRun(nmr, body, faulty, ys, acts, outs) && i < k <= |acts|
    requires Opens(ys, acts, i, q)
    ensures q.origin in ys[k].asked && ys[k].asked[q.origin] == Question(q.client, q.args)
    decreases k
  {
    if k == i + 1 {
      assert FreeRunStep(body, faulty, ys, acts, outs, i);
    } else {
      AskedStays(nmr, body, faulty, ys, acts, outs, i, k - 1, q);
      FreeRunsAreOk(nmr, body, faulty, ys, acts, outs, k - 1);
      assert FreeRunStep(body, faulty, ys, acts, outs, k - 1);
      AskedStep(ys[k - 1], acts[k - 1], outs[k - 1], ys[k], body, faulty, q.origin);
    }
  }

  /** A result for the request that a process without fault sends is the honest value. */
  ghost predicate HonestUnlessFaulty(vs: seq<Ballot>, o: Origin, honest: int, faulty: set<nat>) {
    forall n :: 0 <= n < |vs| && vs[n].origin == o && vs[n].pid !in faulty ==> vs[n].value == honest
  }

  lemma CastIsHonest(nmr: nat, body: Bodies, faulty: set<nat>, ys: seq<Sys>, acts: seq<Act>,
                     outs: seq<seq<Output>>, i: nat, k: nat, q: Inquiry)
    requires 0 < nmr < UINT8_SIZE && IsFreeSystemRun(nmr, body, faulty, ys, acts, outs) && i < k < |acts|
    requires Opens(ys, acts, i, q)
    ensures HonestUnlessFaulty(Cast(acts[k], q.origin.service, q.client), q.origin,
                               body(q.origin.service, q.args[0]), faulty)
  {
    FreeRunsAreOk(nmr, body, faulty, ys, acts, outs, k);
    AskedStays(nmr, body, faulty, ys, acts, outs, i, k, q);
    assert FreeRunStep(body, faulty, ys, acts, outs, k);
    if acts[k].Arrive? && !acts[k].reply.duplicated {
      var r := acts[k].reply;
      assert ResultOk(ys[k], body, faulty, r.service, r.pid, r.origin, r.value);
    }
  }

  lemma {:induction false} ArrivingAreHonest(nmr: nat, body: Bodies, faulty: set<nat>, ys: seq<Sys>, acts: seq<Act>,
                                             outs: seq<seq<Output>>, i: nat, k: nat, q: Inquiry)
    requires 0 < nmr < UINT8_SIZE && IsFreeSystemRun(nmr, body, faulty, ys, acts, outs) && i < k <= |acts|
    requires Opens(ys, acts, i, q)
    ensures HonestUnlessFaulty(Arriving(acts, q.origin.service, q.client, i + 1, k), q.origin,
                               body(q.origin.service, q.args[0]), faulty)
    decreases k
  {
    if k > i + 1 {
      ArrivingAreHonest(nmr, body, faulty, ys, acts, outs, i, k - 1, q);
      CastIsHonest(nmr, body, faulty, ys, acts, outs, i, k - 1, q);
    }
  }

  ghost predicate AllCounted(vs: seq<Ballot>, counted: set<(nat, nat)>) {
    forall n :: 0 <= n < |vs| ==> (vs[n].pid, vs[n].origin.id) in counted
  }

  lemma OneMoreVote(vs: seq<Ballot>, v: Ballot, counted: set<(nat, nat)>, counted': set<(nat, nat)>)
    requires OneVoteEach(vs) && AllCounted(vs, counted) && counted <= counted'
    requires (v.pid, v.origin.id) !in counted && (v.pid, v.origin.id) in counted'
    ensures OneVoteEach(vs + [v]) && AllCounted(vs + [v], counted')
  {
  }

  /** No process is among the arriving results twice for one request id. */
  lemma {:induction false} ArrivingVoteOnce(nmr: nat, body: Bodies, faulty: set<nat>, ys: seq<Sys>, acts: seq<Act>,
                                            outs: seq<seq<Output>>, s: Service, c: Client, lo: nat, k: nat)
    requires 0 < nmr < UINT8_SIZE && IsFreeSystemRun(nmr, body, faulty, ys, acts, outs) && lo <= k <= |acts|
    ensures var vs := Arriving(acts, s, c, lo, k);
            OneVoteEach(vs) && AllCounted(vs, ys[k].counted)
    decreases k
  {
    if k > lo {
      ArrivingVoteOnce(nmr, body, faulty, ys, acts, outs, s, c, lo, k - 1);
      var cast := Cast(acts[k - 1], s, c);
      if cast == [] {
        CountedAt(nmr, body, faulty, ys, acts, outs, k - 1, 0, 0);
        assert Arriving(acts, s, c, lo, k) == Arriving(acts, s, c, lo, k - 1);
      } else {
        CountedAt(nmr, body, faulty, ys, acts, outs, k - 1, cast[0].pid, cast[0].origin.id);
        OneMoreVote(Arriving(acts, s, c, lo, k - 1), cast[0], ys[k - 1].counted, ys[k].counted);
      }
    }
  }

  /**
   * In every run: all `nmr` results arrive before the deadline, and those that answer another request
   * together with the faulty processes that voted are at most (nmr-1)/2. Then the first answer the client
   * gets is the honest value.
   */
  lemma FaultyMinorityIsOutvoted(nmr: nat, body: Bodies, faulty: set<nat>, ys: seq<Sys>, acts: seq<Act>,
                                 outs: seq<seq<Output>>, i: nat, j: nat, q: Inquiry)
    requires 0 < nmr < UINT8_SIZE && IsSystemRun(nmr, body, faulty, ys, acts, outs) && i < j <= |acts|
    requires Opens(ys, acts, i, q) && AllInTime(acts, q.due, i + 1, j)
    requires var arrived := Arriving(acts, q.origin.service, q.client, i + 1, j);
             |arrived| >= nmr && Stale(arrived, q.origin) + |CurrentFaulty(arrived, q.origin, faulty)| <= (nmr - 1) / 2
    ensures exists k :: i < k < j && Unanswered(outs, q.client, i + 1, k)
                        && outs[k] == [Answer(q.client, Available(body(q.origin.service, q.args[0])))]
  {
    var arrived := Arriving(acts, q.origin.service, q.client, i + 1, j);
    SystemRunIsFree(nmr, body, faulty, ys, acts, outs);
    ArrivingAreHonest(nmr, body, faulty, ys, acts, outs, i, j, q);
    ArrivingVoteOnce(nmr, body, faulty, ys, acts, outs, q.origin.service, q.client, i + 1, j);
    BadIsStaleOrFaulty(arrived, q.origin, body(q.origin.service, q.args[0]), faulty);
    AllVotesInTimeAreAnswered(nmr, body, faulty, ys, acts, outs, i, j, q);
  }
}
