/** End to end: what a client is told, in every run of clients, broker, processes and network. */
module SystemTheorems {
  import opened Common
  import opened Voting
  import opened Requests
  import opened BrokerMachine
  import opened BrokerRuns
  import BrokerTheorems
  import opened Masking
  import opened System
  import opened FreeSystem

  /** The votes a reply is the last of, with the request its client is waiting for. */
  ghost predicate Concludes(y: Sys, r: Reply, y': Sys, vs: seq<Ballot>, o: Origin) {
    && Counts(y, r) && r.client in y'.votes && vs == y'.votes[r.client]
    && r.client in y.current && o == y.current[r.client] && o.service == r.service
    && o in y.asked && y.asked[o].args != []
  }

  /** What the broker sends for a counted reply is the verdict on all results of the record so far, if there is one. */
  lemma CountedAnswers(b: Broker, s: Service, k: nat, v: int, b': Broker, out: seq<Output>)
    requires s in b.services && k < |b.services[s].requests|
    requires |b.services[s].requests[k].results| + 1 < UINT8_SIZE
    requires Counted(b, s, k, v) == Ok(b', out)
    ensures out == Told(b.services[s].requests[k].client, b.services[s].requests[k].results + [v], b.nmr)
  {
  }

  function Told(c: Client, results: seq<int>, nmr: nat): seq<Output>
    requires |results| < UINT8_SIZE
  {
    match Decide(results, nmr)
    case Some(verdict) => [Answer(c, verdict)]
    case None => []
  }

  /** The votes behind a waiting client's record, with the one that has just arrived. */
  lemma VotesWithReply(y: Sys, r: Reply, q: RequestRecord, body: Bodies, faulty: set<nat>)
    requires RepliesOk(y, body, faulty) && VotesOk(y, body, faulty) && r in y.replies && !r.duplicated
    requires RecordOk(y, body, faulty, r.service, q) && q.client == r.client
    ensures var vs := y.votes[r.client] + [BallotOf(r)];
            && Values(vs) == q.results + [r.value] && OneVoteEach(vs) && VotesAreResults(y, r.service, vs, body, faulty)
  {
    NewVoteIsNew(y, r, r.client, body, faulty);
    var vs := y.votes[r.client] + [BallotOf(r)];
    assert Values(vs) == Values(y.votes[r.client]) + [r.value];
  }

  ghost predicate VotesAreResults(y: Sys, s: Service, vs: seq<Ballot>, body: Bodies, faulty: set<nat>) {
    forall i :: 0 <= i < |vs| ==> ResultOk(y, body, faulty, s, vs[i].pid, vs[i].origin, vs[i].value)
  }

  /** The record a counted reply belongs to, and what the client is told. */
  lemma WaitingRecord(y: Sys, r: Reply, out: seq<Output>, x': Session, body: Bodies, faulty: set<nat>)
      returns (q: RequestRecord)
    requires SysOk(y, body, faulty) && Next(y.x, ReplyEvent(r), out, x') && Counts(y, r)
    ensures RecordOk(y, body, faulty, r.service, q) && q.client == r.client
    ensures |q.results| < y.x.b.nmr < UINT8_SIZE && out == Told(q.client, q.results + [r.value], y.x.b.nmr)
  {
    ArriveAtBroker(y, r, out, x');
    var rs := y.x.b.services[r.service].requests;
    var k :| 0 <= k < |rs| && rs[k].client == r.client && |rs[k].results| + 1 < UINT8_SIZE
             && Counted(y.x.b, r.service, k, r.value) == Ok(x'.b, out);
    CountedAnswers(y.x.b, r.service, k, r.value, x'.b, out);
    q := rs[k];
  }

  /** A counted reply leaves a verdict on all votes so far, or none yet. */
  lemma ReplyVerdict(y: Sys, r: Reply, out: seq<Output>, y': Sys, body: Bodies, faulty: set<nat>)
    requires SysOk(y, body, faulty) && ArriveStep(y, Arrive(r), out, y') && Counts(y, r)
    ensures r.client in y'.votes && r.client in y.current
    ensures var vs := y'.votes[r.client];
            && Concludes(y, r, y', vs, y.current[r.client])
            && |vs| <= y.x.b.nmr < UINT8_SIZE
            && OneVoteEach(vs) && VotesAreResults(y, r.service, vs, body, faulty)
            && out == Told(r.client, Values(vs), y.x.b.nmr)
  {
    var q := WaitingRecord(y, r, out, y'.x, body, faulty);
    VotesWithReply(y, r, q, body, faulty);
    assert y'.votes[r.client] == y.votes[r.client] + [BallotOf(r)];
  }

  /** Told a value, the client was told one that the majority of the results so far share. */
  lemma ToldMajority(c: Client, results: seq<int>, nmr: nat, v: int)
    requires |results| <= nmr < UINT8_SIZE && Answer(c, Available(v)) in Told(c, results, nmr)
    ensures HasMajority(results, nmr, v)
  {
    ElectFindsMajority(results, nmr);
  }

  // ---- Arrivals in runs

  lemma StepKeepsRedundancy(y: Sys, a: Act, out: seq<Output>, y': Sys, body: Bodies, faulty: set<nat>)
    requires Valid(y.x.b) && SysStep(body, faulty, y, a, out, y')
    ensures y'.x.b.nmr == y.x.b.nmr
  {
    match a
    case Ask(_, _, _, _, _) => StepKeepsNmr(y.x.b, AskEvent(a));
    case Arrive(r) => StepKeepsNmr(y.x.b, ReplyEvent(r));
    case Internal(e) => StepKeepsNmr(y.x.b, e);
    case Deliver(_, _, _, _) =>
    case Spawn(_, _) =>
    case LoseParcel(_) =>
    case LoseReply(_) =>
  }

  lemma {:induction false} RedundancyIsFixed(nmr: nat, body: Bodies, faulty: set<nat>, ys: seq<Sys>, acts: seq<Act>,
                                             outs: seq<seq<Output>>, i: nat)
    requires 0 < nmr < UINT8_SIZE && IsSystemRun(nmr, body, faulty, ys, acts, outs) && i < |ys|
    ensures ys[i].x.b.nmr == nmr
  {
    if i > 0 {
      RedundancyIsFixed(nmr, body, faulty, ys, acts, outs, i - 1);
      SystemRunsAreOk(nmr, body, faulty, ys, acts, outs, i - 1);
      assert SysRunStep(body, faulty, ys, acts, outs, i - 1);
      StepKeepsRedundancy(ys[i - 1], acts[i - 1], outs[i - 1], ys[i], body, faulty);
    }
  }

  /** Neither a request, nor a registration, a pong, a heartbeat or a deadline pass brings a client a value. */
  lemma OtherEventsBringNoValue(b: Broker, e: Event, c: Client, v: int)
    requires Sound(b) && Step(b, e).Ok? && !e.Replying?
    ensures Answer(c, Available(v)) !in Step(b, e).out
  {
    match e
    case Requesting(_, _, _, _, _) =>
    case Sweeping(now) =>
      BrokerTheorems.PassIsNotReliable(b, now, Step(b, e).state, Step(b, e).out);
    case _ =>
  }

  lemma ArrivalBringsValue(y: Sys, r: Reply, out: seq<Output>, x': Session, c: Client, v: int)
    requires Sound(y.x.b) && Next(y.x, ReplyEvent(r), out, x') && Answer(c, Available(v)) in out
    ensures r.client == c && Counts(y, r)
  {
    ArriveAtBroker(y, r, out, x');
  }

  /** In every run only a counted reply makes the broker tell a client a value: the one that waits for it. */
  lemma OnlyRepliesBringValues(nmr: nat, body: Bodies, faulty: set<nat>, ys: seq<Sys>, acts: seq<Act>,
                               outs: seq<seq<Output>>, i: nat, c: Client, v: int)
    requires 0 < nmr < UINT8_SIZE && IsSystemRun(nmr, body, faulty, ys, acts, outs)
    requires i < |acts| && Answer(c, Available(v)) in outs[i]
    ensures acts[i].Arrive? && acts[i].reply.client == c && Counts(ys[i], acts[i].reply)
  {
    SystemRunsAreOk(nmr, body, faulty, ys, acts, outs, i);
    assert SysRunStep(body, faulty, ys, acts, outs, i);
    match acts[i]
    case Arrive(r) => ArrivalBringsValue(ys[i], r, outs[i], ys[i + 1].x, c, v);
    case Ask(_, _, _, _, _) => OtherEventsBringNoValue(ys[i].x.b, AskEvent(acts[i]), c, v);
    case Internal(e) => OtherEventsBringNoValue(ys[i].x.b, e, c, v);
    case _ =>
  }

  /** In every run: the votes behind a counted reply, the request they are counted for, and what the client is told. */
  lemma ArrivalInRun(nmr: nat, body: Bodies, faulty: set<nat>, ys: seq<Sys>, acts: seq<Act>,
                     outs: seq<seq<Output>>, i: nat, r: Reply)
      returns (vs: seq<Ballot>, o: Origin)
    requires 0 < nmr < UINT8_SIZE && IsSystemRun(nmr, body, faulty, ys, acts, outs)
    requires i < |acts| && acts[i] == Arrive(r) && Counts(ys[i], r)
    ensures Concludes(ys[i], r, ys[i + 1], vs, o)
    ensures |vs| <= nmr && OneVoteEach(vs) && VotesAreResults(ys[i], o.service, vs, body, faulty)
    ensures outs[i] == Told(r.client, Values(vs), nmr)
  {
    SystemRunsAreOk(nmr, body, faulty, ys, acts, outs, i);
    RedundancyIsFixed(nmr, body, faulty, ys, acts, outs, i);
    assert SysRunStep(body, faulty, ys, acts, outs, i);
    ReplyVerdict(ys[i], r, outs[i], ys[i + 1], body, faulty);
    vs, o := ys[i + 1].votes[r.client], ys[i].current[r.client];
  }

  // ---- Ids, and one vote per copy, whenever clients ask

  lemma StepKeepsIds(y: Sys, a: Act, out: seq<Output>, y': Sys, body: Bodies, faulty: set<nat>)
    requires FreeOk(y, body, faulty) && FreeSysStep(body, faulty, y, a, out, y')
    ensures IdsKept(y.x.b.services, y'.x.b.services)
  {
    BrokerTakesPart(y, a, out, y', body, faulty);
    if a.Ask? {
      if a.service in y.x.b.services {
        ForwardsAgree(y, a, out, y');
      }
    } else if EventOf(a).Some? {
      OthersTakeNoId(y.x.b, EventOf(a).value);
    }
  }

  lemma IdsKeptAt(nmr: nat, body: Bodies, faulty: set<nat>, ys: seq<Sys>, acts: seq<Act>,
                  outs: seq<seq<Output>>, i: nat)
    requires 0 < nmr < UINT8_SIZE && IsFreeSystemRun(nmr, body, faulty, ys, acts, outs) && i < |acts|
    ensures IdsKept(ys[i].x.b.services, ys[i + 1].x.b.services)
  {
    FreeRunsAreOk(nmr, body, faulty, ys, acts, outs, i);
    assert FreeRunStep(body, faulty, ys, acts, outs, i);
    StepKeepsIds(ys[i], acts[i], outs[i], ys[i + 1], body, faulty);
  }

  lemma {:induction false} IdsNeverFall(nmr: nat, body: Bodies, faulty: set<nat>, ys: seq<Sys>, acts: seq<Act>,
                                        outs: seq<seq<Output>>, i: nat, j: nat)
    requires 0 < nmr < UINT8_SIZE && IsFreeSystemRun(nmr, body, faulty, ys, acts, outs) && i <= j < |ys|
    ensures IdsKept(ys[i].x.b.services, ys[j].x.b.services)
  {
    if i < j {
      IdsNeverFall(nmr, body, faulty, ys, acts, outs, i, j - 1);
      IdsKeptAt(nmr, body, faulty, ys, acts, outs, j - 1);
    }
  }

  lemma AskTakesId(nmr: nat, body: Bodies, faulty: set<nat>, ys: seq<Sys>, acts: seq<Act>,
                   outs: seq<seq<Output>>, i: nat, s: Service)
    requires 0 < nmr < UINT8_SIZE && IsFreeSystemRun(nmr, body, faulty, ys, acts, outs) && i < |acts|
    requires acts[i].Ask? && acts[i].service == s && s in ys[i].x.b.services
    ensures s in ys[i + 1].x.b.services
         && ys[i + 1].x.b.services[s].requestId == ys[i].x.b.services[s].requestId + 1
    ensures forall m :: m in Parcels(outs[i]) ==> m.origin == Origin(s, ys[i].x.b.services[s].requestId)
  {
    FreeRunsAreOk(nmr, body, faulty, ys, acts, outs, i);
    assert FreeRunStep(body, faulty, ys, acts, outs, i);
    ForwardsAgree(ys[i], acts[i], outs[i], ys[i + 1]);
  }

  /** In every run: of two requests accepted for one service, every copy of the later carries a larger id. */
  lemma IdsIncrease(nmr: nat, body: Bodies, faulty: set<nat>, ys: seq<Sys>, acts: seq<Act>,
                    outs: seq<seq<Output>>, i: nat, j: nat, s: Service, p: Parcel, q: Parcel)
    requires 0 < nmr < UINT8_SIZE && IsFreeSystemRun(nmr, body, faulty, ys, acts, outs) && i < j < |acts|
    requires acts[i].Ask? && acts[i].service == s && s in ys[i].x.b.services && p in Parcels(outs[i])
    requires acts[j].Ask? && acts[j].service == s && s in ys[j].x.b.services && q in Parcels(outs[j])
    ensures p.origin.service == q.origin.service == s && p.origin.id < q.origin.id
  {
    AskTakesId(nmr, body, faulty, ys, acts, outs, i, s);
    AskTakesId(nmr, body, faulty, ys, acts, outs, j, s);
    IdsNeverFall(nmr, body, faulty, ys, acts, outs, i + 1, j);
  }

  ghost predicate ResultArrives(a: Act, pid: nat, id: nat) {
    a.Arrive? && !a.reply.duplicated && a.reply.pid == pid && a.reply.origin.id == id
  }

  lemma ArrivalIsCounted(y: Sys, a: Act, out: seq<Output>, y': Sys, body: Bodies, faulty: set<nat>, pid: nat, id: nat)
    requires FreeOk(y, body, faulty) && FreeSysStep(body, faulty, y, a, out, y')
    ensures y.counted <= y'.counted
    ensures ResultArrives(a, pid, id) ==> (pid, id) !in y.counted && (pid, id) in y'.counted
  {
    if ResultArrives(a, pid, id) {
      assert Key(a.reply) == (pid, id);
    }
  }

  lemma CountedAt(nmr: nat, body: Bodies, faulty: set<nat>, ys: seq<Sys>, acts: seq<Act>,
                  outs: seq<seq<Output>>, i: nat, pid: nat, id: nat)
    requires 0 < nmr < UINT8_SIZE && IsFreeSystemRun(nmr, body, faulty, ys, acts, outs) && i < |acts|
    ensures ys[i].counted <= ys[i + 1].counted
    ensures ResultArrives(acts[i], pid, id) ==> (pid, id) !in ys[i].counted && (pid, id) in ys[i + 1].counted
  {
    FreeRunsAreOk(nmr, body, faulty, ys, acts, outs, i);
    assert FreeRunStep(body, faulty, ys, acts, outs, i);
    ArrivalIsCounted(ys[i], acts[i], outs[i], ys[i + 1], body, faulty, pid, id);
  }

  lemma {:induction false} CountedGrows(nmr: nat, body: Bodies, faulty: set<nat>, ys: seq<Sys>, acts: seq<Act>,
                                        outs: seq<seq<Output>>, i: nat, j: nat)
    requires 0 < nmr < UINT8_SIZE && IsFreeSystemRun(nmr, body, faulty, ys, acts, outs) && i <= j < |ys|
    ensures ys[i].counted <= ys[j].counted
  {
    if i < j {
      CountedGrows(nmr, body, faulty, ys, acts, outs, i, j - 1);
      CountedAt(nmr, body, faulty, ys, acts, outs, j - 1, 0, 0);
    }
  }

  /** In every run: a process brings the broker at most one result per request id, however often it was delivered. */
  lemma OneVotePerCopy(nmr: nat, body: Bodies, faulty: set<nat>, ys: seq<Sys>, acts: seq<Act>,
                       outs: seq<seq<Output>>, i: nat, j: nat, pid: nat, id: nat)
    requires 0 < nmr < UINT8_SIZE && IsFreeSystemRun(nmr, body, faulty, ys, acts, outs) && i <= j < |acts|
    requires ResultArrives(acts[i], pid, id) && ResultArrives(acts[j], pid, id)
    ensures i == j
  {
    if i < j {
      CountedAt(nmr, body, faulty, ys, acts, outs, i, pid, id);
      CountedGrows(nmr, body, faulty, ys, acts, outs, i + 1, j);
      CountedAt(nmr, body, faulty, ys, acts, outs, j, pid, id);
    }
  }

  // ---- Fault masking

  /**
   * Whenever a client is told SERVICE_AVAILABLE with a value, and at most half of the redundancy of the
   * votes behind it are wrong or stale, the value is the service's body applied to the first argument of
   * the request the client is waiting for. Counting only votes with another value, the bound is exact.
   */
  lemma AnswersAreHonest(nmr: nat, body: Bodies, faulty: set<nat>, ys: seq<Sys>, acts: seq<Act>,
                         outs: seq<seq<Output>>, i: nat, c: Client, v: int)
    requires 0 < nmr < UINT8_SIZE && IsSystemRun(nmr, body, faulty, ys, acts, outs)
    requires i < |acts| && Answer(c, Available(v)) in outs[i]
    ensures acts[i].Arrive? && acts[i].reply.client == c
    ensures exists vs, o ::
              && Concludes(ys[i], acts[i].reply, ys[i + 1], vs, o)
              && var honest := body(o.service, ys[i].asked[o].args[0]);
                 && (Bad(vs, o, honest) <= nmr / 2 ==> v == honest)
                 && (v == honest <==> |vs| - Votes(Values(vs), honest) <= nmr / 2)
  {
    OnlyRepliesBringValues(nmr, body, faulty, ys, acts, outs, i, c, v);
    var vs, o := ArrivalInRun(nmr, body, faulty, ys, acts, outs, i, acts[i].reply);
    var honest := body(o.service, ys[i].asked[o].args[0]);
    ToldMajority(c, Values(vs), nmr, v);
    HonestIffFewWrong(vs, nmr, honest, v);
    if Bad(vs, o, honest) <= nmr / 2 {
      MajorityIsHonest(vs, nmr, o, honest, v);
    }
  }

  /**
   * The same bound in terms of processes: stale votes plus faulty processes that voted on the request,
   * however often requests were delivered to them, because no process votes on a request twice.
   */
  lemma FaultyMinorityIsMasked(nmr: nat, body: Bodies, faulty: set<nat>, ys: seq<Sys>, acts: seq<Act>,
                               outs: seq<seq<Output>>, i: nat, c: Client, v: int)
    requires 0 < nmr < UINT8_SIZE && IsSystemRun(nmr, body, faulty, ys, acts, outs)
    requires i < |acts| && Answer(c, Available(v)) in outs[i]
    ensures acts[i].Arrive? && acts[i].reply.client == c
    ensures exists vs, o ::
              && Concludes(ys[i], acts[i].reply, ys[i + 1], vs, o)
              && (Stale(vs, o) + |CurrentFaulty(vs, o, faulty)| <= nmr / 2
                  ==> v == body(o.service, ys[i].asked[o].args[0]))
  {
    OnlyRepliesBringValues(nmr, body, faulty, ys, acts, outs, i, c, v);
    var vs, o := ArrivalInRun(nmr, body, faulty, ys, acts, outs, i, acts[i].reply);
    var honest := body(o.service, ys[i].asked[o].args[0]);
    ToldMajority(c, Values(vs), nmr, v);
    BadIsStaleOrFaulty(vs, o, honest, faulty);
    if Stale(vs, o) + |CurrentFaulty(vs, o, faulty)| <= nmr / 2 {
      MajorityIsHonest(vs, nmr, o, honest, v);
    }
  }

  /**
   * The answer is given: as soon as the good votes of a waiting client exceed half of the redundancy it is
   * told the honest value; in particular when all `nmr` votes are in with at most (nmr-1)/2 bad ones.
   */
  lemma HonestMajorityIsAnswered(nmr: nat, body: Bodies, faulty: set<nat>, ys: seq<Sys>, acts: seq<Act>,
                                 outs: seq<seq<Output>>, i: nat, r: Reply)
    requires 0 < nmr < UINT8_SIZE && IsSystemRun(nmr, body, faulty, ys, acts, outs)
    requires i < |acts| && acts[i] == Arrive(r) && Counts(ys[i], r)
    ensures exists vs, o ::
              && Concludes(ys[i], r, ys[i + 1], vs, o) && |vs| <= nmr
              && var honest := body(o.service, ys[i].asked[o].args[0]);
                 && (|vs| - Bad(vs, o, honest) > nmr / 2 ==> outs[i] == [Answer(r.client, Available(honest))])
                 && (|vs| == nmr && Bad(vs, o, honest) <= (nmr - 1) / 2
                     ==> outs[i] == [Answer(r.client, Available(honest))])
  {
    var vs, o := ArrivalInRun(nmr, body, faulty, ys, acts, outs, i, r);
    var honest := body(o.service, ys[i].asked[o].args[0]);
    if |vs| - Bad(vs, o, honest) > nmr / 2 {
      HonestMajorityWins(vs, nmr, o, honest);
    }
  }
}
