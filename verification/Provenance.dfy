/**
 * Every run of the composed system, whenever clients ask and however many requests of one wait: which results
 * a waiting request holds, and what is behind a value that a client is told.
 */
module Provenance {
  import opened Common
  import opened Voting
  import opened Requests
  import opened BrokerMachine
  import opened Deadlines
  import opened BrokerRuns
  import opened Snapshots
  import opened Repeats
  import opened FreeRuns
  import opened Masking
  import opened System
  import opened FreeSystem
  import opened Answering

  // ---- What a value is told on

  /** What the client is told a value on: a request of it, with what the event brings. */
  ghost predicate ToldOn(b: Broker, e: Event, c: Client, v: int, s: Service, r: RequestRecord)
    requires b.nmr < UINT8_SIZE
  {
    var results := r.results + Brought(e, s, c);
    && r in ListOf(b.services, s) && r.client == c
    && |results| < UINT8_SIZE && Elect(results, b.nmr) == Some(v)
  }

  lemma ReplyTellsOn(b: Broker, e: Event, c: Client, v: int)
    requires Valid(b) && e.Replying? && Step(b, e).Ok? && Answer(c, Available(v)) in Step(b, e).out
    ensures exists r :: ToldOn(b, e, c, v, e.service, r)
  {
    var rs := b.services[e.service].requests;
    var added := AddResult(rs, e.client, e.result);
    if !HasClient(added, e.client) {
      NoResults(added, e.client);
    }
    assert HasClient(added, e.client) && c == e.client;
    var k := LastIs(added, c);
    assert rs[k] in rs && added[k].results == rs[k].results + [e.result];
    assert ToldOn(b, e, c, v, e.service, rs[k]);
  }

  lemma PassTellsOn(b: Broker, e: Event, c: Client, v: int) returns (s: Service, r: RequestRecord)
    requires Valid(b) && e.Sweeping? && Step(b, e).Ok? && Answer(c, Available(v)) in Step(b, e).out
    ensures ToldOn(b, e, c, v, s, r)
  {
    AnyPass(b, e.now);
    SentIff(b.services, b.nmr, b.available, 0, e.now, c, Available(v));
    var j :| 0 <= j < |b.available| && Closes(Answered(b.services, b.available, j, e.now), b.nmr, c, Available(v));
    var late := Answered(b.services, b.available, j, e.now);
    r :| r in late && r.client == c && |r.results| < UINT8_SIZE && TimeoutVerdict(r, b.nmr) == Available(v);
    s := b.available[j];
    LiveAndLate(Snapshot(b.services, b.available, j, e.now), e.now);
    SnapshotLeaves(b.services, b.available, j, e.now);
    assert r.results + [] == r.results;
  }

  lemma QuietTellsNothing(b: Broker, e: Event, c: Client, v: int)
    requires Valid(b) && (e.Registering? || e.Ponging? || e.Beating?) && Step(b, e).Ok?
    ensures Answer(c, Available(v)) !in Step(b, e).out
  {
    QuietStep(b, e);
    AnswersInIff(Step(b, e).out, c);
  }

  lemma StepTellsOn(b: Broker, e: Event, c: Client, v: int) returns (s: Service, r: RequestRecord)
    requires Valid(b) && Step(b, e).Ok? && Answer(c, Available(v)) in Step(b, e).out
    ensures ToldOn(b, e, c, v, s, r)
  {
    match e
    case Requesting(_, _, _, _, _) =>
    case Replying(t, _, _, _) =>
      ReplyTellsOn(b, e, c, v);
      s := t;
      r :| ToldOn(b, e, c, v, s, r);
    case Sweeping(_) => s, r := PassTellsOn(b, e, c, v);
    case _ => QuietTellsNothing(b, e, c, v);
  }

  // ---- Whole runs

  /** The results of the request are those that have arrived for it between its being asked and step `k`. */
  ghost predicate BackedBy(ys: seq<Sys>, acts: seq<Act>, k: nat, s: Service, r: RequestRecord, i: nat, q: Inquiry)
    requires k <= |acts| < |ys|
  {
    && i < k && Opens(ys, acts, i, q) && q.client == r.client && q.origin.service == s && q.due == r.timeout
    && r.results == Values(Arriving(acts, s, r.client, i + 1, k))
  }

  ghost predicate Backed(ys: seq<Sys>, acts: seq<Act>, k: nat, s: Service, r: RequestRecord)
    requires k <= |acts| < |ys|
  {
    exists i: nat, q :: BackedBy(ys, acts, k, s, r, i, q)
  }

  ghost predicate AllBacked(ys: seq<Sys>, acts: seq<Act>, k: nat)
    requires k <= |acts| < |ys|
  {
    forall s, r :: r in ListOf(ys[k].x.b.services, s) ==> Backed(ys, acts, k, s, r)
  }

  /** What the event brings is the value of the ballot that the step casts. */
  lemma CastIsBrought(y: Sys, a: Act, out: seq<Output>, y': Sys, body: Bodies, faulty: set<nat>, s: Service, c: Client)
    requires FreeSysStep(body, faulty, y, a, out, y')
    ensures Values(Cast(a, s, c)) == match EventOf(a) case Some(e) => Brought(e, s, c) case None => []
  {
  }

  lemma ValuesConcat(vs: seq<Ballot>, ws: seq<Ballot>)
    ensures Values(vs + ws) == Values(vs) + Values(ws)
  {
  }

  lemma OneStepMoreArrives(acts: seq<Act>, s: Service, c: Client, lo: nat, k: nat)
    requires lo <= k < |acts|
    ensures Values(Arriving(acts, s, c, lo, k + 1)) == Values(Arriving(acts, s, c, lo, k)) + Values(Cast(acts[k], s, c))
  {
    ValuesConcat(Arriving(acts, s, c, lo, k), Cast(acts[k], s, c));
  }

  lemma StaysBacked(ys: seq<Sys>, acts: seq<Act>, k: nat, s: Service, r: RequestRecord, r': RequestRecord)
    requires k < |acts| < |ys| && Backed(ys, acts, k, s, r)
    requires r' == WithResults(r, Values(Cast(acts[k], s, r.client)))
    ensures Backed(ys, acts, k + 1, s, r')
  {
    var i: nat, q :| BackedBy(ys, acts, k, s, r, i, q);
    OneStepMoreArrives(acts, s, r.client, i + 1, k);
    assert BackedBy(ys, acts, k + 1, s, r', i, q);
  }

  lemma NewIsBacked(ys: seq<Sys>, acts: seq<Act>, k: nat, s: Service, r: RequestRecord)
    requires k < |acts| < |ys| && acts[k].Ask? && acts[k].args != []
    requires NewAt(ys[k].x.b, AskEvent(acts[k]), s, r)
    ensures Backed(ys, acts, k + 1, s, r)
  {
    var q := Inquiry(acts[k].client, Origin(s, ys[k].x.b.services[s].requestId), acts[k].args, r.timeout);
    assert Values(Arriving(acts, s, r.client, k + 1, k + 1)) == [];
    assert BackedBy(ys, acts, k + 1, s, r, k, q);
  }

  lemma StepKeepsBacked(nmr: nat, body: Bodies, faulty: set<nat>, ys: seq<Sys>, acts: seq<Act>,
                        outs: seq<seq<Output>>, k: nat, s: Service, r': RequestRecord)
    requires k < |acts| == |outs| && |ys| == |acts| + 1 && FreeRunStep(body, faulty, ys, acts, outs, k)
    requires Valid(ys[k].x.b) && AllBacked(ys, acts, k) && r' in ListOf(ys[k + 1].x.b.services, s)
    ensures Backed(ys, acts, k + 1, s, r')
  {
    var b, rs := ys[k].x.b, ListOf(ys[k].x.b.services, s);
    BrokerTakesPart(ys[k], acts[k], outs[k], ys[k + 1], body, faulty);
    match EventOf(acts[k])
    case None =>
      CastIsBrought(ys[k], acts[k], outs[k], ys[k + 1], body, faulty, s, r'.client);
      assert r'.results + [] == r'.results;
      StaysBacked(ys, acts, k, s, r', r');
    case Some(e) =>
      StepChanges(b, e);
      assert ListOf(ys[k + 1].x.b.services, s) == Changed(b, e, s, rs);
      ChangedElement(b, e, s, rs, r');
      if NewAt(b, e, s, r') {
        NewIsBacked(ys, acts, k, s, r');
      } else {
        var r :| r in rs && r' == WithResults(r, Brought(e, s, r.client));
        CastIsBrought(ys[k], acts[k], outs[k], ys[k + 1], body, faulty, s, r.client);
        StaysBacked(ys, acts, k, s, r, r');
      }
  }

  /** In every run: each waiting request holds exactly the results that have arrived for it since it was asked. */
  lemma {:induction false} ResultsAreArrivals(nmr: nat, body: Bodies, faulty: set<nat>, ys: seq<Sys>, acts: seq<Act>,
                                              outs: seq<seq<Output>>, k: nat)
    requires 0 < nmr < UINT8_SIZE && IsFreeSystemRun(nmr, body, faulty, ys, acts, outs) && k <= |acts|
    ensures AllBacked(ys, acts, k)
  {
    if k > 0 {
      ResultsAreArrivals(nmr, body, faulty, ys, acts, outs, k - 1);
      FreeRunsAreOk(nmr, body, faulty, ys, acts, outs, k - 1);
      assert FreeRunStep(body, faulty, ys, acts, outs, k - 1);
      forall s, r | r in ListOf(ys[k].x.b.services, s) ensures Backed(ys, acts, k, s, r) {
        StepKeepsBacked(nmr, body, faulty, ys, acts, outs, k - 1, s, r);
      }
    }
  }

  /** The results that arrive for the client between an accepted request of it and step `k` elect the value. */
  ghost predicate ElectedBy(nmr: nat, ys: seq<Sys>, acts: seq<Act>, k: nat, c: Client, v: int, i: nat, q: Inquiry,
                            vs: seq<Ballot>)
    requires k < |acts| < |ys|
  {
    && i < k && Opens(ys, acts, i, q) && q.client == c
    && vs == Arriving(acts, q.origin.service, q.client, i + 1, k + 1)
    && |vs| < UINT8_SIZE && Elect(Values(vs), nmr) == Some(v)
  }

  /** The request a value is told on, in the step that tells it. */
  lemma TellingStep(y: Sys, a: Act, out: seq<Output>, y': Sys, body: Bodies, faulty: set<nat>, c: Client, v: int)
      returns (s: Service, r: RequestRecord)
    requires FreeSysStep(body, faulty, y, a, out, y') && Valid(y.x.b) && Answer(c, Available(v)) in out
    ensures r in ListOf(y.x.b.services, s) && r.client == c
    ensures var results := r.results + Values(Cast(a, s, c));
            |results| < UINT8_SIZE && Elect(results, y.x.b.nmr) == Some(v)
  {
    BrokerTakesPart(y, a, out, y', body, faulty);
    var e := EventOf(a).value;
    s, r := StepTellsOn(y.x.b, e, c, v);
    CastIsBrought(y, a, out, y', body, faulty, s, c);
  }

  lemma BackedElects(nmr: nat, ys: seq<Sys>, acts: seq<Act>, k: nat, c: Client, v: int, s: Service, r: RequestRecord)
      returns (i: nat, q: Inquiry, vs: seq<Ballot>)
    requires nmr < UINT8_SIZE && k < |acts| < |ys| && Backed(ys, acts, k, s, r) && r.client == c
    requires var results := r.results + Values(Cast(acts[k], s, c));
             |results| < UINT8_SIZE && Elect(results, nmr) == Some(v)
    ensures ElectedBy(nmr, ys, acts, k, c, v, i, q, vs)
  {
    i, q :| BackedBy(ys, acts, k, s, r, i, q);
    vs := Arriving(acts, s, c, i + 1, k + 1);
    OneStepMoreArrives(acts, s, c, i + 1, k);
  }

  lemma ToldValueIsElected(nmr: nat, body: Bodies, faulty: set<nat>, ys: seq<Sys>, acts: seq<Act>,
                           outs: seq<seq<Output>>, k: nat, c: Client, v: int)
      returns (i: nat, q: Inquiry, vs: seq<Ballot>)
    requires 0 < nmr < UINT8_SIZE && IsFreeSystemRun(nmr, body, faulty, ys, acts, outs)
    requires k < |acts| && Answer(c, Available(v)) in outs[k]
    ensures ElectedBy(nmr, ys, acts, k, c, v, i, q, vs)
  {
    FreeRunsAreOk(nmr, body, faulty, ys, acts, outs, k);
    ResultsAreArrivals(nmr, body, faulty, ys, acts, outs, k);
    assert FreeRunStep(body, faulty, ys, acts, outs, k);
    var s, r := TellingStep(ys[k], acts[k], outs[k], ys[k + 1], body, faulty, c, v);
    i, q, vs := BackedElects(nmr, ys, acts, k, c, v, s, r);
  }

  /** A value with few votes against it is the honest one, whatever request the client takes it for. */
  lemma ElectedIsHonest(vs: seq<Ballot>, nmr: nat, v: int, o: Origin, honest: int)
    requires |vs| < UINT8_SIZE && Elect(Values(vs), nmr) == Some(v) && Bad(vs, o, honest) <= nmr / 2
    ensures v == honest
  {
    MajorityIsHonest(vs, nmr, o, honest, v);
  }

  ghost predicate HonestIfFewBad(nmr: nat, vs: seq<Ballot>, v: int) {
    && (forall o, honest :: Bad(vs, o, honest) <= nmr / 2 ==> v == honest)
    && (|vs| <= nmr ==> forall honest :: v == honest <==> |vs| - Votes(Values(vs), honest) <= nmr / 2)
  }

  lemma ElectedIsHonestIfFewBad(vs: seq<Ballot>, nmr: nat, v: int)
    requires |vs| < UINT8_SIZE && nmr < UINT8_SIZE && Elect(Values(vs), nmr) == Some(v)
    ensures HonestIfFewBad(nmr, vs, v)
  {
    forall o, honest | Bad(vs, o, honest) <= nmr / 2 ensures v == honest {
      ElectedIsHonest(vs, nmr, v, o, honest);
    }
    if |vs| <= nmr {
      forall honest ensures v == honest <==> |vs| - Votes(Values(vs), honest) <= nmr / 2 {
        ElectFindsMajority(Values(vs), nmr);
        HonestIffFewWrong(vs, nmr, honest, v);
      }
    }
  }

  /** The votes that arrive for a request, no process twice, of which only stale and faulty ones can be bad. */
  lemma ArrivedVotes(nmr: nat, body: Bodies, faulty: set<nat>, ys: seq<Sys>, acts: seq<Act>,
                     outs: seq<seq<Output>>, i: nat, k: nat, q: Inquiry, vs: seq<Ballot>)
    requires 0 < nmr < UINT8_SIZE && IsFreeSystemRun(nmr, body, faulty, ys, acts, outs) && i < k <= |acts|
    requires Opens(ys, acts, i, q) && vs == Arriving(acts, q.origin.service, q.client, i + 1, k)
    ensures OneVoteEach(vs)
    ensures Bad(vs, q.origin, body(q.origin.service, q.args[0]))
         <= Stale(vs, q.origin) + |CurrentFaulty(vs, q.origin, faulty)|
  {
    ArrivingVoteOnce(nmr, body, faulty, ys, acts, outs, q.origin.service, q.client, i + 1, k);
    ArrivingAreHonest(nmr, body, faulty, ys, acts, outs, i, k, q);
    BadIsStaleOrFaulty(vs, q.origin, body(q.origin.service, q.args[0]), faulty);
  }

  /** What is to be said of the votes `vs` behind a value that a client is told for the request `q`. */
  ghost predicate Honest(nmr: nat, body: Bodies, faulty: set<nat>, vs: seq<Ballot>, q: Inquiry, v: int)
    requires q.args != []
  {
    && OneVoteEach(vs) && HonestIfFewBad(nmr, vs, v)
    && (Stale(vs, q.origin) + |CurrentFaulty(vs, q.origin, faulty)| <= nmr / 2 ==>
          v == body(q.origin.service, q.args[0]))
  }

  lemma ElectedIsSaid(nmr: nat, body: Bodies, faulty: set<nat>, vs: seq<Ballot>, q: Inquiry, v: int)
    requires nmr < UINT8_SIZE && |vs| < UINT8_SIZE && Elect(Values(vs), nmr) == Some(v)
    requires q.args != [] && OneVoteEach(vs)
    requires Bad(vs, q.origin, body(q.origin.service, q.args[0]))
          <= Stale(vs, q.origin) + |CurrentFaulty(vs, q.origin, faulty)|
    ensures Honest(nmr, body, faulty, vs, q, v)
  {
    ElectedIsHonestIfFewBad(vs, nmr, v);
  }

  lemma ArrivedAreHonest(nmr: nat, body: Bodies, faulty: set<nat>, ys: seq<Sys>, acts: seq<Act>,
                         outs: seq<seq<Output>>, i: nat, k: nat, q: Inquiry, vs: seq<Ballot>, v: int)
    requires 0 < nmr < UINT8_SIZE && IsFreeSystemRun(nmr, body, faulty, ys, acts, outs) && i < k <= |acts|
    requires Opens(ys, acts, i, q) && vs == Arriving(acts, q.origin.service, q.client, i + 1, k)
    requires |vs| < UINT8_SIZE && Elect(Values(vs), nmr) == Some(v)
    ensures Honest(nmr, body, faulty, vs, q, v)
  {
    ArrivedVotes(nmr, body, faulty, ys, acts, outs, i, k, q, vs);
    ElectedIsSaid(nmr, body, faulty, vs, q, v);
  }

  lemma VotesBehind(nmr: nat, body: Bodies, faulty: set<nat>, ys: seq<Sys>, acts: seq<Act>,
                    outs: seq<seq<Output>>, k: nat, c: Client, v: int)
      returns (i: nat, q: Inquiry, vs: seq<Ballot>)
    requires 0 < nmr < UINT8_SIZE && IsFreeSystemRun(nmr, body, faulty, ys, acts, outs)
    requires k < |acts| && Answer(c, Available(v)) in outs[k]
    ensures ElectedBy(nmr, ys, acts, k, c, v, i, q, vs) && Honest(nmr, body, faulty, vs, q, v)
  {
    i, q, vs := ToldValueIsElected(nmr, body, faulty, ys, acts, outs, k, c, v);
    ArrivedAreHonest(nmr, body, faulty, ys, acts, outs, i, k + 1, q, vs, v);
  }

  /**
   * In every run, whenever clients ask and whatever deadline passes do: a client that is told a value has asked
   * before, and the value is elected by the results that have arrived for it since. If at most nmr/2 of them
   * are wrong or answer another request, it is the honest value of that request; so it is if the stale ones and
   * the faulty processes among them are at most nmr/2, no process counting twice.
   */
  lemma ValuesAreHonest(nmr: nat, body: Bodies, faulty: set<nat>, ys: seq<Sys>, acts: seq<Act>,
                        outs: seq<seq<Output>>, k: nat, c: Client, v: int)
    requires 0 < nmr < UINT8_SIZE && IsFreeSystemRun(nmr, body, faulty, ys, acts, outs)
    requires k < |acts| && Answer(c, Available(v)) in outs[k]
    ensures exists i: nat, q, vs ::
              ElectedBy(nmr, ys, acts, k, c, v, i, q, vs) && Honest(nmr, body, faulty, vs, q, v)
  {
    var i, q, vs := VotesBehind(nmr, body, faulty, ys, acts, outs, k, c, v);
  }
}
