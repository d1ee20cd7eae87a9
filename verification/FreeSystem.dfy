/** Every run of the composed system, whenever clients ask: what is on its way, and ids. */
module FreeSystem {
  import opened Common
  import opened TimeArithmetic
  import opened Requests
  import opened Database
  import opened BrokerMachine
  import opened BrokerRuns
  import opened Snapshots
  import opened Repeats
  import opened Masking
  import opened System

  lemma SystemRunIsFree(nmr: nat, body: Bodies, faulty: set<nat>, ys: seq<Sys>, acts: seq<Act>,
                        outs: seq<seq<Output>>)
    requires IsSystemRun(nmr, body, faulty, ys, acts, outs)
    ensures IsFreeSystemRun(nmr, body, faulty, ys, acts, outs)
  {
    forall i | 0 <= i < |acts| ensures FreeRunStep(body, faulty, ys, acts, outs, i) {
      assert SysRunStep(body, faulty, ys, acts, outs, i);
    }
  }

  // ---- Ids

  ghost predicate SameIds(before: Services, after: Services) {
    forall s :: s in before ==> s in after && after[s].requestId == before[s].requestId
  }

  ghost predicate IdsKept(before: Services, after: Services) {
    forall s :: s in before ==> s in after && before[s].requestId <= after[s].requestId
  }

  /** Only a request takes an id. */
  lemma OthersTakeNoId(b: Broker, e: Event)
    requires Valid(b) && Step(b, e).Ok? && !e.Requesting?
    ensures SameIds(b.services, Step(b, e).state.services)
  {
    match e
    case Replying(s, c, v, duplicated) =>
      if !duplicated {
        ReplyCounts(b, s, c, v);
      }
    case Sweeping(now) => AnyPass(b, now);
    case _ => QuietShrinks(b, e);
  }

  lemma SameIdsKeepAsked(y: Sys, y': Sys)
    requires AskedOk(y) && y'.asked == y.asked && SameIds(y.x.b.services, y'.x.b.services)
    ensures AskedOk(y')
  {
  }

  // ---- One step

  ghost predicate FreeOk(y: Sys, body: Bodies, faulty: set<nat>) {
    Valid(y.x.b) && InFlightOk(y, body, faulty)
  }

  lemma TakenParcels(y: Sys, a: Act, out: seq<Output>, y': Sys)
    requires Valid(y.x.b) && AskedOk(y) && a.Ask? && TakeStep(y, a, out, y') && a.service in y.x.b.services
    ensures var o := Origin(a.service, y.x.b.services[a.service].requestId);
            forall m :: m in y'.parcels ==> m in y.parcels || m == Parcel(o, a.client, Params(a.args))
  {
    ForwardsAgree(y, a, out, y');
    forall m | m in y'.parcels && m !in y.parcels ensures m in Parcels(out) {
      assert m in multiset(Parcels(out));
    }
  }

  lemma TakeKeepsOk(y: Sys, a: Act, out: seq<Output>, y': Sys, body: Bodies, faulty: set<nat>)
    requires FreeOk(y, body, faulty) && a.Ask? && TakeStep(y, a, out, y')
    ensures InFlightOk(y', body, faulty)
  {
    if a.service in y.x.b.services {
      var o, r := Origin(a.service, y.x.b.services[a.service].requestId),
                  RequestRecord(a.client, [], AddMs(a.clock, REQUEST_TIMEOUT));
      ForwardsAgree(y, a, out, y');
      TakenParcels(y, a, out, y');
      NotedKeepsFlight(y, y'.x, a.client, o, a.args, y'.parcels, r, body, faulty);
    }
  }

  lemma ArrivalKeepsOk(y: Sys, a: Act, out: seq<Output>, y': Sys, body: Bodies, faulty: set<nat>)
    requires FreeOk(y, body, faulty) && a.Arrive? && ArriveStep(y, a, out, y')
    ensures InFlightOk(y', body, faulty)
  {
    OthersTakeNoId(y.x.b, ReplyEvent(a.reply));
    SameIdsKeepAsked(y, y');
    ArriveKeepsReplies(y, a.reply, y', body, faulty);
  }

  lemma InternalKeepsFlight(y: Sys, a: Act, out: seq<Output>, y': Sys, body: Bodies, faulty: set<nat>)
    requires FreeOk(y, body, faulty) && a.Internal? && InternalStep(y, a, out, y')
    ensures InFlightOk(y', body, faulty)
  {
    OthersTakeNoId(y.x.b, a.event);
    SameIdsKeepAsked(y, y');
  }

  /** The event the broker handles in the step, if it takes part in it. */
  function EventOf(a: Act): Option<Event> {
    match a
    case Ask(_, _, _, _, _) => Some(AskEvent(a))
    case Arrive(r) => Some(ReplyEvent(r))
    case Internal(e) => Some(e)
    case _ => None
  }

  lemma BrokerTakesPart(y: Sys, a: Act, out: seq<Output>, y': Sys, body: Bodies, faulty: set<nat>)
    requires FreeSysStep(body, faulty, y, a, out, y')
    ensures match EventOf(a)
            case Some(e) => Next(y.x, e, out, y'.x)
            case None => y'.x == y.x && out == []
  {
  }

  lemma BrokerStaysValid(y: Sys, a: Act, out: seq<Output>, y': Sys, body: Bodies, faulty: set<nat>)
    requires Valid(y.x.b) && FreeSysStep(body, faulty, y, a, out, y')
    ensures Valid(y'.x.b) && y'.x.b.nmr == y.x.b.nmr
  {
    BrokerTakesPart(y, a, out, y', body, faulty);
    if EventOf(a).Some? {
      StepKeepsValid(y.x.b, EventOf(a).value);
      StepKeepsNmr(y.x.b, EventOf(a).value);
    }
  }

  lemma ElsewhereKeepsFlight(y: Sys, a: Act, out: seq<Output>, y': Sys, body: Bodies, faulty: set<nat>)
    requires InFlightOk(y, body, faulty) && FreeSysStep(body, faulty, y, a, out, y') && EventOf(a).None?
    ensures InFlightOk(y', body, faulty)
  {
    match a
    case Deliver(_, _, _, _) => DeliverKeepsFlight(y, a, y', body, faulty);
    case Spawn(pid, s) => SpawnKeepsFlight(y, pid, s, body, faulty);
    case LoseParcel(_) => LossKeepsFlight(y, y', body, faulty);
    case LoseReply(_) => LossKeepsFlight(y, y', body, faulty);
  }

  lemma StepKeepsFlight(y: Sys, a: Act, out: seq<Output>, y': Sys, body: Bodies, faulty: set<nat>)
    requires FreeOk(y, body, faulty) && FreeSysStep(body, faulty, y, a, out, y')
    ensures InFlightOk(y', body, faulty)
  {
    match a
    case Ask(_, _, _, _, _) => TakeKeepsOk(y, a, out, y', body, faulty);
    case Arrive(_) => ArrivalKeepsOk(y, a, out, y', body, faulty);
    case Internal(_) => InternalKeepsFlight(y, a, out, y', body, faulty);
    case _ => ElsewhereKeepsFlight(y, a, out, y', body, faulty);
  }

  lemma FreeStepKeepsOk(y: Sys, a: Act, out: seq<Output>, y': Sys, body: Bodies, faulty: set<nat>)
    requires FreeOk(y, body, faulty) && FreeSysStep(body, faulty, y, a, out, y')
    ensures FreeOk(y', body, faulty) && y'.x.b.nmr == y.x.b.nmr
  {
    BrokerStaysValid(y, a, out, y', body, faulty);
    StepKeepsFlight(y, a, out, y', body, faulty);
  }

  lemma {:induction false} FreeRunsAreOk(nmr: nat, body: Bodies, faulty: set<nat>, ys: seq<Sys>, acts: seq<Act>,
                                         outs: seq<seq<Output>>, i: nat)
    requires 0 < nmr < UINT8_SIZE && IsFreeSystemRun(nmr, body, faulty, ys, acts, outs) && i < |ys|
    ensures FreeOk(ys[i], body, faulty) && ys[i].x.b.nmr == nmr
  {
    if i == 0 {
      InitIsValid(nmr);
    } else {
      FreeRunsAreOk(nmr, body, faulty, ys, acts, outs, i - 1);
      assert FreeRunStep(body, faulty, ys, acts, outs, i - 1);
      FreeStepKeepsOk(ys[i - 1], acts[i - 1], outs[i - 1], ys[i], body, faulty);
    }
  }
}
