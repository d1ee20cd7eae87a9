/**
 * Clients, broker, server processes and a network that delays, reorders and loses messages, composed.
 * A process is one incarnation of a copy; a restarted copy is another process.
 */
module System {
  import opened Common
  import opened TimeArithmetic
  import opened Requests
  import opened Database
  import opened BrokerMachine
  import opened Deadlines
  import opened BrokerRuns
  import opened Masking
  import Codec
  import Server

  /** A request on its way to a copy. The origin is its service and sequence id. */
  datatype Parcel = Parcel(origin: Origin, client: Client, params: string)

  /** A reply on its way back. The broker reads neither the process nor the origin of a result. */
  datatype Reply = Reply(service: Service, client: Client, pid: nat, origin: Origin, value: int, duplicated: bool)

  datatype Process = Process(service: Service, requestId: nat)

  datatype Question = Question(client: Client, args: seq<int>)

  datatype Sys = Sys(
    x: Session,
    parcels: multiset<Parcel>,
    replies: multiset<Reply>,
    processes: map<nat, Process>,
    asked: map<Origin, Question>,      // every request ever accepted
    current: map<Client, Origin>,      // the last request accepted from each client
    votes: map<Client, seq<Ballot>>,   // what has been counted for it
    executed: set<(nat, nat)>,         // process and id, of every execution
    counted: set<(nat, nat)>)          // of every result that has reached the broker

  datatype Act =
    | Ask(client: Client, service: Service, args: seq<int>, clock: Timespec, rearm: Timespec)
    | Deliver(pid: nat, parcel: Parcel, value: int, garbage: int)
    | Arrive(reply: Reply)
    | Internal(event: Event)
    | Spawn(pid: nat, service: Service)
    | LoseParcel(parcel: Parcel)
    | LoseReply(reply: Reply)

  /** What the copies compute: any function of the service and its first argument. */
  type Bodies = (Service, int) -> int

  function Start(nmr: nat): Sys {
    Sys(Session(Init(nmr), multiset{}, multiset{}), multiset{}, multiset{}, map[], map[], map[], map[], {}, {})
  }

  function Parcels(out: seq<Output>): seq<Parcel> {
    if out == [] then []
    else if out[0].Forward? then
      [Parcel(Origin(out[0].service, out[0].id), out[0].client, out[0].params)] + Parcels(out[1..])
    else Parcels(out[1..])
  }

  function Params(args: seq<int>): string {
    Codec.Serialize("", args)
  }

  /** The argument a copy reads out of the parameter string. */
  function FirstArgument(params: string, garbage: int): int {
    Codec.Deserialize(Codec.Stream(params, true), [garbage])[0]
  }

  function AskEvent(a: Act): Event
    requires a.Ask?
  {
    Requesting(a.client, a.service, Params(a.args), a.clock, a.rearm)
  }

  /** A client asks while the broker holds no request of it. */
  ghost predicate AskStep(y: Sys, a: Act, out: seq<Output>, y': Sys)
    requires a.Ask?
  {
    !Waiting(y.x.b.services, a.client) && TakeStep(y, a, out, y')
  }

  /**
   * A client passes at least one 32-bit argument, and few enough to fit; and the ids of the service
   * have not come to the end of their 32 bits.
   */
  ghost predicate TakeStep(y: Sys, a: Act, out: seq<Output>, y': Sys)
    requires a.Ask?
  {
    && 0 < |a.args| <= 8 && Codec.AllInt32(a.args)
    && Next(y.x, AskEvent(a), out, y'.x)
    && if a.service in y.x.b.services then
         var id := y.x.b.services[a.service].requestId;
         && id < UINT32_SIZE - 1
         && y' == y.(x := y'.x,
                     parcels := y.parcels + multiset(Parcels(out)),
                     asked := y.asked[Origin(a.service, id) := Question(a.client, a.args)],
                     current := y.current[a.client := Origin(a.service, id)],
                     votes := y.votes[a.client := []])
       else y' == y.(x := y'.x)
  }

  /**
   * A process takes a request off the network. If it executes it and is not faulty, it computes its service's
   * body; a reply that is only marked as a duplicate carries no particular value.
   */
  ghost predicate DeliverStep(body: Bodies, faulty: set<nat>, y: Sys, a: Act, y': Sys)
    requires a.Deliver?
  {
    && a.parcel in y.parcels && a.pid in y.processes
    && var p := y.processes[a.pid];
       var r := Server.Receive(p.requestId, a.parcel.origin.id);
       && (a.pid !in faulty && r.execute ==> a.value == body(p.service, FirstArgument(a.parcel.params, a.garbage)))
       && y' == y.(parcels := y.parcels - multiset{a.parcel},
                   processes := y.processes[a.pid := p.(requestId := r.next)],
                   replies := y.replies + multiset{
                     Reply(p.service, a.parcel.client, a.pid, a.parcel.origin, a.value, !r.execute)},
                   executed := if r.execute then y.executed + {(a.pid, a.parcel.origin.id)} else y.executed)
  }

  function ReplyEvent(r: Reply): Event {
    Replying(r.service, r.client, r.value, r.duplicated)
  }

  ghost predicate Counts(y: Sys, r: Reply) {
    !r.duplicated && r.service in y.x.b.services && HasClient(y.x.b.services[r.service].requests, r.client)
  }

  function BallotOf(r: Reply): Ballot {
    Ballot(r.pid, r.origin, r.value)
  }

  function VotesFor(y: Sys, c: Client): seq<Ballot> {
    if c in y.votes then y.votes[c] else []
  }

  ghost predicate ArriveStep(y: Sys, a: Act, out: seq<Output>, y': Sys)
    requires a.Arrive?
  {
    var r := a.reply;
    && r in y.replies
    && Next(y.x, ReplyEvent(r), out, y'.x)
    && y' == y.(x := y'.x,
                replies := y.replies - multiset{r},
                counted := if r.duplicated then y.counted else y.counted + {(r.pid, r.origin.id)},
                votes := if Counts(y, r) then y.votes[r.client := VotesFor(y, r.client) + [BallotOf(r)]] else y.votes)
  }

  ghost predicate InternalStep(y: Sys, a: Act, out: seq<Output>, y': Sys)
    requires a.Internal?
  {
    && !a.event.Requesting? && !a.event.Replying?
    && Next(y.x, a.event, out, y'.x) && y' == y.(x := y'.x)
  }

  ghost predicate SysStep(body: Bodies, faulty: set<nat>, y: Sys, a: Act, out: seq<Output>, y': Sys) {
    match a
    case Ask(_, _, _, _, _) => AskStep(y, a, out, y')
    case Deliver(_, _, _, _) => DeliverStep(body, faulty, y, a, y') && out == []
    case Arrive(_) => ArriveStep(y, a, out, y')
    case Internal(_) => InternalStep(y, a, out, y')
    case Spawn(pid, s) => pid !in y.processes && y' == y.(processes := y.processes[pid := Process(s, 0)]) && out == []
    case LoseParcel(m) => y' == y.(parcels := y.parcels - multiset{m}) && out == []
    case LoseReply(r) => y' == y.(replies := y.replies - multiset{r}) && out == []
  }

  /** A run of the whole system, with what the broker sent at each step. */
  ghost predicate IsSystemRun(nmr: nat, body: Bodies, faulty: set<nat>, ys: seq<Sys>, acts: seq<Act>,
                              outs: seq<seq<Output>>)
  {
    && |ys| == |acts| + 1 && |outs| == |acts| && ys[0] == Start(nmr)
    && forall i :: 0 <= i < |acts| ==> SysRunStep(body, faulty, ys, acts, outs, i)
  }

  /** A run in which clients ask when they like. */
  ghost predicate IsFreeSystemRun(nmr: nat, body: Bodies, faulty: set<nat>, ys: seq<Sys>, acts: seq<Act>,
                                  outs: seq<seq<Output>>)
  {
    && |ys| == |acts| + 1 && |outs| == |acts| && ys[0] == Start(nmr)
    && forall i :: 0 <= i < |acts| ==> FreeRunStep(body, faulty, ys, acts, outs, i)
  }

  ghost predicate FreeRunStep(body: Bodies, faulty: set<nat>, ys: seq<Sys>, acts: seq<Act>, outs: seq<seq<Output>>,
                              i: nat)
    requires i < |acts| == |outs| && |ys| == |acts| + 1
  {
    FreeSysStep(body, faulty, ys[i], acts[i], outs[i], ys[i + 1])
  }

  ghost predicate FreeSysStep(body: Bodies, faulty: set<nat>, y: Sys, a: Act, out: seq<Output>, y': Sys) {
    if a.Ask? then TakeStep(y, a, out, y') else SysStep(body, faulty, y, a, out, y')
  }

  ghost predicate SysRunStep(body: Bodies, faulty: set<nat>, ys: seq<Sys>, acts: seq<Act>, outs: seq<seq<Output>>,
                             i: nat)
    requires i < |acts| == |outs| && |ys| == |acts| + 1
  {
    SysStep(body, faulty, ys[i], acts[i], outs[i], ys[i + 1])
  }

  // ---- The invariant

  /** Accepted requests are numbered below the service's next id, so ids of a service never repeat. */
  ghost predicate AskedOk(y: Sys) {
    forall o :: o in y.asked ==>
      && o.service in y.x.b.services && o.id < y.x.b.services[o.service].requestId
      && o.id < UINT32_SIZE - 1
      && 0 < |y.asked[o].args| && Codec.AllInt32(y.asked[o].args)
  }

  /** A request on the network carries the client and the arguments of the request it belongs to. */
  ghost predicate ParcelOk(y: Sys, m: Parcel) {
    m.origin in y.asked && m.client == y.asked[m.origin].client && m.params == Params(y.asked[m.origin].args)
  }

  ghost predicate ParcelsOk(y: Sys) {
    forall m :: m in y.parcels ==> ParcelOk(y, m)
  }

  /** A process has executed only ids below the one it expects. */
  ghost predicate ExecutedOk(y: Sys) {
    && (forall p :: p in y.processes ==> y.processes[p].requestId < UINT32_SIZE)
    && forall k :: k in y.executed ==> k.0 in y.processes && k.1 < y.processes[k.0].requestId
  }

  function Key(r: Reply): (nat, nat) {
    (r.pid, r.origin.id)
  }

  /** An honest result is the body of the process's service on the first argument of the request. */
  ghost predicate ResultOk(y: Sys, body: Bodies, faulty: set<nat>, s: Service, pid: nat, o: Origin, value: int) {
    && o in y.asked && y.asked[o].args != []
    && (pid !in faulty ==> value == body(s, y.asked[o].args[0]))
  }

  /** Results in flight: each stems from one execution that has not been counted, and no two from the same. */
  ghost predicate RepliesOk(y: Sys, body: Bodies, faulty: set<nat>) {
    && (forall r :: r in y.replies && !r.duplicated ==>
          && y.replies[r] == 1 && Key(r) in y.executed && Key(r) !in y.counted
          && ResultOk(y, body, faulty, r.service, r.pid, r.origin, r.value))
    && (forall r, q :: r in y.replies && q in y.replies && !r.duplicated && !q.duplicated && Key(r) == Key(q) ==>
          r == q)
    && y.counted <= y.executed
  }

  /** Where a client waits, its record holds the values of the votes counted for its current request. */
  ghost predicate VotesOk(y: Sys, body: Bodies, faulty: set<nat>) {
    && (forall c :: c in y.votes ==> OneVoteEach(y.votes[c]))
    && (forall c, i :: c in y.votes && 0 <= i < |y.votes[c]| ==>
          (y.votes[c][i].pid, y.votes[c][i].origin.id) in y.counted)
    && (forall s, k :: s in y.x.b.services && 0 <= k < |y.x.b.services[s].requests| ==>
          RecordOk(y, body, faulty, s, y.x.b.services[s].requests[k]))
  }

  ghost predicate RecordOk(y: Sys, body: Bodies, faulty: set<nat>, s: Service, r: RequestRecord) {
    && r.client in y.current && r.client in y.votes
    && y.current[r.client].service == s && y.current[r.client] in y.asked
    && y.asked[y.current[r.client]].client == r.client
    && r.results == Values(y.votes[r.client])
    && forall i :: 0 <= i < |y.votes[r.client]| ==>
         var v := y.votes[r.client][i];
         ResultOk(y, body, faulty, s, v.pid, v.origin, v.value)
  }

  /** What is on its way belongs together: requests, parcels, executions and results. */
  ghost predicate InFlightOk(y: Sys, body: Bodies, faulty: set<nat>) {
    AskedOk(y) && ParcelsOk(y) && ExecutedOk(y) && RepliesOk(y, body, faulty)
  }

  ghost predicate SysOk(y: Sys, body: Bodies, faulty: set<nat>) {
    Sound(y.x.b) && InFlightOk(y, body, faulty) && VotesOk(y, body, faulty)
  }

  // ---- Asking

  lemma {:induction false} ParcelsOf(out: seq<Output>, m: Parcel)
    requires forall i :: 0 <= i < |out| && out[i].Forward? ==>
               Parcel(Origin(out[i].service, out[i].id), out[i].client, out[i].params) == m
    ensures forall q :: q in Parcels(out) ==> q == m
  {
    if out != [] {
      ParcelsOf(out[1..], m);
    }
  }

  /** What an accepted request does to the services. */
  ghost predicate Accepts(services: Services, s: Service, r: RequestRecord, services': Services) {
    && s in services && services'.Keys == services.Keys
    && services'[s].requests == services[s].requests + [r]
    && services'[s].requestId == services[s].requestId + 1
    && forall t :: t in services && t != s ==> services'[t] == services[t]
  }

  /** All copies of a forwarded request are the same parcel, under an id no request of the service had before. */
  lemma ForwardsAgree(y: Sys, a: Act, out: seq<Output>, y': Sys)
    requires Valid(y.x.b) && AskedOk(y) && a.Ask? && TakeStep(y, a, out, y') && a.service in y.x.b.services
    ensures var o := Origin(a.service, y.x.b.services[a.service].requestId);
            && o !in y.asked
            && (forall q :: q in Parcels(out) ==> q == Parcel(o, a.client, Params(a.args)))
    ensures Accepts(y.x.b.services, a.service,
                    RequestRecord(a.client, [], AddMs(a.clock, REQUEST_TIMEOUT)), y'.x.b.services)
  {
    var o := Origin(a.service, y.x.b.services[a.service].requestId);
    RequestAppends(y.x.b, AskEvent(a));
    ParcelsOf(out, Parcel(o, a.client, Params(a.args)));
  }

  lemma AskedGrows(y: Sys, y': Sys, body: Bodies, faulty: set<nat>)
    requires AskedOk(y) && ParcelsOk(y) && RepliesOk(y, body, faulty)
    requires forall o :: o in y.asked ==> o in y'.asked && y'.asked[o] == y.asked[o]
    requires y'.replies == y.replies && y'.executed == y.executed && y'.counted == y.counted
    ensures RepliesOk(y', body, faulty)
    ensures forall m :: m in y.parcels ==> ParcelOk(y', m)
  {
  }

  /** The bookkeeping of an accepted request. */
  function Noted(y: Sys, x: Session, c: Client, o: Origin, args: seq<int>, parcels: multiset<Parcel>): Sys {
    y.(x := x, parcels := parcels, asked := y.asked[o := Question(c, args)],
       current := y.current[c := o], votes := y.votes[c := []])
  }

  lemma NotedVotes(y: Sys, x: Session, c: Client, o: Origin, args: seq<int>, parcels: multiset<Parcel>,
                   r: RequestRecord, body: Bodies, faulty: set<nat>)
    requires VotesOk(y, body, faulty) && o !in y.asked && !Waiting(y.x.b.services, c)
    requires r.client == c && r.results == [] && Accepts(y.x.b.services, o.service, r, x.b.services)
    ensures VotesOk(Noted(y, x, c, o, args, parcels), body, faulty)
  {
    var y' := Noted(y, x, c, o, args, parcels);
    var services := y.x.b.services;
    forall t, k | t in x.b.services && 0 <= k < |x.b.services[t].requests|
      ensures RecordOk(y', body, faulty, t, x.b.services[t].requests[k])
    {
      var q := x.b.services[t].requests[k];
      if t == o.service && k == |services[t].requests| {
        assert q == r && y'.votes[c] == [];
      } else {
        assert q == services[t].requests[k];
        assert RecordOk(y, body, faulty, t, q);
        assert HasClient(services[t].requests, q.client);
        assert q.client != c;
      }
    }
  }

  lemma NotedAsked(y: Sys, x: Session, c: Client, o: Origin, args: seq<int>, parcels: multiset<Parcel>,
                   r: RequestRecord)
    requires AskedOk(y) && Accepts(y.x.b.services, o.service, r, x.b.services)
    requires o.id == y.x.b.services[o.service].requestId < UINT32_SIZE - 1
    requires 0 < |args| && Codec.AllInt32(args)
    ensures AskedOk(Noted(y, x, c, o, args, parcels))
  {
  }

  lemma NotedKeepsFlight(y: Sys, x: Session, c: Client, o: Origin, args: seq<int>, parcels: multiset<Parcel>,
                         r: RequestRecord, body: Bodies, faulty: set<nat>)
    requires InFlightOk(y, body, faulty) && o !in y.asked && Accepts(y.x.b.services, o.service, r, x.b.services)
    requires o.id == y.x.b.services[o.service].requestId < UINT32_SIZE - 1
    requires 0 < |args| && Codec.AllInt32(args)
    requires forall m :: m in parcels ==> m in y.parcels || m == Parcel(o, c, Params(args))
    ensures InFlightOk(Noted(y, x, c, o, args, parcels), body, faulty)
  {
    NotedAsked(y, x, c, o, args, parcels, r);
    AskedGrows(y, Noted(y, x, c, o, args, parcels), body, faulty);
  }

  lemma NotedKeepsOk(y: Sys, x: Session, c: Client, o: Origin, args: seq<int>, parcels: multiset<Parcel>,
                     r: RequestRecord, body: Bodies, faulty: set<nat>)
    requires SysOk(y, body, faulty) && Sound(x.b) && o !in y.asked && !Waiting(y.x.b.services, c)
    requires r.client == c && r.results == [] && Accepts(y.x.b.services, o.service, r, x.b.services)
    requires o.id == y.x.b.services[o.service].requestId < UINT32_SIZE - 1
    requires 0 < |args| && Codec.AllInt32(args)
    requires forall m :: m in parcels ==> m in y.parcels || m == Parcel(o, c, Params(args))
    ensures SysOk(Noted(y, x, c, o, args, parcels), body, faulty)
  {
    NotedKeepsFlight(y, x, c, o, args, parcels, r, body, faulty);
    NotedVotes(y, x, c, o, args, parcels, r, body, faulty);
  }

  lemma RefusedKeepsOk(y: Sys, x: Session, body: Bodies, faulty: set<nat>)
    requires SysOk(y, body, faulty) && Sound(x.b) && x.b == y.x.b
    ensures SysOk(y.(x := x), body, faulty)
  {
    SameVotes(y, y.(x := x), body, faulty);
  }

  /** The broker's side of an accepted request. */
  lemma AskAtBroker(y: Sys, a: Act, out: seq<Output>, y': Sys)
    requires Sound(y.x.b) && AskedOk(y) && a.Ask? && AskStep(y, a, out, y') && a.service in y.x.b.services
    ensures var o := Origin(a.service, y.x.b.services[a.service].requestId);
            && y' == Noted(y, y'.x, a.client, o, a.args, y'.parcels)
            && o !in y.asked && !Waiting(y.x.b.services, a.client)
            && (forall m :: m in y'.parcels ==> m in y.parcels || m == Parcel(o, a.client, Params(a.args)))
    ensures Sound(y'.x.b)
    ensures Accepts(y.x.b.services, a.service,
                    RequestRecord(a.client, [], AddMs(a.clock, REQUEST_TIMEOUT)), y'.x.b.services)
  {
    StepKeepsSound(y.x.b, AskEvent(a));
    ForwardsAgree(y, a, out, y');
    forall m | m in y'.parcels && m !in y.parcels ensures m in Parcels(out) {
      assert m in multiset(Parcels(out));
    }
  }

  lemma AskKeepsOk(y: Sys, a: Act, out: seq<Output>, y': Sys, body: Bodies, faulty: set<nat>)
    requires SysOk(y, body, faulty) && a.Ask? && AskStep(y, a, out, y')
    ensures SysOk(y', body, faulty)
  {
    if a.service in y.x.b.services {
      AskAtBroker(y, a, out, y');
      NotedKeepsOk(y, y'.x, a.client, Origin(a.service, y.x.b.services[a.service].requestId), a.args, y'.parcels,
                   RequestRecord(a.client, [], AddMs(a.clock, REQUEST_TIMEOUT)), body, faulty);
    } else {
      StepKeepsSound(y.x.b, AskEvent(a));
      RefusedKeepsOk(y, y'.x, body, faulty);
    }
  }

  // ---- Delivering

  /** What an honest copy reads is the client's first argument. */
  lemma ReadsFirstArgument(args: seq<int>, garbage: int)
    requires args != [] && Codec.AllInt32(args)
    ensures FirstArgument(Params(args), garbage) == args[0]
  {
    Codec.RoundTrip(args, [garbage]);
  }

  lemma FreshExecution(y: Sys, pid: nat, id: nat)
    requires ExecutedOk(y) && pid in y.processes && id < UINT32_SIZE - 1
    ensures var r := Server.Receive(y.processes[pid].requestId, id);
            && r.next < UINT32_SIZE && y.processes[pid].requestId <= r.next
            && (r.execute ==> (pid, id) !in y.executed && id < r.next)
  {
  }

  lemma DeliverKeepsReplies(y: Sys, a: Act, y': Sys, body: Bodies, faulty: set<nat>)
    requires InFlightOk(y, body, faulty) && a.Deliver? && DeliverStep(body, faulty, y, a, y')
    ensures RepliesOk(y', body, faulty)
  {
    var p := y.processes[a.pid];
    var id := a.parcel.origin.id;
    var rc := Server.Receive(p.requestId, id);
    var sent := Reply(p.service, a.parcel.client, a.pid, a.parcel.origin, a.value, !rc.execute);
    assert ParcelOk(y, a.parcel);
    ReadsFirstArgument(y.asked[a.parcel.origin].args, a.garbage);
    FreshExecution(y, a.pid, id);
    forall r | r in y'.replies && !r.duplicated
      ensures y'.replies[r] == 1 && Key(r) in y'.executed && Key(r) !in y'.counted
      ensures ResultOk(y', body, faulty, r.service, r.pid, r.origin, r.value)
    {
      if r == sent {
        assert r !in y.replies;
      } else {
        assert r in y.replies;
      }
    }
  }

  lemma DeliverKeepsExecuted(y: Sys, a: Act, y': Sys, body: Bodies, faulty: set<nat>)
    requires InFlightOk(y, body, faulty) && a.Deliver? && DeliverStep(body, faulty, y, a, y')
    ensures ExecutedOk(y')
  {
    assert ParcelOk(y, a.parcel);
    FreshExecution(y, a.pid, a.parcel.origin.id);
  }

  lemma DeliverKeepsFlight(y: Sys, a: Act, y': Sys, body: Bodies, faulty: set<nat>)
    requires InFlightOk(y, body, faulty) && a.Deliver? && DeliverStep(body, faulty, y, a, y')
    ensures InFlightOk(y', body, faulty)
  {
    DeliverKeepsReplies(y, a, y', body, faulty);
    DeliverKeepsExecuted(y, a, y', body, faulty);
    forall m | m in y'.parcels ensures ParcelOk(y', m) {
      assert m in y.parcels;
    }
  }

  lemma DeliverKeepsOk(y: Sys, a: Act, y': Sys, body: Bodies, faulty: set<nat>)
    requires SysOk(y, body, faulty) && a.Deliver? && DeliverStep(body, faulty, y, a, y')
    ensures SysOk(y', body, faulty)
  {
    DeliverKeepsFlight(y, a, y', body, faulty);
    SameVotes(y, y', body, faulty);
  }

  lemma SameVotes(y: Sys, y': Sys, body: Bodies, faulty: set<nat>)
    requires VotesOk(y, body, faulty) && y'.x.b.services == y.x.b.services
    requires y'.votes == y.votes && y'.counted == y.counted && y'.asked == y.asked && y'.current == y.current
    ensures VotesOk(y', body, faulty)
  {
    forall s, k | s in y'.x.b.services && 0 <= k < |y'.x.b.services[s].requests|
      ensures RecordOk(y', body, faulty, s, y'.x.b.services[s].requests[k])
    {
      assert RecordOk(y, body, faulty, s, y.x.b.services[s].requests[k]);
    }
  }

  // ---- Arriving

  lemma ArriveKeepsReplies(y: Sys, r: Reply, y': Sys, body: Bodies, faulty: set<nat>)
    requires RepliesOk(y, body, faulty) && r in y.replies
    requires y'.replies == y.replies - multiset{r} && y'.asked == y.asked && y'.executed == y.executed
    requires y'.counted == if r.duplicated then y.counted else y.counted + {Key(r)}
    ensures RepliesOk(y', body, faulty)
  {
    forall q | q in y'.replies && !q.duplicated
      ensures y'.replies[q] == 1 && Key(q) in y'.executed && Key(q) !in y'.counted
      ensures ResultOk(y', body, faulty, q.service, q.pid, q.origin, q.value)
    {
      assert q in y.replies && y.replies[q] == 1;
      assert q != r;
    }
  }

  lemma NewVoteIsNew(y: Sys, r: Reply, c: Client, body: Bodies, faulty: set<nat>)
    requires RepliesOk(y, body, faulty) && VotesOk(y, body, faulty) && r in y.replies && !r.duplicated
    ensures OneVoteEach(VotesFor(y, c) + [BallotOf(r)])
  {
  }

  /** How a counted reply changes the list its client waits in: the record takes the result, or goes. */
  ghost predicate CountedIn(rs: seq<RequestRecord>, c: Client, v: int, rs': seq<RequestRecord>) {
    forall k :: 0 <= k < |rs'| ==>
      exists j :: 0 <= j < |rs| && rs[j].client == rs'[k].client
                  && rs'[k].results == if rs[j].client == c then rs[j].results + [v] else rs[j].results
  }

  lemma CountedLists(b: Broker, s: Service, k: nat, v: int)
    requires s in b.services && k < |b.services[s].requests| && Distinct(b.services[s].requests)
    requires |b.services[s].requests[k].results| + 1 < UINT8_SIZE
    ensures var b' := Counted(b, s, k, v).state;
            && b'.services.Keys == b.services.Keys
            && (forall t :: t in b.services && t != s ==> b'.services[t] == b.services[t])
            && b'.services[s].requestId == b.services[s].requestId
            && CountedIn(b.services[s].requests, b.services[s].requests[k].client, v, b'.services[s].requests)
  {
    var rs := b.services[s].requests;
    var rs' := Counted(b, s, k, v).state.services[s].requests;
    forall i | 0 <= i < |rs'|
      ensures exists j :: 0 <= j < |rs| && rs[j].client == rs'[i].client
                && rs'[i].results == if rs[j].client == rs[k].client then rs[j].results + [v] else rs[j].results
    {
      var j := if |rs'| == |rs| || i < k then i else i + 1;
      assert rs[j].client == rs'[i].client;
    }
  }

  /** The record a reply was counted in still holds the values of the votes, one more now. */
  lemma CountedRecord(y: Sys, r: Reply, y': Sys, before: RequestRecord, after: RequestRecord, body: Bodies,
                      faulty: set<nat>)
    requires RepliesOk(y, body, faulty) && r in y.replies && !r.duplicated
    requires y'.asked == y.asked && y'.current == y.current
    requires y'.votes == y.votes[r.client := VotesFor(y, r.client) + [BallotOf(r)]]
    requires RecordOk(y, body, faulty, r.service, before) && after.client == before.client
    requires after.results == if before.client == r.client then before.results + [r.value] else before.results
    ensures RecordOk(y', body, faulty, r.service, after)
  {
    if before.client == r.client {
      assert Values(y.votes[r.client] + [BallotOf(r)]) == Values(y.votes[r.client]) + [r.value];
    }
  }

  lemma OtherRecord(y: Sys, r: Reply, y': Sys, s: Service, q: RequestRecord, body: Bodies, faulty: set<nat>)
    requires RecordOk(y, body, faulty, s, q) && q.client != r.client
    requires y'.asked == y.asked && y'.current == y.current
    requires y'.votes == y.votes[r.client := VotesFor(y, r.client) + [BallotOf(r)]]
    ensures RecordOk(y', body, faulty, s, q)
  {
  }

  /** The services after a counted reply: one list takes the result or loses the record. */
  ghost predicate CountedServices(services: Services, r: Reply, services': Services) {
    && r.service in services && services'.Keys == services.Keys
    && (forall t :: t in services && t != r.service ==> services'[t] == services[t])
    && services'[r.service].requestId == services[r.service].requestId
    && CountedIn(services[r.service].requests, r.client, r.value, services'[r.service].requests)
  }

  lemma CountedKeepsRecord(y: Sys, r: Reply, y': Sys, t: Service, k: nat, body: Bodies, faulty: set<nat>)
    requires SysOk(y, body, faulty) && r in y.replies && Counts(y, r)
    requires y'.asked == y.asked && y'.current == y.current
    requires y'.votes == y.votes[r.client := VotesFor(y, r.client) + [BallotOf(r)]]
    requires CountedServices(y.x.b.services, r, y'.x.b.services)
    requires t in y'.x.b.services && k < |y'.x.b.services[t].requests|
    ensures RecordOk(y', body, faulty, t, y'.x.b.services[t].requests[k])
  {
    var rs, q := y.x.b.services[t].requests, y'.x.b.services[t].requests[k];
    if t == r.service {
      var j :| 0 <= j < |rs| && rs[j].client == q.client
               && q.results == if rs[j].client == r.client then rs[j].results + [r.value] else rs[j].results;
      CountedRecord(y, r, y', rs[j], q, body, faulty);
    } else {
      assert HasClient(rs, q.client);
      OtherRecord(y, r, y', t, rs[k], body, faulty);
    }
  }

  lemma CountedKeepsVotes(y: Sys, r: Reply, y': Sys, body: Bodies, faulty: set<nat>)
    requires SysOk(y, body, faulty) && r in y.replies && Counts(y, r)
    requires y'.asked == y.asked && y'.current == y.current && y'.counted == y.counted + {Key(r)}
    requires y'.votes == y.votes[r.client := VotesFor(y, r.client) + [BallotOf(r)]]
    requires CountedServices(y.x.b.services, r, y'.x.b.services)
    ensures VotesOk(y', body, faulty)
  {
    NewVoteIsNew(y, r, r.client, body, faulty);
    forall t, k | t in y'.x.b.services && 0 <= k < |y'.x.b.services[t].requests|
      ensures RecordOk(y', body, faulty, t, y'.x.b.services[t].requests[k])
    {
      CountedKeepsRecord(y, r, y', t, k, body, faulty);
    }
  }

  /** The broker's side of an arriving reply. */
  lemma ArriveAtBroker(y: Sys, r: Reply, out: seq<Output>, x': Session)
    requires Sound(y.x.b) && Next(y.x, ReplyEvent(r), out, x')
    ensures !Counts(y, r) ==> x'.b == y.x.b && out == []
    ensures Counts(y, r) ==>
              exists k :: 0 <= k < |y.x.b.services[r.service].requests|
                && y.x.b.services[r.service].requests[k].client == r.client
                && |y.x.b.services[r.service].requests[k].results| + 1 < UINT8_SIZE
                && Counted(y.x.b, r.service, k, r.value) == Ok(x'.b, out)
  {
    if Counts(y, r) {
      var rs := y.x.b.services[r.service].requests;
      var k :| 0 <= k < |rs| && rs[k].client == r.client;
      ReplyEffect(y.x.b, r.service, k, r.value);
    } else {
      IgnoredReply(y.x.b, ReplyEvent(r));
    }
  }

  lemma CountedKeepsAsked(y: Sys, r: Reply, y': Sys)
    requires AskedOk(y) && y'.asked == y.asked && CountedServices(y.x.b.services, r, y'.x.b.services)
    ensures AskedOk(y')
  {
    assert forall t :: t in y.x.b.services ==> y'.x.b.services[t].requestId == y.x.b.services[t].requestId;
  }

  lemma CountedKeepsOk(y: Sys, r: Reply, y': Sys, body: Bodies, faulty: set<nat>)
    requires SysOk(y, body, faulty) && r in y.replies && Counts(y, r) && Sound(y'.x.b)
    requires CountedServices(y.x.b.services, r, y'.x.b.services)
    requires y' == y.(x := y'.x, replies := y.replies - multiset{r}, counted := y.counted + {Key(r)},
                      votes := y.votes[r.client := VotesFor(y, r.client) + [BallotOf(r)]])
    ensures SysOk(y', body, faulty)
  {
    CountedKeepsAsked(y, r, y');
    CountedKeepsVotes(y, r, y', body, faulty);
    ArriveKeepsReplies(y, r, y', body, faulty);
  }

  lemma IgnoredKeepsOk(y: Sys, r: Reply, y': Sys, body: Bodies, faulty: set<nat>)
    requires SysOk(y, body, faulty) && r in y.replies && Sound(y'.x.b) && y'.x.b == y.x.b
    requires y' == y.(x := y'.x, replies := y.replies - multiset{r},
                      counted := if r.duplicated then y.counted else y.counted + {Key(r)})
    ensures SysOk(y', body, faulty)
  {
    ArriveKeepsReplies(y, r, y', body, faulty);
    forall s, k | s in y'.x.b.services && 0 <= k < |y'.x.b.services[s].requests|
      ensures RecordOk(y', body, faulty, s, y'.x.b.services[s].requests[k])
    {
      assert RecordOk(y, body, faulty, s, y.x.b.services[s].requests[k]);
    }
  }

  lemma ArriveKeepsOk(y: Sys, a: Act, out: seq<Output>, y': Sys, body: Bodies, faulty: set<nat>)
    requires SysOk(y, body, faulty) && a.Arrive? && ArriveStep(y, a, out, y')
    ensures SysOk(y', body, faulty)
  {
    var r := a.reply;
    StepKeepsSound(y.x.b, ReplyEvent(r));
    ArriveAtBroker(y, r, out, y'.x);
    if Counts(y, r) {
      var k :| 0 <= k < |y.x.b.services[r.service].requests|
               && y.x.b.services[r.service].requests[k].client == r.client
               && |y.x.b.services[r.service].requests[k].results| + 1 < UINT8_SIZE
               && Counted(y.x.b, r.service, k, r.value) == Ok(y'.x.b, out);
      CountedLists(y.x.b, r.service, k, r.value);
      CountedKeepsOk(y, r, y', body, faulty);
    } else {
      IgnoredKeepsOk(y, r, y', body, faulty);
    }
  }

  // ---- The broker on its own, processes, losses

  /** Lists may lose records, services may be added, ids stay. */
  ghost predicate Shrinks(services: Services, services': Services) {
    && services.Keys <= services'.Keys
    && (forall s :: s in services ==> services'[s].requestId == services[s].requestId)
    && forall s, k :: s in services' && 0 <= k < |services'[s].requests| ==>
         s in services && services'[s].requests[k] in services[s].requests
  }

  /** Registrations, pongs and heartbeats leave the ids of all services alone. */
  lemma QuietKeepsIds(b: Broker, e: Event, s: Service)
    requires Valid(b) && (e.Registering? || e.Ponging? || e.Beating?) && Step(b, e).Ok? && s in b.services
    ensures s in Step(b, e).state.services && Step(b, e).state.services[s].requestId == b.services[s].requestId
  {
    match e
    case Registering(_, _) =>
    case Ponging(_, _) =>
    case Beating(_, _, _) =>
  }

  lemma QuietShrinks(b: Broker, e: Event)
    requires Valid(b) && (e.Registering? || e.Ponging? || e.Beating?) && Step(b, e).Ok?
    ensures Shrinks(b.services, Step(b, e).state.services)
  {
    QuietStep(b, e);
    forall s | s in b.services {
      QuietKeepsIds(b, e, s);
    }
  }

  lemma SweepShrinks(b: Broker, e: Event)
    requires Sound(b) && e.Sweeping? && Step(b, e).Ok?
    ensures Shrinks(b.services, Step(b, e).state.services)
  {
    SweepingKeepsSound(b, e);
    var services' := Step(b, e).state.services;
    forall s, k | s in services' && 0 <= k < |services'[s].requests|
      ensures services'[s].requests[k] in b.services[s].requests
    {
      LiveAndLate(b.services[s].requests, e.now);
    }
  }

  lemma ShrinkKeepsOk(y: Sys, x: Session, body: Bodies, faulty: set<nat>)
    requires SysOk(y, body, faulty) && Sound(x.b) && Shrinks(y.x.b.services, x.b.services)
    ensures SysOk(y.(x := x), body, faulty)
  {
    var y' := y.(x := x);
    forall s, k | s in x.b.services && 0 <= k < |x.b.services[s].requests|
      ensures RecordOk(y', body, faulty, s, x.b.services[s].requests[k])
    {
      var r := x.b.services[s].requests[k];
      assert r in y.x.b.services[s].requests;
      var j :| 0 <= j < |y.x.b.services[s].requests| && y.x.b.services[s].requests[j] == r;
      assert RecordOk(y, body, faulty, s, y.x.b.services[s].requests[j]);
    }
  }

  lemma InternalKeepsOk(y: Sys, a: Act, out: seq<Output>, y': Sys, body: Bodies, faulty: set<nat>)
    requires SysOk(y, body, faulty) && a.Internal? && InternalStep(y, a, out, y')
    ensures SysOk(y', body, faulty)
  {
    StepKeepsSound(y.x.b, a.event);
    if a.event.Sweeping? {
      SweepShrinks(y.x.b, a.event);
    } else {
      QuietShrinks(y.x.b, a.event);
    }
    ShrinkKeepsOk(y, y'.x, body, faulty);
  }

  lemma LossKeepsFlight(y: Sys, y': Sys, body: Bodies, faulty: set<nat>)
    requires InFlightOk(y, body, faulty) && y'.parcels <= y.parcels && y'.replies <= y.replies
    requires y' == y.(parcels := y'.parcels, replies := y'.replies)
    ensures InFlightOk(y', body, faulty)
  {
    forall m | m in y'.parcels ensures ParcelOk(y', m) {
      assert m in y.parcels && ParcelOk(y, m);
    }
    forall r | r in y'.replies ensures r in y.replies {
    }
  }

  lemma LossKeepsOk(y: Sys, y': Sys, body: Bodies, faulty: set<nat>)
    requires SysOk(y, body, faulty) && y'.parcels <= y.parcels && y'.replies <= y.replies
    requires y' == y.(parcels := y'.parcels, replies := y'.replies)
    ensures SysOk(y', body, faulty)
  {
    LossKeepsFlight(y, y', body, faulty);
    SameVotes(y, y', body, faulty);
  }

  lemma SpawnKeepsFlight(y: Sys, pid: nat, s: Service, body: Bodies, faulty: set<nat>)
    requires InFlightOk(y, body, faulty) && pid !in y.processes
    ensures InFlightOk(y.(processes := y.processes[pid := Process(s, 0)]), body, faulty)
  {
  }

  lemma SpawnKeepsOk(y: Sys, pid: nat, s: Service, body: Bodies, faulty: set<nat>)
    requires SysOk(y, body, faulty) && pid !in y.processes
    ensures SysOk(y.(processes := y.processes[pid := Process(s, 0)]), body, faulty)
  {
    SpawnKeepsFlight(y, pid, s, body, faulty);
    SameVotes(y, y.(processes := y.processes[pid := Process(s, 0)]), body, faulty);
  }

  lemma SysStepKeepsOk(y: Sys, a: Act, out: seq<Output>, y': Sys, body: Bodies, faulty: set<nat>)
    requires SysOk(y, body, faulty) && SysStep(body, faulty, y, a, out, y')
    ensures SysOk(y', body, faulty)
  {
    match a
    case Ask(_, _, _, _, _) => AskKeepsOk(y, a, out, y', body, faulty);
    case Deliver(_, _, _, _) => DeliverKeepsOk(y, a, y', body, faulty);
    case Arrive(_) => ArriveKeepsOk(y, a, out, y', body, faulty);
    case Internal(_) => InternalKeepsOk(y, a, out, y', body, faulty);
    case Spawn(pid, s) => SpawnKeepsOk(y, pid, s, body, faulty);
    case LoseParcel(_) => LossKeepsOk(y, y', body, faulty);
    case LoseReply(_) => LossKeepsOk(y, y', body, faulty);
  }

  lemma StartIsOk(nmr: nat, body: Bodies, faulty: set<nat>)
    requires 0 < nmr < UINT8_SIZE
    ensures SysOk(Start(nmr), body, faulty)
  {
    InitIsValid(nmr);
  }

  lemma {:induction false} SystemRunsAreOk(nmr: nat, body: Bodies, faulty: set<nat>,
                                           ys: seq<Sys>, acts: seq<Act>, outs: seq<seq<Output>>, i: nat)
    requires 0 < nmr < UINT8_SIZE && IsSystemRun(nmr, body, faulty, ys, acts, outs) && i < |ys|
    ensures SysOk(ys[i], body, faulty)
  {
    if i == 0 {
      StartIsOk(nmr, body, faulty);
    } else {
      SystemRunsAreOk(nmr, body, faulty, ys, acts, outs, i - 1);
      assert SysRunStep(body, faulty, ys, acts, outs, i - 1);
      SysStepKeepsOk(ys[i - 1], acts[i - 1], outs[i - 1], ys[i], body, faulty);
    }
  }
}
