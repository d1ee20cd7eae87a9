/** The broker as a state machine: one function per handler, one event per handled message or expired timer. */
module BrokerMachine {
  import opened Common
  import opened TimeArithmetic
  import opened Voting
  import opened Requests
  import opened Database

  datatype Socket = Router | Registrations | HealthCheck | Dealer(port: int)

  datatype Broker = Broker(
    nmr: nat,
    services: Services,
    nextIndex: nat,
    nextPort: int,
    available: seq<Service>,
    dealers: seq<int>,         // the port each dealer socket is bound to
    items: seq<Socket>,        // the poll set
    timeouts: seq<Timespec>)

  /** What leaves the broker. A `Forward` or `Ping` goes out through the dealer with that index. */
  datatype Output =
    | Answer(client: Client, verdict: Verdict)
    | Forward(dealer: nat, service: Service, id: nat, client: Client, params: string)
    | Ping(dealer: nat, id: nat)
    | RegistrationReply(port: int)

  /** `exit`, an access outside a vector, or a loop that never ends. */
  datatype Fault = Exited | OutOfBounds | Diverged

  /** What a handler sends before a fault has been sent. */
  datatype Outcome = Ok(state: Broker, out: seq<Output>) | Failed(fault: Fault, out: seq<Output>)

  /** Every clock reading the handler takes is part of the event. */
  datatype Event =
    | Registering(service: Service, clock: Timespec)
    | Requesting(client: Client, service: Service, params: string, clock: Timespec, rearm: Timespec)
    | Replying(service: Service, client: Client, result: int, duplicated: bool)
    | Ponging(service: Service, copy: nat)
    | Beating(index: nat, now: Timespec, rearm: Timespec)
    | Sweeping(now: Timespec)

  function Init(nmr: nat): Broker {
    Broker(nmr, map[], 0, DEALER_START_PORT, [], [], [Router, Registrations, HealthCheck], [])
  }

  predicate NoRepeats(ss: seq<Service>) {
    forall i, j :: 0 <= i < j < |ss| ==> ss[i] != ss[j]
  }

  function DealerSockets(ports: seq<int>): seq<Socket> {
    seq(|ports|, k requires 0 <= k < |ports| => Dealer(ports[k]))
  }

  /** Holds in every state of the broker object. */
  ghost predicate Valid(b: Broker) {
    && b.nmr < UINT8_SIZE && b.nextIndex < UINT16_SIZE && 0 <= b.nextPort < UINT16_SIZE
    && |b.dealers| == |b.timeouts| == |b.available|
    && b.items == [Router, Registrations, HealthCheck] + DealerSockets(b.dealers)
    && NoRepeats(b.available)
    && (forall k :: 0 <= k < |b.available| ==> b.available[k] in b.services)
    && ValidServices(b.services, b.nmr)
  }

  // ---- Registration

  function GetRegistration(b: Broker, s: Service, clock: Timespec): Outcome {
    var r := Register(b.services, b.nmr, b.nextIndex, b.nextPort, s);
    var b' := b.(services := r.services, nextIndex := r.nextIndex, nextPort := r.nextPort);
    Ok(if r.ready && s !in b.available then
         b'.(available := b.available + [s],
             dealers := b.dealers + [r.reply],
             items := b.items + [Dealer(r.reply)],
             timeouts := b.timeouts + [AddMs(clock, HEARTBEAT_INTERVAL)])
       else b',
       [RegistrationReply(r.reply)])
  }

  // ---- Requests

  /** The position of `s`, or the length when it is missing, as the scan in `update_timeout` leaves it. */
  function IndexOf(ss: seq<Service>, s: Service): (i: nat)
    ensures i <= |ss| && (i < |ss| ==> ss[i] == s) && s !in ss[..i]
    ensures i < |ss| <==> s in ss
  {
    if ss == [] || ss[0] == s then 0
    else
      var i := IndexOf(ss[1..], s);
      assert s in ss ==> s in ss[1..];
      assert ss[..1 + i] == [ss[0]] + ss[1..][..i];
      1 + i
  }

  lemma {:induction false} IndexOfIs(ss: seq<Service>, s: Service, i: nat)
    requires i <= |ss| && s !in ss[..i] && (i < |ss| ==> ss[i] == s)
    ensures i == IndexOf(ss, s)
  {
    if i > 0 {
      assert ss[..i][0] == ss[0];
      assert ss[..i] == [ss[0]] + ss[1..][..i - 1];
      IndexOfIs(ss[1..], s, i - 1);
    }
  }

  function UpdateTimeout(b: Broker, s: Service, clock: Timespec): Option<Broker> {
    var i := IndexOf(b.available, s);
    if i < |b.timeouts| then Some(b.(timeouts := b.timeouts[i := AddMs(clock, HEARTBEAT_INTERVAL)]))
    else None
  }

  function Accept(b: Broker, c: Client, s: Service, clock: Timespec): Broker
    requires s in b.services
  {
    var r := b.services[s];
    b.(services := b.services[s := r.(
         requestId := (r.requestId + 1) % UINT32_SIZE,
         requests := r.requests + [RequestRecord(c, [], AddMs(clock, REQUEST_TIMEOUT))])])
  }

  function GetRequest(b: Broker, c: Client, s: Service, params: string, clock: Timespec, rearm: Timespec): Outcome
    requires Valid(b)
  {
    if s !in b.services then Ok(b, [Answer(c, NotAvailable)])
    else
      var r := b.services[s];
      if r.reliable > 0 && r.dealerIndex >= |b.dealers| then Failed(OutOfBounds, [])
      else
        var forwards := seq(r.reliable, _ => Forward(r.dealerIndex, s, r.requestId, c, params));
        match UpdateTimeout(Accept(b, c, s, clock), s, rearm)
        case Some(b') => Ok(b', forwards)
        case None => Failed(OutOfBounds, forwards)
  }

  // ---- Replies

  function Settle(b: Broker, s: Service, rs: seq<RequestRecord>): Broker
    requires s in b.services
  {
    b.(services := WithRequests(b.services, s, rs))
  }

  /** The voter looks at the client's results when a new one has just been stored. */
  function AfterResult(b: Broker, s: Service, c: Client): Outcome
    requires s in b.services
  {
    var rs := b.services[s].requests;
    match LastResults(rs, c)
    case None => Ok(b, [])
    case Some(values) =>
      if |values| >= UINT8_SIZE then Failed(Diverged, [])
      else
        match Decide(values, b.nmr)
        case None => Ok(b, [])
        case Some(verdict) => Ok(Settle(b, s, Erase(rs, c)), [Answer(c, verdict)])
  }

  function GetResponse(b: Broker, s: Service, c: Client, result: int, duplicated: bool): Outcome {
    if duplicated then Ok(b, [])
    else if s !in b.services then Failed(Exited, [])
    else AfterResult(Settle(b, s, AddResult(b.services[s].requests, c, result)), s, c)
  }

  function GetPong(b: Broker, s: Service, copy: nat): Outcome
    requires Valid(b)
  {
    if s !in b.services then Failed(Exited, [])
    else if copy >= b.nmr then Failed(OutOfBounds, [])
    else
      var r := b.services[s];
      Ok(b.(services := b.services[s := r.(newPong := r.newPong[copy := true])]), [])
  }

  // ---- Heartbeat timers

  /** `ping_server` takes the position as a single byte. */
  function Pings(b: Broker, i: nat, s: Service): seq<Output>
    requires Valid(b) && i < |b.available| && s in b.services
  {
    var k := i % UINT8_SIZE;
    seq(b.services[b.available[k]].reliable, _ => Ping(k, b.services[s].pingId))
  }

  function Heartbeat(b: Broker, i: nat, now: Timespec, rearm: Timespec): Outcome
    requires Valid(b)
  {
    if i >= |b.timeouts| || !Expired(now, b.timeouts[i]) then Ok(b, [])
    else
      var s := b.available[i];
      var b' := Checked(b, s);
      match UpdateTimeout(b', s, rearm)
      case Some(b'') => Ok(b'', Pings(b', i, s))
      case None => Failed(OutOfBounds, Pings(b', i, s))
  }

  function Checked(b: Broker, s: Service): (b': Broker)
    requires Valid(b) && s in b.services
    ensures Valid(b')
  {
    b.(services := b.services[s := CheckRecord(b.services[s])])
  }

  // ---- Request deadlines

  datatype Sweep = Swept(services: Services, out: seq<Output>) | Broken(fault: Fault, out: seq<Output>)

  function Then(out: seq<Output>, rest: Sweep): Sweep {
    rest.(out := out + rest.out)
  }

  lemma ThenThen(done: seq<Output>, out: seq<Output>, rest: Sweep)
    ensures Then(done, Then(out, rest)) == Then(done + out, rest)
  {
    assert done + (out + rest.out) == (done + out) + rest.out;
  }

  function TimeoutVerdict(r: RequestRecord, nmr: nat): Verdict
    requires |r.results| < UINT8_SIZE
  {
    match Elect(r.results, nmr)
    case Some(v) => Available(v)
    case None => NotReliable
  }

  /** The inner loop: `pending` is a snapshot, and what is deleted is deleted from service number `i`. */
  function SweepPending(services: Services, nmr: nat, i: nat, pending: seq<RequestRecord>, now: Timespec): Sweep
    decreases |pending|
  {
    if pending == [] then Swept(services, [])
    else if !Expired(now, pending[0].timeout) then SweepPending(services, nmr, i, pending[1..], now)
    else if |pending[0].results| >= UINT8_SIZE then Broken(Diverged, [])
    else
      var answer := Answer(pending[0].client, TimeoutVerdict(pending[0], nmr));
      if i !in services then Broken(Exited, [answer])
      else
        var erased := WithRequests(services, i, Erase(services[i].requests, pending[0].client));
        Then([answer], SweepPending(erased, nmr, i, pending[1..], now))
  }

  /** The outer loop, from position `i` of the available services on. */
  function SweepFrom(services: Services, nmr: nat, available: seq<Service>, i: nat, now: Timespec): Sweep
    requires i <= |available|
    decreases |available| - i
  {
    if i == |available| then Swept(services, [])
    else if available[i] !in services then Broken(Exited, [])
    else
      match SweepPending(services, nmr, i, services[available[i]].requests, now)
      case Broken(f, out) => Broken(f, out)
      case Swept(services', out) => Then(out, SweepFrom(services', nmr, available, i + 1, now))
  }

  /** One turn of the outer loop, with what has gone out before it. */
  lemma SweepTurn(services: Services, nmr: nat, available: seq<Service>, i: nat, now: Timespec, done: seq<Output>)
    requires i < |available| && available[i] in services
    ensures Then(done, SweepFrom(services, nmr, available, i, now))
         == match SweepPending(services, nmr, i, services[available[i]].requests, now)
            case Broken(f, out) => Broken(f, done + out)
            case Swept(services', out) => Then(done + out, SweepFrom(services', nmr, available, i + 1, now))
  {
    var w := SweepPending(services, nmr, i, services[available[i]].requests, now);
    if w.Swept? {
      ThenThen(done, w.out, SweepFrom(w.services, nmr, available, i + 1, now));
    }
  }

  function CheckPendingRequests(b: Broker, now: Timespec): Outcome {
    match SweepFrom(b.services, b.nmr, b.available, 0, now)
    case Broken(f, out) => Failed(f, out)
    case Swept(services, out) => Ok(b.(services := services), out)
  }

  // ---- The machine

  function Step(b: Broker, e: Event): Outcome
    requires Valid(b)
  {
    match e
    case Registering(s, clock) => GetRegistration(b, s, clock)
    case Requesting(c, s, params, clock, rearm) => GetRequest(b, c, s, params, clock, rearm)
    case Replying(s, c, result, duplicated) => GetResponse(b, s, c, result, duplicated)
    case Ponging(s, copy) => GetPong(b, s, copy)
    case Beating(i, now, rearm) => Heartbeat(b, i, now, rearm)
    case Sweeping(now) => CheckPendingRequests(b, now)
  }

  ghost predicate OnlyRequestsDiffer(before: Services, after: Services) {
    && after.Keys == before.Keys
    && forall s :: s in before ==> after[s] == before[s].(requests := after[s].requests)
  }

  lemma {:induction false} SweepPendingKeeps(services: Services, nmr: nat, i: nat, pending: seq<RequestRecord>,
                                             now: Timespec)
    ensures var w := SweepPending(services, nmr, i, pending, now);
            w.Swept? ==> OnlyRequestsDiffer(services, w.services)
    decreases |pending|
  {
    if pending != [] {
      if !Expired(now, pending[0].timeout) {
        SweepPendingKeeps(services, nmr, i, pending[1..], now);
      } else if i in services {
        SweepPendingKeeps(WithRequests(services, i, Erase(services[i].requests, pending[0].client)),
                          nmr, i, pending[1..], now);
      }
    }
  }

  /** The timeout pass touches nothing but the request lists. */
  lemma {:induction false} SweepFromKeeps(services: Services, nmr: nat, available: seq<Service>, i: nat, now: Timespec)
    requires i <= |available|
    ensures var w := SweepFrom(services, nmr, available, i, now);
            w.Swept? ==> OnlyRequestsDiffer(services, w.services)
    decreases |available| - i
  {
    if i < |available| && available[i] in services {
      var w := SweepPending(services, nmr, i, services[available[i]].requests, now);
      SweepPendingKeeps(services, nmr, i, services[available[i]].requests, now);
      if w.Swept? {
        SweepFromKeeps(w.services, nmr, available, i + 1, now);
      }
    }
  }

  lemma InitIsValid(nmr: nat)
    requires nmr < UINT8_SIZE
    ensures Valid(Init(nmr))
  {
  }

  lemma RegistrationKeepsValid(b: Broker, s: Service, clock: Timespec)
    requires Valid(b)
    ensures Valid(GetRegistration(b, s, clock).state)
  {
    var r := Register(b.services, b.nmr, b.nextIndex, b.nextPort, s);
    assert ValidServices(r.services, b.nmr);
    if r.ready && s !in b.available {
      assert DealerSockets(b.dealers + [r.reply]) == DealerSockets(b.dealers) + [Dealer(r.reply)];
    }
  }

  lemma RequestKeepsValid(b: Broker, c: Client, s: Service, params: string, clock: Timespec, rearm: Timespec)
    requires Valid(b)
    ensures var o := GetRequest(b, c, s, params, clock, rearm);
            o.Ok? ==> Valid(o.state)
  {
  }

  lemma HeartbeatKeepsValid(b: Broker, i: nat, now: Timespec, rearm: Timespec)
    requires Valid(b)
    ensures var o := Heartbeat(b, i, now, rearm);
            o.Ok? ==> Valid(o.state)
  {
    if i < |b.timeouts| {
      var checked := Checked(b, b.available[i]);
    }
  }

  lemma SweepKeepsValid(b: Broker, now: Timespec)
    requires Valid(b)
    ensures var o := CheckPendingRequests(b, now);
            o.Ok? ==> Valid(o.state)
  {
    SweepFromKeeps(b.services, b.nmr, b.available, 0, now);
  }

  lemma SettleKeepsValid(b: Broker, s: Service, rs: seq<RequestRecord>)
    requires Valid(b) && s in b.services
    ensures Valid(Settle(b, s, rs))
  {
  }

  /** Every handler that returns keeps the object well formed. */
  lemma StepKeepsValid(b: Broker, e: Event)
    requires Valid(b)
    ensures Step(b, e).Ok? ==> Valid(Step(b, e).state)
  {
    match e
    case Registering(s, clock) => RegistrationKeepsValid(b, s, clock);
    case Requesting(c, s, params, clock, rearm) => RequestKeepsValid(b, c, s, params, clock, rearm);
    case Replying(s, c, result, duplicated) =>
    case Ponging(s, copy) =>
    case Beating(i, now, rearm) => HeartbeatKeepsValid(b, i, now, rearm);
    case Sweeping(now) => SweepKeepsValid(b, now);
  }
}
