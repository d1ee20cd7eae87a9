/** The broker's service database: registration counters, liveness slots and pending requests per service. */
module Database {
  import opened Common
  import opened TimeArithmetic
  import opened Requests

  datatype ServiceRecord = ServiceRecord(
    registered: int,           // uint8_t num_copies_registered
    reliable: int,             // uint8_t num_copies_reliable
    dealerSocket: int,         // uint16_t
    dealerIndex: nat,          // uint16_t
    pingId: nat,               // uint32_t
    requestId: nat,            // uint32_t
    requests: seq<RequestRecord>,
    newPong: seq<bool>,
    lostPong: seq<int>)

  type Services = map<Service, ServiceRecord>

  /** The widths of the fields, one liveness slot per copy, and the range of a slot. */
  ghost predicate ValidRecord(r: ServiceRecord, nmr: nat) {
    && 0 <= r.registered < UINT8_SIZE && 0 <= r.reliable < UINT8_SIZE
    && r.pingId < UINT32_SIZE && r.requestId < UINT32_SIZE
    && r.dealerIndex < UINT16_SIZE && 0 <= r.dealerSocket < UINT16_SIZE
    && |r.newPong| == |r.lostPong| == nmr
    && forall j :: 0 <= j < nmr ==> -1 <= r.lostPong[j] <= LIVENESS
  }

  ghost predicate ValidServices(services: Services, nmr: nat) {
    forall s :: s in services ==> ValidRecord(services[s], nmr)
  }

  function FreshRecord(nmr: nat, socket: int, index: nat): ServiceRecord {
    ServiceRecord(1, 1, socket, index, UINT32_SIZE - 1, 0, [],
                  seq(nmr, _ => false), seq(nmr, _ => -1))
  }

  // ---- Heartbeat slots

  function CheckSlot(lost: int, ponged: bool): int {
    if ponged then 0 else if lost < LIVENESS then lost + 1 else lost
  }

  /** The copies that the next check writes off. */
  function Charged(r: ServiceRecord): set<nat>
    requires |r.newPong| == |r.lostPong|
  {
    set j: nat | j < |r.lostPong| && !r.newPong[j] && r.lostPong[j] == LIVENESS - 1
  }

  function CheckRecord(r: ServiceRecord): ServiceRecord
    requires |r.newPong| == |r.lostPong|
  {
    r.(lostPong := seq(|r.lostPong|, j requires 0 <= j < |r.lostPong| => CheckSlot(r.lostPong[j], r.newPong[j])),
       newPong := seq(|r.newPong|, _ => false),
       reliable := (r.reliable - |Charged(r)|) % UINT8_SIZE,
       registered := (r.registered - |Charged(r)|) % UINT8_SIZE,
       pingId := (r.pingId + 1) % UINT32_SIZE)
  }

  // ---- Registration

  datatype Registration = Registration(services: Services, nextIndex: nat, nextPort: int, reply: int, ready: bool)

  function Register(services: Services, nmr: nat, nextIndex: nat, nextPort: int, s: Service): Registration {
    if s !in services then
      Registration(services[s := FreshRecord(nmr, nextPort, nextIndex)],
                   (nextIndex + 1) % UINT16_SIZE, (nextPort + 1) % UINT16_SIZE, nextPort, false)
    else
      var r := services[s];
      if r.registered < nmr then
        var r' := r.(registered := (r.registered + 1) % UINT8_SIZE, reliable := (r.reliable + 1) % UINT8_SIZE);
        Registration(services[s := r'], nextIndex, nextPort, r.dealerSocket, r'.registered == nmr)
      else
        Registration(services, nextIndex, nextPort, REG_FAIL, false)
  }

  function WithRequests(services: Services, s: Service, rs: seq<RequestRecord>): Services
    requires s in services
  {
    services[s := services[s].(requests := rs)]
  }

  /** One erasing turn of the deletion loop. */
  lemma EraseStep(before: seq<RequestRecord>, c: Client, rs: seq<RequestRecord>, j: nat)
    requires j < |rs| && rs[j].client == c
    requires Erase(before, c) == rs[..j] + Erase(rs[j..], c)
    ensures var now := rs[..j] + rs[j + 1..];
            Erase(before, c) == if j + 1 <= |now| then now[..j + 1] + Erase(now[j + 1..], c) else now
  {
    var now := rs[..j] + rs[j + 1..];
    if j + 1 < |rs| {
      assert rs[j..][1] == rs[j + 1] && rs[j..][2..] == rs[j + 2..];
      assert now[..j + 1] == rs[..j] + [rs[j + 1]] && now[j + 1..] == rs[j + 2..];
    }
  }

  /** One turn that leaves the record alone. */
  lemma KeepStep(before: seq<RequestRecord>, c: Client, rs: seq<RequestRecord>, j: nat)
    requires j < |rs| && rs[j].client != c
    requires Erase(before, c) == rs[..j] + Erase(rs[j..], c)
    ensures Erase(before, c) == rs[..j + 1] + Erase(rs[j + 1..], c)
  {
    assert rs[j..][1..] == rs[j + 1..] && rs[..j + 1] == rs[..j] + [rs[j]];
  }

  /** The loop of `delete_request` over the request vector of one service. */
  method EraseLoop(before: seq<RequestRecord>, c: Client) returns (rs: seq<RequestRecord>)
    ensures rs == Erase(before, c)
    ensures Others(rs, c) == Others(before, c)
    ensures rs == Others(before, c) <==> !Adjacent(before, c)
  {
    rs := before;
    var j := 0;
    while j < |rs|
      invariant j <= |rs| + 1
      invariant Erase(before, c) == if j <= |rs| then rs[..j] + Erase(rs[j..], c) else rs
    {
      if rs[j].client == c {
        EraseStep(before, c, rs, j);
        rs := rs[..j] + rs[j + 1..];
      } else {
        KeepStep(before, c, rs, j);
      }
      j := j + 1;
    }
    assert j == |rs| ==> rs[..j] == rs && rs[j..] == [];
    EraseKeepsOthers(before, c);
    EraseIsFilterIff(before, c);
  }

  /** The loop of `push_result`; `ret` is the size of the last result list it extended, -1 if none. */
  method AddResultLoop(before: seq<RequestRecord>, c: Client, result: int)
    returns (rs: seq<RequestRecord>, ret: int)
    ensures rs == AddResult(before, c, result)
    ensures ret == match LastResults(rs, c) case Some(vs) => |vs| case None => -1
  {
    rs, ret := before, -1;
    ghost var after := AddResult(before, c, result);
    var j := 0;
    while j < |rs|
      invariant j <= |rs| == |before|
      invariant forall k :: 0 <= k < j ==> rs[k] == after[k]
      invariant forall k :: j <= k < |rs| ==> rs[k] == before[k]
      invariant ret == match LastResults(rs[..j], c) case Some(vs) => |vs| case None => -1
    {
      ghost var done := rs[..j];
      if rs[j].client == c {
        rs := rs[j := rs[j].(results := rs[j].results + [result])];
        ret := |rs[j].results|;
      }
      assert rs[..j + 1][..j] == done;
      j := j + 1;
    }
    assert rs[..j] == rs;
  }

  /** The loop of `get_result`: the results of the client's last record. */
  method ResultLoop(rs: seq<RequestRecord>, c: Client) returns (ret: seq<int>)
    ensures ret == match LastResults(rs, c) case Some(vs) => vs case None => []
  {
    ret := [];
    var j := 0;
    while j < |rs|
      invariant j <= |rs|
      invariant ret == match LastResults(rs[..j], c) case Some(vs) => vs case None => []
    {
      assert rs[..j + 1][..j] == rs[..j];
      if rs[j].client == c {
        ret := rs[j].results;
      }
      j := j + 1;
    }
    assert rs[..j] == rs;
  }

  function ChargedBelow(r: ServiceRecord, j: nat): set<nat>
    requires |r.newPong| == |r.lostPong|
  {
    set k | k in Charged(r) && k < j
  }

  lemma ChargedBelowStep(r: ServiceRecord, j: nat)
    requires |r.newPong| == |r.lostPong| && j < |r.lostPong|
    ensures |ChargedBelow(r, j + 1)| == |ChargedBelow(r, j)|
              + if !r.newPong[j] && r.lostPong[j] == LIVENESS - 1 then 1 else 0
  {
    if j in Charged(r) {
      assert ChargedBelow(r, j + 1) == ChargedBelow(r, j) + {j};
    } else {
      assert ChargedBelow(r, j + 1) == ChargedBelow(r, j);
    }
  }

  /** The loop of `check_pong` over the slots of one service. */
  method CheckLoop(r: ServiceRecord) returns (newPong: seq<bool>, lostPong: seq<int>, unreliable: int)
    requires |r.newPong| == |r.lostPong|
    requires forall k :: 0 <= k < |r.lostPong| ==> r.lostPong[k] <= LIVENESS
    ensures newPong == CheckRecord(r).newPong && lostPong == CheckRecord(r).lostPong
    ensures unreliable == |Charged(r)|
  {
    newPong, lostPong, unreliable := r.newPong, r.lostPong, 0;
    assert ChargedBelow(r, 0) == {};
    var j: nat := 0;
    while j < |r.lostPong|
      invariant j <= |newPong| == |lostPong| == |r.lostPong|
      invariant forall k :: 0 <= k < j ==> !newPong[k] && lostPong[k] == CheckSlot(r.lostPong[k], r.newPong[k])
      invariant forall k :: j <= k < |lostPong| ==> newPong[k] == r.newPong[k] && lostPong[k] == r.lostPong[k]
      invariant unreliable == |ChargedBelow(r, j)|
    {
      ChargedBelowStep(r, j);
      if !newPong[j] && lostPong[j] < LIVENESS {
        lostPong := lostPong[j := lostPong[j] + 1];
        if lostPong[j] == LIVENESS {
          unreliable := unreliable + 1;
        }
      } else if newPong[j] {
        newPong, lostPong := newPong[j := false], lostPong[j := 0];
      }
      j := j + 1;
    }
    assert ChargedBelow(r, j) == Charged(r);
  }

  class ServiceDatabase {
    const nmr: nat
    var services: Services
    var nextIndex: nat

    ghost predicate Valid()
      reads this
    {
      nmr < UINT8_SIZE && nextIndex < UINT16_SIZE && ValidServices(services, nmr)
    }

    constructor (nmr: nat)
      requires nmr < UINT8_SIZE
      ensures Valid() && this.nmr == nmr && services == map[] && nextIndex == 0
    {
      this.nmr := nmr;
      services := map[];
      nextIndex := 0;
    }

    /** The dealer index of a registered service, -1 otherwise; a partly registered one is found too. */
    method FindRegistration(s: Service) returns (index: int)
      requires Valid()
      ensures index == -1 <==> s !in services
      ensures index != -1 ==> s in services && index == services[s].dealerIndex
    {
      index := if s in services then services[s].dealerIndex else -1;
    }

    /** `dealerSocket` is passed by reference: `port` is its value afterwards. */
    method PushRegistration(s: Service, dealerSocket: int) returns (ret: int, port: int, ready: bool)
      requires Valid() && 0 <= dealerSocket < UINT16_SIZE
      modifies this
      ensures Valid() && 0 <= port < UINT16_SIZE
      ensures var r := Register(old(services), nmr, old(nextIndex), dealerSocket, s);
              services == r.services && nextIndex == r.nextIndex && port == r.nextPort
              && ret == r.reply && ready == r.ready
    {
      ready, port := false, dealerSocket;
      if s !in services {
        var lost, ponged := [], [];
        for j := 0 to nmr
          invariant lost == seq(j, _ => -1) && ponged == seq(j, _ => false)
        {
          lost := lost + [-1];
          ponged := ponged + [false];
        }
        services := services[s := ServiceRecord(1, 1, dealerSocket, nextIndex, UINT32_SIZE - 1, 0, [], ponged, lost)];
        nextIndex := (nextIndex + 1) % UINT16_SIZE;
        ret := dealerSocket;
        port := (port + 1) % UINT16_SIZE;
      } else {
        var r := services[s];
        if r.registered < nmr {
          services := services[s := r.(registered := r.registered + 1,
                                       reliable := (r.reliable + 1) % UINT8_SIZE)];
        } else {
          return REG_FAIL, port, false;
        }
        if services[s].registered == nmr {
          ready := true;
        }
        ret := r.dealerSocket;
      }
    }

    /** The process exits, leaving the table alone, when the service is unknown. */
    method PushRequest(c: Client, s: Service, clock: Timespec) returns (ok: bool)
      requires Valid()
      modifies this`services
      ensures Valid() && ok == (s in old(services))
      ensures services == if ok
                          then WithRequests(old(services), s, old(services)[s].requests
                                            + [RequestRecord(c, [], AddMs(clock, REQUEST_TIMEOUT))])
                          else old(services)
    {
      if s !in services {
        return false;
      }
      var timeout := new TimespecCell(clock);
      timeout.TimeAddMs(REQUEST_TIMEOUT);
      services := services[s := services[s].(requests :=
        services[s].requests + [RequestRecord(c, [], timeout.Value())])];
      ok := true;
    }

    method DeleteRequest(s: Service, c: Client) returns (ok: bool)
      requires Valid()
      modifies this`services
      ensures Valid() && ok == (s in old(services))
      ensures services == if ok
                          then WithRequests(old(services), s, Erase(old(services)[s].requests, c))
                          else old(services)
    {
      if s !in services {
        return false;
      }
      var rs := EraseLoop(services[s].requests, c);
      services := services[s := services[s].(requests := rs)];
      ok := true;
    }

    /** The number of results the client's last record then holds, -1 if it has no record. */
    method PushResult(s: Service, c: Client, result: int) returns (ok: bool, ret: int)
      requires Valid()
      modifies this`services
      ensures Valid() && ok == (s in old(services))
      ensures services == if ok
                          then WithRequests(old(services), s, AddResult(old(services)[s].requests, c, result))
                          else old(services)
      ensures ok ==> ret == match LastResults(services[s].requests, c) case Some(vs) => |vs| case None => -1
    {
      if s !in services {
        return false, -1;
      }
      var rs;
      rs, ret := AddResultLoop(services[s].requests, c, result);
      services := services[s := services[s].(requests := rs)];
      ok := true;
    }

    method GetResult(s: Service, c: Client) returns (ok: bool, ret: seq<int>)
      requires Valid()
      ensures ok == (s in services)
      ensures ok ==> ret == match LastResults(services[s].requests, c) case Some(vs) => vs case None => []
    {
      if s !in services {
        return false, [];
      }
      ret := ResultLoop(services[s].requests, c);
      ok := true;
    }

    /** Storing outside the slots is undefined; `inBounds` tells whether that was avoided. */
    method RegisterPong(copy: nat, s: Service) returns (ok: bool, inBounds: bool)
      requires Valid()
      modifies this`services
      ensures Valid() && ok == (s in old(services)) && inBounds == (copy < nmr)
      ensures services == if ok && inBounds
                          then old(services)[s := old(services)[s].(newPong := old(services)[s].newPong[copy := true])]
                          else old(services)
    {
      inBounds := copy < nmr;
      if s !in services {
        return false, inBounds;
      }
      if inBounds {
        services := services[s := services[s].(newPong := services[s].newPong[copy := true])];
      }
      ok := true;
    }

    /** One round of the liveness check over the slots of a service the broker has made available. */
    method CheckPong(s: Service)
      requires Valid() && s in services
      modifies this`services
      ensures Valid() && services == old(services)[s := CheckRecord(old(services)[s])]
    {
      var r := services[s];
      var newPong, lostPong, unreliable := CheckLoop(r);
      services := services[s := r.(newPong := newPong, lostPong := lostPong,
                                   reliable := (r.reliable - unreliable) % UINT8_SIZE,
                                   registered := (r.registered - unreliable) % UINT8_SIZE,
                                   pingId := (r.pingId + 1) % UINT32_SIZE)];
    }

    method GetReliableCopies(s: Service) returns (ok: bool, copies: int)
      requires Valid()
      ensures ok == (s in services) && (ok ==> copies == services[s].reliable)
    {
      if s !in services {
        return false, 0;
      }
      return true, services[s].reliable;
    }

    method GetPingId(s: Service) returns (ok: bool, id: nat)
      requires Valid()
      ensures ok == (s in services) && (ok ==> id == services[s].pingId)
    {
      if s !in services {
        return false, 0;
      }
      return true, services[s].pingId;
    }

    /** Hands out the current request id and moves on to the next. */
    method GetRequestId(s: Service) returns (ok: bool, id: nat)
      requires Valid()
      modifies this`services
      ensures Valid() && ok == (s in old(services))
      ensures ok ==> id == old(services)[s].requestId
      ensures services == if ok
                          then old(services)[s := old(services)[s].(requestId := (id + 1) % UINT32_SIZE)]
                          else old(services)
    {
      if s !in services {
        return false, 0;
      }
      id := services[s].requestId;
      services := services[s := services[s].(requestId := (id + 1) % UINT32_SIZE)];
      ok := true;
    }

    method GetPendingRequests(s: Service) returns (ok: bool, pending: seq<RequestRecord>)
      requires Valid()
      ensures ok == (s in services) && (ok ==> pending == services[s].requests)
    {
      pending := [];
      if s !in services {
        return false, [];
      }
      var rs := services[s].requests;
      for j := 0 to |rs|
        invariant pending == rs[..j]
      {
        pending := pending + [rs[j]];
      }
      ok := true;
    }
  }
}
