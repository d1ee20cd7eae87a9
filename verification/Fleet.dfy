/** A broker at which the copies of one service register one by one, for every redundancy. */
module Fleet {
  import opened Common
  import opened TimeArithmetic
  import opened Requests
  import opened Database
  import opened BrokerMachine

  const T0 := Timespec(0, 0)
  const T6 := Timespec(6, 0)

  /** The record of the service that registered first, when `n` of its copies have. */
  function Entry(nmr: nat, n: nat, id: nat, requests: seq<RequestRecord>): ServiceRecord {
    ServiceRecord(n, n, DEALER_START_PORT, 0, UINT32_SIZE - 1, id, requests, seq(nmr, _ => false), seq(nmr, _ => -1))
  }

  /** So far `n` copies of service `s` have registered; it is available when all have. */
  function Registered(nmr: nat, s: Service, n: nat): Broker {
    Broker(nmr, map[s := Entry(nmr, n, 0, [])], 1, DEALER_START_PORT + 1,
           if n == nmr then [s] else [],
           if n == nmr then [DEALER_START_PORT] else [],
           [Router, Registrations, HealthCheck] + if n == nmr then [Dealer(DEALER_START_PORT)] else [],
           if n == nmr then [Timespec(2, 0)] else [])
  }

  lemma RegisteredIsValid(nmr: nat, s: Service, n: nat)
    requires n <= nmr < UINT8_SIZE
    ensures Valid(Registered(nmr, s, n))
  {
    assert DealerSockets([DEALER_START_PORT]) == [Dealer(DEALER_START_PORT)];
    assert DealerSockets([]) == [];
  }

  lemma FirstRegisters(nmr: nat, s: Service)
    requires 2 <= nmr < UINT8_SIZE
    ensures Valid(Init(nmr))
    ensures Step(Init(nmr), Registering(s, T0)) == Ok(Registered(nmr, s, 1), [RegistrationReply(DEALER_START_PORT)])
  {
    InitIsValid(nmr);
    assert map[][s := Entry(nmr, 1, 0, [])] == map[s := Entry(nmr, 1, 0, [])];
    assert FreshRecord(nmr, DEALER_START_PORT, 0) == Entry(nmr, 1, 0, []);
    assert [Router, Registrations, HealthCheck] + [] == [Router, Registrations, HealthCheck];
  }

  lemma NextRegisters(nmr: nat, s: Service, n: nat)
    requires 2 <= nmr < UINT8_SIZE && 0 < n < nmr
    ensures Valid(Registered(nmr, s, n))
    ensures Step(Registered(nmr, s, n), Registering(s, T0))
         == Ok(Registered(nmr, s, n + 1), [RegistrationReply(DEALER_START_PORT)])
  {
    RegisteredIsValid(nmr, s, n);
    var b := Registered(nmr, s, n);
    assert b.services[s := Entry(nmr, n + 1, 0, [])] == map[s := Entry(nmr, n + 1, 0, [])];
    assert [Router, Registrations, HealthCheck] + [] == [Router, Registrations, HealthCheck];
    assert [] + [s] == [s] && [] + [DEALER_START_PORT] == [DEALER_START_PORT];
    assert [] + [Timespec(2, 0)] == [Timespec(2, 0)];
  }
}
