/** Types and constants shared by the broker, the server copies and the health checkers. */
module Common {

  datatype Option<+T> = None | Some(value: T)

  /** Identity of a client socket, carried in the first frame of every message. */
  type Client = nat

  /** Value of `service_type_t`; off the wire it may be any number. */
  type Service = nat

  const UINT8_SIZE := 0x100
  const UINT16_SIZE := 0x1_0000
  const UINT32_SIZE := 0x1_0000_0000

  const HEARTBEAT_INTERVAL := 2000
  const REQUEST_TIMEOUT := 5000
  const WCDPING := 500
  const LIVENESS := 3
  const PARAM_SIZE := 100

  const DEALER_START_PORT := 6000
  const REG_FAIL := 0
}
