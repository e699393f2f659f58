/** The records shared by the control plane and the packet program. */
module XdpTypes {

  const U32: int := 0x1_0000_0000
  const U64: int := 0x1_0000_0000_0000_0000

  const IPPROTO_TCP: nat := 6
  const IPPROTO_UDP: nat := 17

  /** Nanoseconds of the monotonic clock. */
  type Time = t: int | 0 <= t < U64

  /** Unsigned 64-bit subtraction. */
  function Since(now: Time, start: Time): Time {
    if now >= start then now - start else now - start + U64
  }

  datatype Option<+T> = None | Some(value: T)

  /** A real server. An IPv4 and an IPv6 address are both carried as their numeric value. */
  datatype Backend = Backend(ip: nat, ipVersion: nat, port: nat, mac: nat, active: bool, weight: nat)

  datatype ServiceKey = ServiceKey(vip: nat, ipVersion: nat, port: nat, protocol: nat)

  datatype Algorithm = RoundRobin | WeightedRoundRobin | ConsistentHashing | Unknown

  datatype ServiceInfo = ServiceInfo(backendCount: nat, backendStart: nat, algorithm: Algorithm, serviceIdx: nat)

  /** One side of the double-buffered configuration. */
  datatype Bank = Bank(services: map<ServiceKey, ServiceInfo>, backends: seq<Backend>)
}
