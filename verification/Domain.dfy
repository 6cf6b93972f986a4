/** Resources, identifiers and the heartbeat signal that every other module speaks about. */
module Domain {

  type byte = x: nat | x < 256

  const TWO_64 := 0x1_0000_0000_0000_0000
  const TWO_63 := 0x8000_0000_0000_0000

  type int64 = x: int | -TWO_63 <= x < TWO_63

  datatype Option<+T> = None | Some(value: T)

  datatype Result<+T> = Success(value: T) | Failure

  /** A billable resource. Each has a ledger of its own; only active_nodes is a gauge. */
  datatype Resource = CpuHours | MemoryGBHours | ActiveNodes {
    function LedgerId(): nat {
      match this
      case CpuHours => 1
      case MemoryGBHours => 2
      case ActiveNodes => 3
    }

    predicate IsGauge() {
      ActiveNodes?
    }
  }

  const AllResources: seq<Resource> := [CpuHours, MemoryGBHours, ActiveNodes]

  /** A cluster or tenant identity: sixteen bytes when valid. */
  datatype Uuid = Uuid(bytes: seq<byte>) {
    predicate Valid() {
      |bytes| == 16
    }
  }

  /** One parsed heartbeat. A cluster's textual ID and its UUID are one identity here. */
  datatype Heartbeat = Heartbeat(
    cluster: Uuid,
    seqNo: nat,
    cpuMilliseconds: int64,
    memoryMBSeconds: int64,
    activeNodes: int64,
    timestampNs: int64)

  /** The usage a heartbeat reports for a resource. */
  function HeartbeatAmount(hb: Heartbeat, r: Resource): int64 {
    match r
    case CpuHours => hb.cpuMilliseconds
    case MemoryGBHours => hb.memoryMBSeconds
    case ActiveNodes => hb.activeNodes
  }

  /** Go's conversion of an int64 to a uint64: two's complement reinterpretation. */
  function ToUint64(x: int64): (u: nat)
    ensures u < TWO_64 && (u - x) % TWO_64 == 0
    ensures u == 0 <==> x == 0
    ensures 0 <= x ==> u == x
  {
    if x < 0 then x + TWO_64 else x
  }

  /** Go's conversion of a uint64 to an int64. */
  function ToInt64(u: nat): (x: int64)
    requires u < TWO_64
    ensures x >= 0 <==> u < TWO_63
    ensures ToUint64(x) == u
  {
    if u < TWO_63 then u else u - TWO_64
  }
}
