/** Values shared by the components of the daemon. */
module Types {

  datatype Option<+T> = None | Some(value: T)

  datatype TierId = Ram | GpuVram | Disk | Simulation

  datatype TransferPriority = Low | Normal | High | Critical {
    function Value(): nat {
      match this
      case Low => 0
      case Normal => 1
      case High => 2
      case Critical => 3
    }
  }

  /** Chunk ids are compared and ordered, never inspected, so numbers stand in for the hashes. */
  type ChunkId = nat

  /** Subtraction of unsigned times, stopping at zero. */
  function SaturatingSub(a: nat, b: nat): nat {
    if a < b then 0 else a - b
  }

  /** System pressure; the fractions are exact numbers here. */
  datatype PressureState = PressureState(
    memoryPressure: real,
    vramPressure: real,
    ioPressure: real,
    queueDepth: nat,
    throughputBps: nat)
  {
    function MaxPressure(): real {
      Max(Max(memoryPressure, vramPressure), ioPressure)
    }
  }

  function Max(a: real, b: real): real {
    if a < b then b else a
  }
}
