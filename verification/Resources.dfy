/** Resource amounts, and totals of a table's rows. */
module Resources {
  datatype Dimension = Cpu | Memory | Disk

  /** CPU is counted exactly, in hundredths of a core; memory in MB; disk in GB. */
  datatype Resources = Resources(cpu: int, memory: int, disk: int) {
    function Of(d: Dimension): int {
      match d
      case Cpu => cpu
      case Memory => memory
      case Disk => disk
    }

    function Plus(other: Resources): Resources {
      Resources(cpu + other.cpu, memory + other.memory, disk + other.disk)
    }

    function Minus(other: Resources): Resources {
      Resources(cpu - other.cpu, memory - other.memory, disk - other.disk)
    }

    function Negated(): Resources {
      Resources(-cpu, -memory, -disk)
    }

    predicate AtMost(other: Resources) {
      cpu <= other.cpu && memory <= other.memory && disk <= other.disk
    }

    predicate NonNegative() {
      0 <= cpu && 0 <= memory && 0 <= disk
    }
  }

  const ZERO := Resources(0, 0, 0)
}
