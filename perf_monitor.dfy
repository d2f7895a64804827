/**
 * `PerfMonitor::PerfCounters`: the group of hardware counters read from the kernel,
 * and its subtraction operators, which the resource tracker uses to turn two readings
 * into the counts of the interval between them.
 */
module PerfMonitor {

  const TWO_TO_THE_64: int := 0x1_0000_0000_0000_0000

  /** `uint64_t` */
  newtype u64 = x: int | 0 <= x < TWO_TO_THE_64

  /** Unsigned 64-bit subtraction: the result wraps around modulo 2^64. */
  function WrappingSub(a: u64, b: u64): (r: u64)
    ensures (r as int + b as int) % TWO_TO_THE_64 == a as int
    ensures a >= b ==> r as int == a as int - b as int
    ensures a < b ==> r as int == TWO_TO_THE_64 + a as int - b as int
  {
    if a >= b then a - b else ((TWO_TO_THE_64 + a as int - b as int) as u64)
  }

  /** `NUM_HW_EVENTS`: the number of enabled hardware counters. */
  const NUM_HW_EVENTS: u64 := 5

  /** A snapshot of the six fields of `PerfCounters`, in declaration order. */
  datatype Counters = Counters(
    numCounters: u64,
    cpuCycles: u64,
    instructions: u64,
    cacheReferences: u64,
    cacheMisses: u64,
    refCpuCycles: u64)

  /**
   * The value `lhs - rhs` has: each counted field is subtracted modulo 2^64, and
   * `num_counters_` is the left operand's.
   */
  function Difference(lhs: Counters, rhs: Counters): (r: Counters)
    ensures r.numCounters == lhs.numCounters
    ensures (r.cpuCycles as int + rhs.cpuCycles as int) % TWO_TO_THE_64 == lhs.cpuCycles as int
    ensures (r.instructions as int + rhs.instructions as int) % TWO_TO_THE_64 == lhs.instructions as int
    ensures (r.cacheReferences as int + rhs.cacheReferences as int) % TWO_TO_THE_64 == lhs.cacheReferences as int
    ensures (r.cacheMisses as int + rhs.cacheMisses as int) % TWO_TO_THE_64 == lhs.cacheMisses as int
    ensures (r.refCpuCycles as int + rhs.refCpuCycles as int) % TWO_TO_THE_64 == lhs.refCpuCycles as int
  {
    Counters(
      lhs.numCounters,
      WrappingSub(lhs.cpuCycles, rhs.cpuCycles),
      WrappingSub(lhs.instructions, rhs.instructions),
      WrappingSub(lhs.cacheReferences, rhs.cacheReferences),
      WrappingSub(lhs.cacheMisses, rhs.cacheMisses),
      WrappingSub(lhs.refCpuCycles, rhs.refCpuCycles))
  }

  /** Unsigned 64-bit addition, the inverse of `WrappingSub`. */
  function WrappingAdd(a: u64, b: u64): (r: u64)
    ensures r as int == (a as int + b as int) % TWO_TO_THE_64
  {
    ((a as int + b as int) % TWO_TO_THE_64) as u64
  }

  /** Adding the subtrahend back recovers every counted field of the minuend. */
  lemma DifferenceRoundTrip(lhs: Counters, rhs: Counters)
    ensures var d := Difference(lhs, rhs);
      && WrappingAdd(d.cpuCycles, rhs.cpuCycles) == lhs.cpuCycles
      && WrappingAdd(d.instructions, rhs.instructions) == lhs.instructions
      && WrappingAdd(d.cacheReferences, rhs.cacheReferences) == lhs.cacheReferences
      && WrappingAdd(d.cacheMisses, rhs.cacheMisses) == lhs.cacheMisses
      && WrappingAdd(d.refCpuCycles, rhs.refCpuCycles) == lhs.refCpuCycles
  {
  }

  /** `x - x` zeroes the five counted fields and keeps `num_counters_`. */
  lemma SelfDifferenceIsZero(x: Counters)
    ensures Difference(x, x) == Counters(x.numCounters, 0, 0, 0, 0, 0)
  {
  }

  /** The struct itself, updated in place by `-=`. */
  class PerfCounters {
    var numCounters: u64
    var cpuCycles: u64
    var instructions: u64
    var cacheReferences: u64
    var cacheMisses: u64
    var refCpuCycles: u64

    function Value(): Counters
      reads this
    {
      Counters(numCounters, cpuCycles, instructions, cacheReferences, cacheMisses, refCpuCycles)
    }

    /** `PerfCounters counters{}`: value-initialised, every field zero. */
    constructor Zero()
      ensures Value() == Counters(0, 0, 0, 0, 0, 0)
    {
      numCounters, cpuCycles, instructions := 0, 0, 0;
      cacheReferences, cacheMisses, refCpuCycles := 0, 0, 0;
    }

    /** A copy of a snapshot (the by-value parameter of `operator-`). */
    constructor Copy(c: Counters)
      ensures Value() == c
    {
      numCounters, cpuCycles, instructions := c.numCounters, c.cpuCycles, c.instructions;
      cacheReferences, cacheMisses, refCpuCycles := c.cacheReferences, c.cacheMisses, c.refCpuCycles;
    }

    /**
     * `operator-=`: subtracts `rhs` field by field, each field on its own so that
     * `x -= x` (with `rhs` the same object) is well defined; `num_counters_` is left as is.
     */
    method SubtractAssign(rhs: PerfCounters)
      modifies this
      ensures Value() == Difference(old(Value()), old(rhs.Value()))
    {
      cpuCycles := WrappingSub(cpuCycles, rhs.cpuCycles);
      instructions := WrappingSub(instructions, rhs.instructions);
      cacheReferences := WrappingSub(cacheReferences, rhs.cacheReferences);
      cacheMisses := WrappingSub(cacheMisses, rhs.cacheMisses);
      refCpuCycles := WrappingSub(refCpuCycles, rhs.refCpuCycles);
    }
  }

  /** `operator-(PerfCounters lhs, const PerfCounters &rhs)`: `-=` applied to a copy of `lhs`. */
  method Subtract(lhs: PerfCounters, rhs: PerfCounters) returns (r: PerfCounters)
    ensures fresh(r)
    ensures r.Value() == Difference(lhs.Value(), rhs.Value())
    ensures lhs.Value() == old(lhs.Value()) && rhs.Value() == old(rhs.Value())
  {
    r := new PerfCounters.Copy(lhs.Value());
    r.SubtractAssign(rhs);
  }
}
