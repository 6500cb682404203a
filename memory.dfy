/**
 * `getPhysicalMemory`: the installed memory in bytes, clamped to a ceiling,
 * 0 when it cannot be determined. The build-time platform choice is a
 * parameter; the `sysconf` and `sysctl` answers are inputs.
 */
module Memory {
  import opened Types

  const TwoTo32: nat := 0x1_0000_0000
  const TwoTo64: nat := 0x1_0000_0000_0000_0000

  /** The `sysctl` key selecting total physical memory on each BSD family member. */
  datatype SysctlKey =
    | HwMemsize     // macOS, read into a 64-bit variable
    | HwPhysmem64   // NetBSD, OpenBSD, 64-bit
    | HwRealmem     // FreeBSD, read into a 32-bit `unsigned int`
    | HwPhysmem     // DragonFly BSD, 32-bit

  /** Whether the key's answer is read into a 64-bit variable (otherwise a 32-bit `unsigned int`). */
  predicate Wide64(key: SysctlKey)
  {
    key == HwMemsize || key == HwPhysmem64
  }

  type Uint64 = x: nat | x < TwoTo64
  type Uint32 = x: nat | x < TwoTo32

  /** Which mechanism the preprocessor selected. */
  datatype MemoryBuild =
    | NoSysctl                                     // NOSYSCTL defined
    | Linux(hasSysconf: bool)                      // _SC_PHYS_PAGES and _SC_PAGESIZE defined
    | Bsd(hasCtlHw: bool, key: Option<SysctlKey>)  // CTL_HW defined; the first key defined

  /**
   * The answers of the operating system: the two `sysconf` results (`long`,
   * -1 on error) and, per key, the value `sysctl` stores in a variable of
   * the key's width (`sysctl64` for the 64-bit keys, `sysctl32` for the
   * others), or None when it returns non-zero.
   */
  datatype MemoryReadings = MemoryReadings(
    physPages: int,
    pageSize: int,
    sysctl64: SysctlKey -> Option<Uint64>,
    sysctl32: SysctlKey -> Option<Uint32>)

  /** The answer `sysctl` gives for `key`, in the key's width. */
  function SysctlAnswer(readings: MemoryReadings, key: SysctlKey): (r: Option<nat>)
    ensures r.Some? ==> r.value < (if Wide64(key) then TwoTo64 else TwoTo32)
    ensures r.None? <==> if Wide64(key) then readings.sysctl64(key).None? else readings.sysctl32(key).None?
  {
    if Wide64(key) then
      match readings.sysctl64(key) case None => None case Some(v) => Some(v as nat)
    else
      match readings.sysctl32(key) case None => None case Some(v) => Some(v as nat)
  }

  /** Conversion of a signed value to `std::uint64_t` (two's complement wrap-around). */
  function ToUint64(x: int): (r: nat)
    ensures r < TwoTo64
    ensures 0 <= x < TwoTo64 ==> r == x
    ensures -(TwoTo64 as int) <= x < 0 ==> r == x + TwoTo64
  {
    x % TwoTo64
  }

  /** The value held in `size` just before the clamp, or None where the routine returns 0. */
  function Reading(build: MemoryBuild, readings: MemoryReadings): (r: Option<nat>)
    ensures r.Some? ==> r.value < TwoTo64
  {
    match build
    case NoSysctl => None
    case Linux(hasSysconf) =>
      if hasSysconf then Some(ToUint64(ToUint64(readings.physPages) * ToUint64(readings.pageSize)))
      else None
    case Bsd(hasCtlHw, key) =>
      if !hasCtlHw || key.None? then None
      else SysctlAnswer(readings, key.value)
  }

  /** `getPhysicalMemory` with `MaximumMemory` as the parameter `maximum`. */
  function PhysicalMemory(build: MemoryBuild, readings: MemoryReadings, maximum: nat): (r: nat)
    ensures r <= maximum
    ensures Reading(build, readings).Some? && Reading(build, readings).value <= maximum ==>
              r == Reading(build, readings).value
    ensures Reading(build, readings).Some? && Reading(build, readings).value > maximum ==> r == maximum
    ensures Reading(build, readings).None? ==> r == 0
  {
    match Reading(build, readings)
    case None => 0
    case Some(size) => if size > maximum then maximum else size
  }

  /** Without a query mechanism, or when `sysctl` fails, the answer is 0. */
  lemma PhysicalMemoryUndetermined(build: MemoryBuild, readings: MemoryReadings, maximum: nat)
    requires || build.NoSysctl?
             || build == Linux(false)
             || (build.Bsd? && (!build.hasCtlHw || build.key.None?))
             || (build.Bsd? && build.hasCtlHw && build.key.Some? && SysctlAnswer(readings, build.key.value).None?)
    ensures PhysicalMemory(build, readings, maximum) == 0
  {
  }

  /** On Linux, a page count times page size below the ceiling is reported exactly. */
  lemma {:induction false} LinuxReportsProduct(readings: MemoryReadings, maximum: nat)
    requires 0 <= readings.physPages && 0 <= readings.pageSize
    requires readings.physPages * readings.pageSize <= maximum && maximum < TwoTo64
    ensures PhysicalMemory(Linux(true), readings, maximum) == readings.physPages * readings.pageSize
  {
    var p, s := readings.physPages, readings.pageSize;
    if s == 0 {
      assert ToUint64(s) == 0;
      assert ToUint64(p) * ToUint64(s) == 0;
    } else if p == 0 {
      assert ToUint64(p) == 0;
      assert ToUint64(p) * ToUint64(s) == 0;
    } else {
      assert p <= p * s by { assert p * s == p * (s - 1) + p; assert p * (s - 1) >= 0; }
      assert s <= p * s by { assert p * s == (p - 1) * s + s; assert (p - 1) * s >= 0; }
      assert ToUint64(p) == p && ToUint64(s) == s;
    }
  }

  /**
   * A failing `sysconf(_SC_PHYS_PAGES)` (-1) is not reported as 0: it wraps
   * to 2^64 - pageSize and is clamped to the ceiling.
   */
  lemma {:induction false} LinuxSysconfFailureReportsCeiling(readings: MemoryReadings, maximum: nat)
    requires readings.physPages == -1 && 0 < readings.pageSize < TwoTo64
    requires maximum < TwoTo64 - readings.pageSize
    ensures PhysicalMemory(Linux(true), readings, maximum) == maximum
  {
  }

  /**
   * With the FreeBSD or DragonFly key the answer is held in an `unsigned
   * int`, so the result is that answer up to the ceiling, and below 2^32.
   */
  lemma ThirtyTwoBitKeyBelow2To32(key: SysctlKey, readings: MemoryReadings, maximum: nat)
    requires key == HwRealmem || key == HwPhysmem
    requires readings.sysctl32(key).Some?
    ensures var v := readings.sysctl32(key).value;
      PhysicalMemory(Bsd(true, Some(key)), readings, maximum) == if v > maximum then maximum else v
    ensures PhysicalMemory(Bsd(true, Some(key)), readings, maximum) < TwoTo32
  {
  }
}
