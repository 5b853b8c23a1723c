/** One pass of the monitoring loop in `buildGui` (performancemonitor.py:117-289):
    collect and sort the processes, list the top rows, compute the CPU
    percentage, convert the memory figures to GB, then run the CPU branch and
    the RAM branch of the peak-tracking decision and write the log records
    they call for. The loop's two locals `cpuhighestrecorded` and
    `ramhighestrecorded` become the fields of a `MonitorLoop` object. */
module Monitor {
  import opened Ranking
  import opened Aggregator
  import opened PeakTracker

  /** `HardwareId` values of the log records (l.248, l.281). */
  const CpuHardwareId: nat := 1
  const RamHardwareId: nat := 2

  /** `>> 30`: one GB is 2^30 bytes (l.219-221). */
  const BytesPerGigabyte: nat := 0x4000_0000

  function ToGigabytes(bytes: nat): (gb: nat)
    ensures gb * BytesPerGigabyte <= bytes < (gb + 1) * BytesPerGigabyte
  {
    bytes / BytesPerGigabyte
  }

  /** What `virtual_memory()` reports: a percentage and three byte counts. */
  datatype MemoryReading = MemoryReading(percent: real, total: nat, used: nat, available: nat)

  /** A row inserted into `PerformanceLogs` (l.247-249, l.280-282). */
  datatype LogRecord = LogRecord(
    hardwareId: nat, usagePercent: real,
    physicalCores: nat, logicalCores: nat,
    totalMemory: nat, usedMemory: nat, availableMemory: nat,
    deviceName: string)

  /** The part of a log record the decision fixes: which metric, which value. */
  datatype Entry = Entry(hardwareId: nat, usage: real)

  /** The peaks after one tick and which of the two records are written. */
  datatype Decision = Decision(cpuHighest: real, ramHighest: real, logCpu: bool, logRam: bool)

  /** The decision as the source writes it: the CPU branch is the tracker step
      (l.229-250); the RAM branch tests the RAM reading against 75 but then
      compares and updates the CPU peak with the CPU reading (l.262-283). */
  function DecideAsWritten(cpuHighest: real, ramHighest: real, cpu: real, ram: real): Decision
  {
    var c := Step(cpuHighest, cpu);
    if ram < Threshold then Decision(c.peak, 0.0, c.emit, false)
    else
      var r := Observe(c.peak, cpu);
      Decision(r.peak, ramHighest, c.emit, r.emit)
  }

  /** The decision the header comment (l.8-10) and the RAM branch's own
      comments (l.273, l.276) describe: each metric runs its own tracker on
      its own reading. */
  function DecidePerMetric(cpuHighest: real, ramHighest: real, cpu: real, ram: real): Decision
  {
    var c := Step(cpuHighest, cpu);
    var r := Step(ramHighest, ram);
    Decision(c.peak, r.peak, c.emit, r.emit)
  }

  /** The records a decision writes, CPU first as in the source. */
  function Entries(d: Decision, cpu: real, ram: real): seq<Entry>
  {
    (if d.logCpu then [Entry(CpuHardwareId, cpu)] else [])
    + (if d.logRam then [Entry(RamHardwareId, ram)] else [])
  }

  /** Completes the entries with the host figures every record carries. */
  function Stamp(entries: seq<Entry>, physicalCores: nat, logicalCores: nat,
                 totalMemory: nat, usedMemory: nat, availableMemory: nat, deviceName: string): seq<LogRecord>
  {
    seq(|entries|, i requires 0 <= i < |entries| =>
      LogRecord(entries[i].hardwareId, entries[i].usage, physicalCores, logicalCores,
                totalMemory, usedMemory, availableMemory, deviceName))
  }

  /** The state the monitoring loop keeps from one pass to the next. */
  class MonitorLoop {
    var cpuHighest: real
    var ramHighest: real

    /** The CPU peak is never negative; the RAM peak is only ever reset, so
        it stays 0. This is the object form of `RamHighestStaysZero`: every
        `Tick` keeps it, so after any number of passes the RAM peak is 0. */
    ghost predicate Valid()
      reads this
    {
      cpuHighest >= 0.0 && ramHighest == 0.0
    }

    /** l.120-121. */
    constructor ()
      ensures Valid()
      ensures cpuHighest == 0.0 && ramHighest == 0.0
    {
      cpuHighest := 0.0;
      ramHighest := 0.0;
    }

    /** One pass of the loop exactly as written (l.210-283). `processes` is
        what the process enumeration collected, unsorted; the core counts,
        the memory reading and the device name are passed in. Returns the
        listed rows, the CPU percentage and the records inserted. */
    method Tick(processes: seq<Proc>, physicalCores: nat, logicalCores: nat,
                memory: MemoryReading, deviceName: string)
      returns (rows: seq<Row>, cpuPercent: real, logs: seq<LogRecord>)
      requires Valid()
      requires logicalCores > 0
      modifies this
      ensures Valid()
      ensures rows == TopRows(SortByCpu(processes), logicalCores)
      ensures cpuPercent == Usage(SortByCpu(processes), logicalCores)
      ensures var d := DecideAsWritten(old(cpuHighest), old(ramHighest), cpuPercent, memory.percent);
              cpuHighest == d.cpuHighest && ramHighest == d.ramHighest
              && logs == Stamp(Entries(d, cpuPercent, memory.percent), physicalCores, logicalCores,
                               ToGigabytes(memory.total), ToGigabytes(memory.used),
                               ToGigabytes(memory.available), deviceName)
    {
      var sorted := SortByCpu(processes);
      rows := Top20(sorted, logicalCores);
      cpuPercent := CPUUsage(sorted, logicalCores);
      var ramPercent := memory.percent;
      var ramTotal := ToGigabytes(memory.total);
      var ramUsed := ToGigabytes(memory.used);
      var ramAvailable := ToGigabytes(memory.available);
      ghost var d := DecideAsWritten(cpuHighest, ramHighest, cpuPercent, ramPercent);
      var entries: seq<Entry> := [];

      if cpuPercent < Threshold {
        cpuHighest := 0.0;
      } else {
        if cpuPercent > cpuHighest {
          cpuHighest := cpuPercent;
          entries := entries + [Entry(CpuHardwareId, cpuPercent)];
        }
      }

      if ramPercent < Threshold {
        ramHighest := 0.0;
      } else {
        if cpuPercent > cpuHighest {
          cpuHighest := cpuPercent;
          entries := entries + [Entry(RamHardwareId, ramPercent)];
        }
      }

      assert entries == Entries(d, cpuPercent, ramPercent);
      logs := Stamp(entries, physicalCores, logicalCores, ramTotal, ramUsed, ramAvailable, deviceName);
    }

    /** The same pass with each metric tracked on its own reading and peak. */
    method TickPerMetric(processes: seq<Proc>, physicalCores: nat, logicalCores: nat,
                         memory: MemoryReading, deviceName: string)
      returns (rows: seq<Row>, cpuPercent: real, logs: seq<LogRecord>)
      requires logicalCores > 0
      modifies this
      ensures rows == TopRows(SortByCpu(processes), logicalCores)
      ensures cpuPercent == Usage(SortByCpu(processes), logicalCores)
      ensures var d := DecidePerMetric(old(cpuHighest), old(ramHighest), cpuPercent, memory.percent);
              cpuHighest == d.cpuHighest && ramHighest == d.ramHighest
              && logs == Stamp(Entries(d, cpuPercent, memory.percent), physicalCores, logicalCores,
                               ToGigabytes(memory.total), ToGigabytes(memory.used),
                               ToGigabytes(memory.available), deviceName)
    {
      var sorted := SortByCpu(processes);
      rows := Top20(sorted, logicalCores);
      cpuPercent := CPUUsage(sorted, logicalCores);
      var ramPercent := memory.percent;
      var c := Step(cpuHighest, cpuPercent);
      var r := Step(ramHighest, ramPercent);
      cpuHighest, ramHighest := c.peak, r.peak;
      var entries := (if c.emit then [Entry(CpuHardwareId, cpuPercent)] else [])
                     + (if r.emit then [Entry(RamHardwareId, ramPercent)] else []);
      logs := Stamp(entries, physicalCores, logicalCores, ToGigabytes(memory.total),
                    ToGigabytes(memory.used), ToGigabytes(memory.available), deviceName);
    }
  }

  // ---------------------------------------------------------------------------
  // One tick

  /** As written, a RAM record is inserted exactly when RAM is at or above 75
      and CPU is above 0 but below 75, whatever the recorded peaks; it then
      sets the CPU peak to the CPU reading. */
  lemma RamLogAsWritten(cpuHighest: real, ramHighest: real, cpu: real, ram: real)
    ensures DecideAsWritten(cpuHighest, ramHighest, cpu, ram).logRam <==> ram >= Threshold && 0.0 < cpu < Threshold
    ensures DecideAsWritten(cpuHighest, ramHighest, cpu, ram).logRam ==>
              DecideAsWritten(cpuHighest, ramHighest, cpu, ram).cpuHighest == cpu
    ensures DecideAsWritten(cpuHighest, ramHighest, cpu, ram).logCpu == Step(cpuHighest, cpu).emit
  {
  }

  /** Corrected, the RAM decision is the tracker step on the RAM reading and
      RAM peak alone, whatever the CPU does. */
  lemma RamLogPerMetric(cpuHighest: real, ramHighest: real, cpu: real, ram: real, cpu': real, cpuHighest': real)
    ensures DecidePerMetric(cpuHighest, ramHighest, cpu, ram).logRam <==> ram >= Threshold && ram > ramHighest
    ensures DecidePerMetric(cpuHighest, ramHighest, cpu, ram).logRam == DecidePerMetric(cpuHighest', ramHighest, cpu', ram).logRam
    ensures DecidePerMetric(cpuHighest, ramHighest, cpu, ram).ramHighest == DecidePerMetric(cpuHighest', ramHighest, cpu', ram).ramHighest
  {
  }

  // ---------------------------------------------------------------------------
  // Successive ticks

  datatype Sample = Sample(cpu: real, ram: real)

  datatype History = History(cpuHighest: real, ramHighest: real, logged: seq<Entry>)

  function RunAsWritten(cpuHighest: real, ramHighest: real, samples: seq<Sample>): History
    decreases samples
  {
    if samples == [] then History(cpuHighest, ramHighest, [])
    else
      var d := DecideAsWritten(cpuHighest, ramHighest, samples[0].cpu, samples[0].ram);
      var rest := RunAsWritten(d.cpuHighest, d.ramHighest, samples[1..]);
      History(rest.cpuHighest, rest.ramHighest, Entries(d, samples[0].cpu, samples[0].ram) + rest.logged)
  }

  function RunPerMetric(cpuHighest: real, ramHighest: real, samples: seq<Sample>): History
    decreases samples
  {
    if samples == [] then History(cpuHighest, ramHighest, [])
    else
      var d := DecidePerMetric(cpuHighest, ramHighest, samples[0].cpu, samples[0].ram);
      var rest := RunPerMetric(d.cpuHighest, d.ramHighest, samples[1..]);
      History(rest.cpuHighest, rest.ramHighest, Entries(d, samples[0].cpu, samples[0].ram) + rest.logged)
  }

  /** The usage values of the entries for one metric, in order. */
  function Usages(entries: seq<Entry>, hardwareId: nat): seq<real>
  {
    if entries == [] then []
    else (if entries[0].hardwareId == hardwareId then [entries[0].usage] else []) + Usages(entries[1..], hardwareId)
  }

  function CpuReadings(samples: seq<Sample>): seq<real>
  {
    seq(|samples|, i requires 0 <= i < |samples| => samples[i].cpu)
  }

  function RamReadings(samples: seq<Sample>): seq<real>
  {
    seq(|samples|, i requires 0 <= i < |samples| => samples[i].ram)
  }

  /** The RAM readings that, as written, get a record: RAM at or above 75
      while CPU is strictly between 0 and 75. */
  function FiringRam(samples: seq<Sample>): seq<real>
  {
    if samples == [] then []
    else
      var s := samples[0];
      (if s.ram >= Threshold && 0.0 < s.cpu < Threshold then [s.ram] else []) + FiringRam(samples[1..])
  }

  lemma {:induction false} UsagesAppend(a: seq<Entry>, b: seq<Entry>, hardwareId: nat)
    ensures Usages(a + b, hardwareId) == Usages(a, hardwareId) + Usages(b, hardwareId)
  {
    if a == [] {
      assert a + b == b;
    } else {
      assert (a + b)[0] == a[0];
      assert (a + b)[1..] == a[1..] + b;
      UsagesAppend(a[1..], b, hardwareId);
    }
  }

  lemma EntriesUsages(d: Decision, cpu: real, ram: real)
    ensures Usages(Entries(d, cpu, ram), CpuHardwareId) == (if d.logCpu then [cpu] else [])
    ensures Usages(Entries(d, cpu, ram), RamHardwareId) == (if d.logRam then [ram] else [])
  {
    var a := if d.logCpu then [Entry(CpuHardwareId, cpu)] else [];
    var b := if d.logRam then [Entry(RamHardwareId, ram)] else [];
    UsagesAppend(a, b, CpuHardwareId);
    UsagesAppend(a, b, RamHardwareId);
  }

  /** Corrected, each metric's records are exactly what its own tracker logs
      over its own readings, so every property of the tracker holds for CPU
      and RAM separately. */
  lemma {:induction false} PerMetricIsTwoTrackers(cpuHighest: real, ramHighest: real, samples: seq<Sample>)
    ensures Usages(RunPerMetric(cpuHighest, ramHighest, samples).logged, CpuHardwareId)
            == Run(cpuHighest, CpuReadings(samples)).logged
    ensures Usages(RunPerMetric(cpuHighest, ramHighest, samples).logged, RamHardwareId)
            == Run(ramHighest, RamReadings(samples)).logged
    ensures RunPerMetric(cpuHighest, ramHighest, samples).cpuHighest == Run(cpuHighest, CpuReadings(samples)).peak
    ensures RunPerMetric(cpuHighest, ramHighest, samples).ramHighest == Run(ramHighest, RamReadings(samples)).peak
    decreases samples
  {
    if samples != [] {
      var s := samples[0];
      var d := DecidePerMetric(cpuHighest, ramHighest, s.cpu, s.ram);
      PerMetricIsTwoTrackers(d.cpuHighest, d.ramHighest, samples[1..]);
      var rest := RunPerMetric(d.cpuHighest, d.ramHighest, samples[1..]);
      UsagesAppend(Entries(d, s.cpu, s.ram), rest.logged, CpuHardwareId);
      UsagesAppend(Entries(d, s.cpu, s.ram), rest.logged, RamHardwareId);
      EntriesUsages(d, s.cpu, s.ram);
      assert CpuReadings(samples)[1..] == CpuReadings(samples[1..]);
      assert RamReadings(samples)[1..] == RamReadings(samples[1..]);
    }
  }

  /** A CPU peak that, as written, may differ from the tracker's only by the
      RAM branch having stored a sub-threshold CPU reading over a reset. */
  predicate Shadows(written: real, tracked: real)
  {
    written == tracked || (tracked == 0.0 && 0.0 < written < Threshold)
  }

  /** As written, the CPU records are still exactly what the tracker logs over
      the CPU readings: the RAM branch only ever stores a CPU reading below
      75, which the next CPU reading either resets or beats. */
  lemma {:induction false} CpuLogsAsWritten(cpuHighest: real, tracked: real, ramHighest: real, samples: seq<Sample>)
    requires Shadows(cpuHighest, tracked)
    ensures Usages(RunAsWritten(cpuHighest, ramHighest, samples).logged, CpuHardwareId)
            == Run(tracked, CpuReadings(samples)).logged
    ensures Shadows(RunAsWritten(cpuHighest, ramHighest, samples).cpuHighest, Run(tracked, CpuReadings(samples)).peak)
    decreases samples
  {
    if samples != [] {
      var s := samples[0];
      var d := DecideAsWritten(cpuHighest, ramHighest, s.cpu, s.ram);
      var o := Step(tracked, s.cpu);
      assert Step(cpuHighest, s.cpu) == o;
      assert Shadows(d.cpuHighest, o.peak);
      CpuLogsAsWritten(d.cpuHighest, o.peak, d.ramHighest, samples[1..]);
      var rest := RunAsWritten(d.cpuHighest, d.ramHighest, samples[1..]);
      UsagesAppend(Entries(d, s.cpu, s.ram), rest.logged, CpuHardwareId);
      EntriesUsages(d, s.cpu, s.ram);
      assert CpuReadings(samples)[1..] == CpuReadings(samples[1..]);
    }
  }

  /** As written, the RAM records do not depend on any recorded peak: every
      tick with RAM at or above 75 and CPU strictly between 0 and 75 writes
      one, and no other tick does. */
  lemma {:induction false} RamLogsAsWritten(cpuHighest: real, ramHighest: real, samples: seq<Sample>)
    ensures Usages(RunAsWritten(cpuHighest, ramHighest, samples).logged, RamHardwareId) == FiringRam(samples)
    decreases samples
  {
    if samples != [] {
      var s := samples[0];
      var d := DecideAsWritten(cpuHighest, ramHighest, s.cpu, s.ram);
      RamLogsAsWritten(d.cpuHighest, d.ramHighest, samples[1..]);
      var rest := RunAsWritten(d.cpuHighest, d.ramHighest, samples[1..]);
      UsagesAppend(Entries(d, s.cpu, s.ram), rest.logged, RamHardwareId);
      EntriesUsages(d, s.cpu, s.ram);
      RamLogAsWritten(cpuHighest, ramHighest, s.cpu, s.ram);
    }
  }

  /** As written, `ramhighestrecorded` is 0 forever once it is 0. */
  lemma {:induction false} RamHighestStaysZero(cpuHighest: real, samples: seq<Sample>)
    ensures RunAsWritten(cpuHighest, 0.0, samples).ramHighest == 0.0
    decreases samples
  {
    if samples != [] {
      var d := DecideAsWritten(cpuHighest, 0.0, samples[0].cpu, samples[0].ram);
      RamHighestStaysZero(d.cpuHighest, samples[1..]);
    }
  }

  /** CPU steady at 50%, RAM steady at 80%: as written a RAM record is
      inserted on every tick, while per-metric tracking inserts one. */
  lemma RamFloodAsWritten()
    ensures RunAsWritten(0.0, 0.0, [Sample(50.0, 80.0), Sample(50.0, 80.0), Sample(50.0, 80.0)]).logged
            == [Entry(RamHardwareId, 80.0), Entry(RamHardwareId, 80.0), Entry(RamHardwareId, 80.0)]
    ensures RunPerMetric(0.0, 0.0, [Sample(50.0, 80.0), Sample(50.0, 80.0), Sample(50.0, 80.0)]).logged
            == [Entry(RamHardwareId, 80.0)]
  {
  }

  /** CPU at 80%, RAM at 90% from a fresh start: as written only the CPU
      record is inserted and the RAM episode is never logged. */
  lemma RamMissedAsWritten()
    ensures RunAsWritten(0.0, 0.0, [Sample(80.0, 90.0)]).logged == [Entry(CpuHardwareId, 80.0)]
    ensures RunPerMetric(0.0, 0.0, [Sample(80.0, 90.0)]).logged
            == [Entry(CpuHardwareId, 80.0), Entry(RamHardwareId, 90.0)]
  {
  }
}
