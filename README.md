# Performance Monitor: sampling and peak-logging decisions

A Dafny model of the decision core of `performancemonitor.py`, a desktop
monitor that samples CPU and RAM usage once per loop pass. It logs a record
to a `PerformanceLogs` table when usage reaches 75%. After that first record
it logs again only when usage beats the highest value recorded so far. The
recorded peak resets when usage drops below 75%.

What is modelled:

- `Ranking` (`ranking.dfy`): the process record and the ordering that
  `getAllProcesses` applies to the collected records. This is Python's stable
  `sorted(..., reverse=True)` on `cpu_percent`, written as a stable insertion sort.
- `Aggregator` (`aggregator.dfy`): `getTop20Processes` and `getCPUUsage` as
  `while` loops over the sorted list, each proved against a specification
  function (`TopRows`, `Usage`). The source returns padded strings; the model
  returns `(pid, cpu, name)` rows.
- `PeakTracker` (`peak_tracker.dfy`): the peak step of the CPU branch, stated
  once, and `Run`, which gives the values logged over successive readings.
- `Monitor` (`monitor.dfy`): the `MonitorLoop` class. Its fields are the loop
  locals `cpuhighestrecorded` and `ramhighestrecorded`. `Tick` is one pass of
  the loop exactly as written. `TickPerMetric` is the corrected per-metric pass
  (see Findings). The module also holds the byte-to-GB conversion, and lemmas
  about runs of ticks under both decisions.

Percentages are `real`. The logical core count is a parameter with
`logicalCores > 0` and replaces `psutil.cpu_count()`. The physical core count,
the memory reading, the device name and the collected process list are also
parameters.

Two places where the code and its own comments point different ways; the
model follows the code:

- `getTop20Processes` is commented "Run for 20 iterations" (l.67) and
  "Return list of top 20 processes" (l.86), and `getCPUUsage` "Use only top
  20 processes" (l.96), but both loops run `while index <= 20`. They inspect
  indices 0..20, which is 21 entries, and skip pid 0 inside that window. So
  up to 21 rows are listed and summed, or 20 when the idle process falls in
  the window.
- The RAM branch compares and updates the CPU peak with the CPU reading,
  while the header comment (l.8-10) and the branch's own comments (l.273,
  l.276) describe RAM being compared with its own peak. `Tick` keeps the
  code's behaviour. The divergence is proved and listed under Findings. One
  consequence is that the CPU peak can enter the CPU branch holding a CPU
  reading below 75 (CPU 50, RAM 80 stores 50 at l.277); the step lemmas of
  `PeakTracker` therefore place no requirement on the entering peak.

The sort key (l.54-55) is the raw `cpu_percent`, not the per-core figure the
rows show. Dividing by a positive core count gives the same order, and
`TopRowsSorted` carries the order over to the rows.

## Model

| member | source | states |
|---|---|---|
| `Ranking.SortByCpu` | performancemonitor.py:55 | The sorted list is a permutation of the collected records, ordered by `cpu_percent` from highest to lowest |
| `Ranking.SortByCpuStable` | performancemonitor.py:55 | The sort is stable: for every CPU value, the records with that value keep their collection order |
| `Aggregator.Top20` | performancemonitor.py:61-87 | The index loop returns exactly `TopRows`: at most 21 rows, none with pid 0 |
| `Aggregator.CPUUsage` | performancemonitor.py:90-114 | The summing loop plus the cap returns exactly `Usage`, the capped total of the listed rows, and never more than 100 |
| `Aggregator.NonIdleRowsShape` | performancemonitor.py:70-81 | Every row is a normalised non-idle entry, and every such entry gives a row. Row count is at most the entry count, and equal to it exactly when no entry has pid 0 |
| `Aggregator.TopRowsShape` | performancemonitor.py:64-87 | The listing holds at most 21 rows, never pid 0. A row appears exactly when it is `cpu_percent / cores` of a non-idle entry among indices 0..20 |
| `Aggregator.TopRows` | performancemonitor.py:61-87 | What `getTop20Processes` lists; no ensures of its own: `TopRowsShape`, `TopRowsCount`, `TopRowsSorted`, `TopRowsIgnoresTail` and `TopRowsIgnoresIdle` carry its contract |
| `Aggregator.Usage` | performancemonitor.py:90-114 | What `getCPUUsage` returns; no ensures of its own: `UsageBounds` and `UsageIgnoresTailAndIdle` carry its contract, and `CPUUsage` is proved equal to it |
| `Aggregator.NonIdleRowsCount` | performancemonitor.py:68-84 | Every inspected entry gives exactly one row unless its pid is 0: rows plus idle entries equal the entries inspected |
| `Aggregator.TopRowsCount` | performancemonitor.py:68-72 | The row count is the window length minus the idle entries in it. With at least 21 entries: 21 rows when none of indices 0..20 is idle, exactly 20 when one is |
| `Aggregator.IdleCountZero` | performancemonitor.py:70-72 | The idle count of the inspected entries is 0 exactly when none of them has pid 0 |
| `Aggregator.NonIdleRowsAppend` | performancemonitor.py:68-84 | Listing keeps input order: the rows of a concatenation are the rows of the first part followed by those of the second |
| `Aggregator.TopRowsSorted` | performancemonitor.py:55-84 | A list sorted highest CPU first yields rows sorted the same way |
| `Aggregator.TopRowsIgnoresTail` | performancemonitor.py:68 | Entries after index 20 never change the listing |
| `Aggregator.TopRowsIgnoresIdle` | performancemonitor.py:70-72 | Replacing an idle entry with any other idle entry, with any CPU figure, leaves the listing unchanged |
| `Aggregator.UsageBounds` | performancemonitor.py:93-111 | The CPU percentage is at most 100. It is at least 0 when every `cpu_percent` is |
| `Aggregator.UsageIgnoresTailAndIdle` | performancemonitor.py:97-104 | Entries after index 20, and the figures of idle entries, never change the CPU percentage |
| `Aggregator.ScenarioIdleExcluded` | performancemonitor.py:64-114 | Idle at 400 and two processes at 50 and 30, on 4 cores, list rows of 12.5 and 7.5 and sum to 20 |
| `PeakTracker.Observe` | performancemonitor.py:241-244 | The branch at or above 75; no ensures of its own: `StepAbove` carries its contract |
| `PeakTracker.Step` | performancemonitor.py:229-250 | One tick of the CPU branch; no ensures of its own: `StepBelow`, `StepAbove`, `StepAfterReset` and `StepKeepsShape` carry its contract |
| `PeakTracker.Run` | performancemonitor.py:146-250 | The CPU branch over successive passes of the loop; no ensures of its own: `RunLogsOnlyHighReadings`, `QuietRun`, `EpisodeLogsIncrease`, `RisingEpisodeLogsAll` and `FlatEpisodeLogsNothing` carry its contract |
| `PeakTracker.StepBelow` | performancemonitor.py:229-232 | A reading below 75 logs nothing and resets the peak to 0 |
| `PeakTracker.StepAbove` | performancemonitor.py:238-244 | A reading of 75 or more logs exactly when it beats the peak; the new peak is the larger of the two |
| `PeakTracker.StepAfterReset` | performancemonitor.py:238-244 | A reading of 75 or more that meets a peak below 75 (0 after a reset, or a sub-75 CPU reading the RAM branch stored) is always logged and becomes the peak |
| `PeakTracker.StepKeepsShape` | performancemonitor.py:229-244 | After the branch, the peak is 0 or at least 75, whatever peak it started from |
| `PeakTracker.RunLogsOnlyHighReadings` | performancemonitor.py:228-250 | Over any run from any peak, only readings of 75 or more are logged, at most one per tick. After at least one tick the peak is 0 or at least 75 |
| `PeakTracker.QuietRun` | performancemonitor.py:229-232 | A run of readings all below 75 logs nothing and leaves the peak at 0 |
| `PeakTracker.EpisodeLogsIncrease` | performancemonitor.py:238-250 | Within an episode at or above 75, logged values strictly increase and all beat the starting peak. The final peak is at least the starting peak and every reading. It equals the last logged value when something was logged, and the starting peak otherwise |
| `PeakTracker.RisingEpisodeLogsAll` | performancemonitor.py:241-250 | Strictly rising readings at or above 75, starting above the peak, are all logged |
| `PeakTracker.FlatEpisodeLogsNothing` | performancemonitor.py:241 | Readings at or above 75 that never beat the peak log nothing and leave the peak as it was |
| `PeakTracker.ScenarioRiseThenDrop` | performancemonitor.py:228-250 | Readings 60, 80, 95, 70 log 80 and 95 and end with the peak reset to 0 |
| `PeakTracker.ScenarioReentry` | performancemonitor.py:228-250 | Readings 90, 90, 50, 90 log 90 twice: the repeat is ignored, and the dip re-arms the tracker |
| `Monitor.ToGigabytes` | performancemonitor.py:219-221 | GB is the byte count floor-divided by 2^30 |
| `Monitor.MonitorLoop.constructor` | performancemonitor.py:120-121 | Both recorded peaks start at 0 |
| `Monitor.MonitorLoop.Tick` | performancemonitor.py:210-283 | One pass as written: rows and CPU percentage of the sorted list, new peaks, and the records inserted. Keeps `Valid()`: the CPU peak is not negative and the RAM peak is 0, the object form of `RamHighestStaysZero` |
| `Monitor.MonitorLoop.TickPerMetric` | performancemonitor.py:8-10 | One pass with each metric running the tracker step on its own reading and its own peak |
| `Monitor.DecideAsWritten` | performancemonitor.py:229-283 | Both branches of one pass as written; no ensures of its own: `RamLogAsWritten` carries its contract, and `Tick` is proved to follow it |
| `Monitor.DecidePerMetric` | performancemonitor.py:8-10 | Both metrics each running the tracker step on their own reading; no ensures of its own: `RamLogPerMetric` carries its contract, and `TickPerMetric` is proved to follow it |
| `Monitor.RunAsWritten` | performancemonitor.py:146-283 | Successive passes as written; no ensures of its own: `CpuLogsAsWritten`, `RamLogsAsWritten` and `RamHighestStaysZero` carry its contract |
| `Monitor.RunPerMetric` | performancemonitor.py:8-10 | Successive passes with per-metric tracking; no ensures of its own: `PerMetricIsTwoTrackers` carries its contract |
| `Monitor.RamLogAsWritten` | performancemonitor.py:262-283 | As written, a RAM record is inserted exactly when RAM is at least 75 and CPU is strictly between 0 and 75. It then sets the CPU peak to the CPU reading. The CPU record is the tracker step |
| `Monitor.RamLogPerMetric` | performancemonitor.py:8-10 | Corrected, RAM logs exactly when RAM is at least 75 and beats the RAM peak, whatever the CPU reading or CPU peak |
| `Monitor.PerMetricIsTwoTrackers` | performancemonitor.py:8-10 | Corrected, each metric's records over any run are exactly what the tracker logs over that metric's own readings. Each final peak is the tracker's |
| `Monitor.CpuLogsAsWritten` | performancemonitor.py:228-283 | As written, the CPU records over any run are still exactly what the tracker logs over the CPU readings, although the RAM branch disturbs the CPU peak |
| `Monitor.RamLogsAsWritten` | performancemonitor.py:262-283 | As written, the RAM records over any run depend on no recorded peak: one for each tick with RAM at least 75 and CPU strictly between 0 and 75 |
| `Monitor.RamHighestStaysZero` | performancemonitor.py:262-265 | As written, a RAM peak of 0 stays 0 over any run |
| `Monitor.RamFloodAsWritten` | performancemonitor.py:274-283 | CPU steady at 50 and RAM steady at 80: as written, a RAM record every tick; corrected, one |
| `Monitor.RamMissedAsWritten` | performancemonitor.py:238-283 | CPU 80 and RAM 90 from a fresh start: as written, only the CPU record; corrected, both |

## Findings

| source | as written | input that shows it | evidently intended | confidence | as-written member | corrected member |
|---|---|---|---|---|---|---|
| performancemonitor.py:274-277 | The RAM branch tests `cpupercent > cpuhighestrecorded` and then sets `cpuhighestrecorded = cpupercent`. RAM logging therefore ignores the RAM level above 75 and any RAM peak | CPU 50%, RAM 80% on three ticks inserts three RAM records. CPU 80%, RAM 90% from a fresh start inserts no RAM record | Each metric is compared with its own peak, as the header comment (l.8-10) and the branch comments (l.273, l.276) say | high; not executed | `Monitor.RamFloodAsWritten` | `Monitor.PerMetricIsTwoTrackers` |

## Left out

- Connecting to the SQL Server database and quitting on failure (l.19-34): network I/O through a foreign driver.
- Enumerating processes through psutil, and skipping processes that vanish or deny access (l.40-52): the collected records are a parameter of `Tick`.
- `psutil.cpu_count`, `psutil.virtual_memory` and the `COMPUTERNAME` variable: external values, passed in as parameters.
- All PySimpleGUI layout, window reads, close handling, colours and label updates (l.128-153, 224-226, 235, 253, 256-259, 268, 286, 289). This includes the "Logical Cores" label showing the physical count (l.226).
- The console export of the `HardwareCode` and `PerformanceLogs` tables (l.156-207): cursor iteration and print formatting.
- The padded-string formatting and `round(cpu, 1)` of the process rows (l.75-81): rows are returned as structured records.
- `cursor.execute` and `connection.commit` (l.249-250, 282-283): a write is modelled as the log record that would be inserted.
- The database timestamp column: it is filled by the database, not by the code.
- The endless `while True` loop itself: `Tick` is one pass, and `RunAsWritten` gives the decisions over a sequence of passes.
- Floating-point rounding and NaN: percentages are exact reals.
- `Monitor.MonitorLoop.TickPerMetric`: does not keep `Valid()`, because that invariant says the RAM peak is always 0, which holds only for the code as written.
