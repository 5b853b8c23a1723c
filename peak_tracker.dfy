/** The peak-tracking decision of the monitoring loop (performancemonitor.py:229-250):
    a reading below 75 resets the recorded peak to 0; a reading at or above 75
    is logged only when it strictly exceeds the recorded peak, which it then
    becomes. This module states the step once, as the CPU branch writes it,
    and what a sequence of steps does. */
module PeakTracker {

  /** The 75% threshold of both branches (`if cpupercent < 75`). */
  const Threshold: real := 75.0

  /** The new recorded peak, and whether a log record is written. */
  datatype Outcome = Outcome(peak: real, emit: bool)

  /** The branch taken at or above the threshold (l.241-244): a new peak is
      recorded and logged, anything else is ignored. */
  function Observe(peak: real, reading: real): Outcome
  {
    if reading > peak then Outcome(reading, true) else Outcome(peak, false)
  }

  /** One tick of the CPU branch (l.229-250). */
  function Step(peak: real, reading: real): Outcome
  {
    if reading < Threshold then Outcome(0.0, false) else Observe(peak, reading)
  }

  /** A peak that is either reset or a reading at or above the threshold. */
  predicate PeakShape(peak: real)
  {
    peak == 0.0 || peak >= Threshold
  }

  // ---------------------------------------------------------------------------
  // One step

  /** Below the threshold nothing is logged and the peak is forgotten. */
  lemma StepBelow(peak: real, reading: real)
    requires reading < Threshold
    ensures !Step(peak, reading).emit && Step(peak, reading).peak == 0.0
  {
  }

  /** At or above the threshold a log is written exactly when the reading
      beats the recorded peak; the peak becomes the larger of the two. */
  lemma StepAbove(peak: real, reading: real)
    requires reading >= Threshold
    ensures Step(peak, reading).emit <==> reading > peak
    ensures Step(peak, reading).peak >= peak && Step(peak, reading).peak >= reading
    ensures Step(peak, reading).peak == peak || Step(peak, reading).peak == reading
  {
  }

  /** The first reading at or above the threshold after a reset is logged.
      This holds for any peak below the threshold, not only 0: the RAM branch
      of the loop can leave a CPU reading below 75 behind as the CPU peak. */
  lemma StepAfterReset(peak: real, reading: real)
    requires reading >= Threshold && peak < Threshold
    ensures Step(peak, reading) == Outcome(reading, true)
  {
  }

  /** After the branch the peak is 0 or at least 75, whatever peak it
      started from. */
  lemma StepKeepsShape(peak: real, reading: real)
    ensures PeakShape(Step(peak, reading).peak)
  {
  }

  // ---------------------------------------------------------------------------
  // A run of ticks

  datatype Trace = Trace(peak: real, logged: seq<real>)

  /** The readings logged over successive ticks, and the peak left behind. */
  function Run(peak: real, readings: seq<real>): Trace
    decreases readings
  {
    if readings == [] then Trace(peak, [])
    else
      var o := Step(peak, readings[0]);
      var rest := Run(o.peak, readings[1..]);
      Trace(rest.peak, (if o.emit then [readings[0]] else []) + rest.logged)
  }

  ghost predicate StrictlyIncreasing(s: seq<real>)
  {
    forall i, j :: 0 <= i < j < |s| ==> s[i] < s[j]
  }

  /** Whatever the readings and the starting peak, only readings at or above
      the threshold are logged, each one at most once per tick, and after at
      least one tick the peak has its shape (a starting peak that already has
      it keeps it). */
  lemma {:induction false} RunLogsOnlyHighReadings(peak: real, readings: seq<real>)
    ensures |Run(peak, readings).logged| <= |readings|
    ensures forall e :: e in Run(peak, readings).logged ==> e in readings && e >= Threshold
    ensures readings != [] || PeakShape(peak) ==> PeakShape(Run(peak, readings).peak)
    decreases readings
  {
    if readings != [] {
      RunLogsOnlyHighReadings(Step(peak, readings[0]).peak, readings[1..]);
    }
  }

  /** A run of readings all below the threshold never logs and leaves the
      peak at 0. */
  lemma {:induction false} QuietRun(peak: real, readings: seq<real>)
    requires readings != []
    requires forall i :: 0 <= i < |readings| ==> readings[i] < Threshold
    ensures Run(peak, readings) == Trace(0.0, [])
    decreases readings
  {
    if |readings| > 1 {
      QuietRun(0.0, readings[1..]);
    }
  }

  /** Within one episode (every reading at or above the threshold) the logged
      values strictly increase, all beat the peak the episode started from,
      and the peak ends as the largest value seen. */
  lemma {:induction false} EpisodeLogsIncrease(peak: real, readings: seq<real>)
    requires forall i :: 0 <= i < |readings| ==> readings[i] >= Threshold
    ensures StrictlyIncreasing(Run(peak, readings).logged)
    ensures forall e :: e in Run(peak, readings).logged ==> e > peak
    ensures Run(peak, readings).peak >= peak
    ensures forall i :: 0 <= i < |readings| ==> readings[i] <= Run(peak, readings).peak
    ensures Run(peak, readings).logged != [] ==>
              Run(peak, readings).peak == Run(peak, readings).logged[|Run(peak, readings).logged| - 1]
    ensures Run(peak, readings).logged == [] ==> Run(peak, readings).peak == peak
    decreases readings
  {
    if readings != [] {
      var o := Step(peak, readings[0]);
      EpisodeLogsIncrease(o.peak, readings[1..]);
      var rest := Run(o.peak, readings[1..]);
      forall i | 1 <= i < |readings| ensures readings[i] <= rest.peak {
        assert readings[i] == readings[1..][i - 1];
      }
      if o.emit {
        var logged := [readings[0]] + rest.logged;
        assert Run(peak, readings).logged == logged;
        forall i, j | 0 <= i < j < |logged| ensures logged[i] < logged[j] {
          assert logged[j] == rest.logged[j - 1] && logged[j] in rest.logged;
          if i > 0 {
            assert logged[i] == rest.logged[i - 1];
          }
        }
      } else {
        assert Run(peak, readings).logged == rest.logged;
      }
    }
  }

  /** Readings that keep rising above the threshold, starting above the
      recorded peak, are logged every one. */
  lemma {:induction false} RisingEpisodeLogsAll(peak: real, readings: seq<real>)
    requires forall i :: 0 <= i < |readings| ==> readings[i] >= Threshold
    requires StrictlyIncreasing(readings)
    requires readings != [] ==> readings[0] > peak
    ensures Run(peak, readings).logged == readings
    decreases readings
  {
    if readings != [] {
      assert readings == [readings[0]] + readings[1..];
      RisingEpisodeLogsAll(readings[0], readings[1..]);
    }
  }

  /** Readings at or above the threshold that never beat the recorded peak
      log nothing and leave the peak as it was. */
  lemma {:induction false} FlatEpisodeLogsNothing(peak: real, readings: seq<real>)
    requires forall i :: 0 <= i < |readings| ==> Threshold <= readings[i] <= peak
    ensures Run(peak, readings) == Trace(peak, [])
    decreases readings
  {
    if readings != [] {
      FlatEpisodeLogsNothing(peak, readings[1..]);
    }
  }

  /** 60, 80, 95, 70 from a reset: 80 and 95 are logged, then the drop
      resets the peak. */
  lemma ScenarioRiseThenDrop()
    ensures Run(0.0, [60.0, 80.0, 95.0, 70.0]) == Trace(0.0, [80.0, 95.0])
  {
  }

  /** 90, 90, 50, 90 from a reset: the repeat is ignored, the dip resets the
      peak and the next 90 is logged again. */
  lemma ScenarioReentry()
    ensures Run(0.0, [90.0, 90.0, 50.0, 90.0]) == Trace(90.0, [90.0, 90.0])
  {
  }
}
