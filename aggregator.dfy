/** The per-tick aggregation over the sorted process list:
    `getTop20Processes` (performancemonitor.py:61-87) and `getCPUUsage`
    (performancemonitor.py:90-114). Both walk the list with an index that runs
    while `index <= 20`, so they inspect indices 0..20 (21 entries), skip the
    idle process (pid 0) inside that window and divide each `cpu_percent` by
    the logical core count. */
module Aggregator {
  import opened Ranking

  /** A displayed process row: the raw percentage divided by the core count.
      The source renders it as a padded string; the model keeps the fields. */
  datatype Row = Row(pid: int, cpu: real, name: string)

  /** The last index the loops inspect (`while index <= 20`). */
  const LastIndex: nat := 20

  /** The cap applied to the summed CPU percentage. */
  const Cap: real := 100.0

  /** How many leading entries the loops inspect: min(21, |ps|). */
  function WindowLen(ps: seq<Proc>): (n: nat)
    ensures n <= |ps| && n <= LastIndex + 1
    ensures n == |ps| || n == LastIndex + 1
  {
    if |ps| <= LastIndex then |ps| else LastIndex + 1
  }

  function Window(ps: seq<Proc>): seq<Proc>
  {
    ps[..WindowLen(ps)]
  }

  function Normalize(p: Proc, cores: int): Row
    requires cores > 0
  {
    Row(p.pid, p.cpu / cores as real, p.name)
  }

  /** The normalised rows of the non-idle entries of `w`, in order. */
  function NonIdleRows(w: seq<Proc>, cores: int): seq<Row>
    requires cores > 0
  {
    if w == [] then []
    else
      var last := w[|w| - 1];
      NonIdleRows(w[..|w| - 1], cores) + (if last.pid != 0 then [Normalize(last, cores)] else [])
  }

  /** What `getTop20Processes` lists. */
  function TopRows(ps: seq<Proc>, cores: int): seq<Row>
    requires cores > 0
  {
    NonIdleRows(Window(ps), cores)
  }

  function Total(rows: seq<Row>): real
  {
    if rows == [] then 0.0 else Total(rows[..|rows| - 1]) + rows[|rows| - 1].cpu
  }

  /** What `getCPUUsage` returns: the summed rows, capped at 100. */
  function Usage(ps: seq<Proc>, cores: int): real
    requires cores > 0
  {
    var t := Total(TopRows(ps, cores));
    if t > Cap then Cap else t
  }

  ghost predicate RowsSortedDesc(rows: seq<Row>)
  {
    forall i, j :: 0 <= i < j < |rows| ==> rows[i].cpu >= rows[j].cpu
  }

  /** `getTop20Processes`: the index loop over the first 21 entries. */
  method Top20(ps: seq<Proc>, cores: int) returns (rows: seq<Row>)
    requires cores > 0
    ensures rows == TopRows(ps, cores)
    ensures |rows| <= LastIndex + 1
    ensures forall k :: 0 <= k < |rows| ==> rows[k].pid != 0
  {
    rows := [];
    var index := 0;
    while index <= LastIndex && index < |ps|
      invariant 0 <= index <= WindowLen(ps)
      invariant rows == NonIdleRows(ps[..index], cores)
    {
      var p := ps[index];
      if p.pid != 0 {
        rows := rows + [Normalize(p, cores)];
      }
      assert ps[..index + 1][..index] == ps[..index];
      index := index + 1;
    }
    NonIdleRowsShape(Window(ps), cores);
  }

  /** `getCPUUsage`: the same loop, summing instead of listing, then the cap. */
  method CPUUsage(ps: seq<Proc>, cores: int) returns (percent: real)
    requires cores > 0
    ensures percent == Usage(ps, cores)
    ensures percent <= Cap
  {
    percent := 0.0;
    var index := 0;
    while index <= LastIndex && index < |ps|
      invariant 0 <= index <= WindowLen(ps)
      invariant percent == Total(NonIdleRows(ps[..index], cores))
    {
      var p := ps[index];
      assert ps[..index + 1][..index] == ps[..index];
      assert NonIdleRows(ps[..index + 1], cores)
          == NonIdleRows(ps[..index], cores) + (if p.pid != 0 then [Normalize(p, cores)] else []);
      if p.pid != 0 {
        var cpu := p.cpu / cores as real;
        TotalSnoc(NonIdleRows(ps[..index], cores), Normalize(p, cores));
        percent := percent + cpu;
      } else {
        assert NonIdleRows(ps[..index], cores) + [] == NonIdleRows(ps[..index], cores);
      }
      index := index + 1;
    }
    assert ps[..index] == Window(ps);
    if percent > Cap {
      percent := Cap;
    }
  }

  // ---------------------------------------------------------------------------
  // Lemmas about the rows

  lemma TotalSnoc(rows: seq<Row>, r: Row)
    ensures Total(rows + [r]) == Total(rows) + r.cpu
  {
  }

  /** Every row is an in-window non-idle entry, normalised, and conversely; the
      row count is at most the window's and equals it exactly when no idle
      entry lies in the window. */
  lemma {:induction false} NonIdleRowsShape(w: seq<Proc>, cores: int)
    requires cores > 0
    ensures |NonIdleRows(w, cores)| <= |w|
    ensures |NonIdleRows(w, cores)| == |w| <==> forall i :: 0 <= i < |w| ==> w[i].pid != 0
    ensures forall k :: 0 <= k < |NonIdleRows(w, cores)| ==> NonIdleRows(w, cores)[k].pid != 0
    ensures forall r :: r in NonIdleRows(w, cores) <==>
              exists i :: 0 <= i < |w| && w[i].pid != 0 && r == Normalize(w[i], cores)
  {
    if w != [] {
      var init := w[..|w| - 1];
      NonIdleRowsShape(init, cores);
      forall i | 0 <= i < |init| ensures init[i] == w[i] { }
      var last := w[|w| - 1];
      if last.pid == 0 {
        assert !(forall i :: 0 <= i < |w| ==> w[i].pid != 0);
      }
      forall r ensures r in NonIdleRows(w, cores) ==>
                 exists i :: 0 <= i < |w| && w[i].pid != 0 && r == Normalize(w[i], cores)
      {
        if r in NonIdleRows(w, cores) && r !in NonIdleRows(init, cores) {
          assert w[|w| - 1].pid != 0 && r == Normalize(w[|w| - 1], cores);
        }
      }
      forall r | exists i :: 0 <= i < |w| && w[i].pid != 0 && r == Normalize(w[i], cores)
        ensures r in NonIdleRows(w, cores)
      {
        var i :| 0 <= i < |w| && w[i].pid != 0 && r == Normalize(w[i], cores);
        if i < |w| - 1 {
          assert init[i] == w[i];
        }
      }
    }
  }

  /** The listed rows: at most 21, never the idle process, and exactly the
      normalised non-idle entries among indices 0..20. */
  lemma TopRowsShape(ps: seq<Proc>, cores: int)
    requires cores > 0
    ensures |TopRows(ps, cores)| <= LastIndex + 1
    ensures forall k :: 0 <= k < |TopRows(ps, cores)| ==> TopRows(ps, cores)[k].pid != 0
    ensures forall r :: r in TopRows(ps, cores) <==>
              exists i :: 0 <= i < WindowLen(ps) && ps[i].pid != 0 && r == Normalize(ps[i], cores)
  {
    var w := Window(ps);
    NonIdleRowsShape(w, cores);
    forall i | 0 <= i < |w| ensures w[i] == ps[i] { }
  }

  /** The number of idle (pid 0) entries in `w`. */
  function IdleCount(w: seq<Proc>): nat
  {
    if w == [] then 0
    else IdleCount(w[..|w| - 1]) + (if w[|w| - 1].pid == 0 then 1 else 0)
  }

  /** Each entry gives a row unless it is idle. */
  lemma {:induction false} NonIdleRowsCount(w: seq<Proc>, cores: int)
    requires cores > 0
    ensures |NonIdleRows(w, cores)| + IdleCount(w) == |w|
  {
    if w != [] {
      NonIdleRowsCount(w[..|w| - 1], cores);
    }
  }

  /** The listing has one row per entry of indices 0..min(20, |ps| - 1)
      except the idle ones: with 21 or more entries, 21 rows when none of
      indices 0..20 is idle, and exactly 20 when one of them is. */
  lemma TopRowsCount(ps: seq<Proc>, cores: int)
    requires cores > 0
    ensures |TopRows(ps, cores)| == WindowLen(ps) - IdleCount(Window(ps))
    ensures |ps| > LastIndex && IdleCount(Window(ps)) == 0 ==> |TopRows(ps, cores)| == LastIndex + 1
    ensures |ps| > LastIndex && IdleCount(Window(ps)) == 1 ==> |TopRows(ps, cores)| == LastIndex
  {
    NonIdleRowsCount(Window(ps), cores);
  }

  /** `IdleCount` counts the entries with pid 0, whatever their position. */
  lemma {:induction false} IdleCountZero(w: seq<Proc>)
    ensures IdleCount(w) == 0 <==> forall i :: 0 <= i < |w| ==> w[i].pid != 0
  {
    if w != [] {
      var init := w[..|w| - 1];
      IdleCountZero(init);
      forall i | 0 <= i < |init| ensures init[i] == w[i] { }
    }
  }

  lemma {:induction false} NonIdleRowsAppend(a: seq<Proc>, b: seq<Proc>, cores: int)
    requires cores > 0
    ensures NonIdleRows(a + b, cores) == NonIdleRows(a, cores) + NonIdleRows(b, cores)
  {
    if b == [] {
      assert a + b == a;
    } else {
      assert (a + b)[..|a + b| - 1] == a + b[..|b| - 1];
      NonIdleRowsAppend(a, b[..|b| - 1], cores);
    }
  }

  lemma DivideMonotone(x: real, y: real, cores: int)
    requires cores > 0 && x >= y
    ensures x / cores as real >= y / cores as real
  {
  }

  /** Listing keeps the input order: a list sorted by CPU, highest first,
      yields rows sorted the same way. */
  lemma {:induction false} NonIdleRowsSorted(w: seq<Proc>, cores: int)
    requires cores > 0
    requires SortedDesc(w)
    ensures RowsSortedDesc(NonIdleRows(w, cores))
  {
    if w != [] {
      var init := w[..|w| - 1];
      var last := w[|w| - 1];
      NonIdleRowsSorted(init, cores);
      NonIdleRowsShape(init, cores);
      var rows := NonIdleRows(init, cores);
      if last.pid != 0 {
        forall k | 0 <= k < |rows| ensures rows[k].cpu >= Normalize(last, cores).cpu {
          assert rows[k] in rows;
          var i :| 0 <= i < |init| && init[i].pid != 0 && rows[k] == Normalize(init[i], cores);
          DivideMonotone(init[i].cpu, last.cpu, cores);
        }
      }
    }
  }

  lemma TopRowsSorted(ps: seq<Proc>, cores: int)
    requires cores > 0
    requires SortedDesc(ps)
    ensures RowsSortedDesc(TopRows(ps, cores))
  {
    NonIdleRowsSorted(Window(ps), cores);
  }

  /** Entries past index 20 never reach the listing. */
  lemma TopRowsIgnoresTail(ps: seq<Proc>, more: seq<Proc>, cores: int)
    requires cores > 0
    requires |ps| > LastIndex
    ensures TopRows(ps + more, cores) == TopRows(ps, cores)
  {
    assert Window(ps + more) == Window(ps);
  }

  lemma {:induction false} NonIdleRowsIgnoresIdle(w: seq<Proc>, i: nat, q: Proc, cores: int)
    requires cores > 0
    requires i < |w| && w[i].pid == 0 && q.pid == 0
    ensures NonIdleRows(w[i := q], cores) == NonIdleRows(w, cores)
  {
    var w' := w[i := q];
    if i < |w| - 1 {
      assert w'[..|w'| - 1] == w[..|w| - 1][i := q];
      NonIdleRowsIgnoresIdle(w[..|w| - 1], i, q, cores);
    } else {
      assert w'[..|w'| - 1] == w[..|w| - 1];
    }
  }

  /** Replacing an idle entry by another idle entry (any CPU figure, any
      name) leaves the listing unchanged: pid 0 never contributes. */
  lemma TopRowsIgnoresIdle(ps: seq<Proc>, i: nat, q: Proc, cores: int)
    requires cores > 0
    requires i < |ps| && ps[i].pid == 0 && q.pid == 0
    ensures TopRows(ps[i := q], cores) == TopRows(ps, cores)
  {
    if i < WindowLen(ps) {
      assert Window(ps[i := q]) == Window(ps)[i := q];
      NonIdleRowsIgnoresIdle(Window(ps), i, q, cores);
    } else {
      assert Window(ps[i := q]) == Window(ps);
    }
  }

  // ---------------------------------------------------------------------------
  // Lemmas about the CPU percentage

  lemma {:induction false} TotalNonNegative(rows: seq<Row>)
    requires forall k :: 0 <= k < |rows| ==> rows[k].cpu >= 0.0
    ensures Total(rows) >= 0.0
  {
    if rows != [] {
      TotalNonNegative(rows[..|rows| - 1]);
    }
  }

  /** The CPU percentage never exceeds 100, and is not negative when no raw
      figure is. */
  lemma UsageBounds(ps: seq<Proc>, cores: int)
    requires cores > 0
    ensures Usage(ps, cores) <= Cap
    ensures (forall i :: 0 <= i < |ps| ==> ps[i].cpu >= 0.0) ==> Usage(ps, cores) >= 0.0
  {
    if forall i :: 0 <= i < |ps| ==> ps[i].cpu >= 0.0 {
      var rows := TopRows(ps, cores);
      TopRowsShape(ps, cores);
      forall k | 0 <= k < |rows| ensures rows[k].cpu >= 0.0 {
        assert rows[k] in rows;
      }
      TotalNonNegative(rows);
    }
  }

  /** Entries past index 20, and the figures of idle entries, never affect
      the CPU percentage. */
  lemma UsageIgnoresTailAndIdle(ps: seq<Proc>, more: seq<Proc>, i: nat, q: Proc, cores: int)
    requires cores > 0
    ensures |ps| > LastIndex ==> Usage(ps + more, cores) == Usage(ps, cores)
    ensures i < |ps| && ps[i].pid == 0 && q.pid == 0 ==> Usage(ps[i := q], cores) == Usage(ps, cores)
  {
    if |ps| > LastIndex {
      TopRowsIgnoresTail(ps, more, cores);
    }
    if i < |ps| && ps[i].pid == 0 && q.pid == 0 {
      TopRowsIgnoresIdle(ps, i, q, cores);
    }
  }

  /** With the idle process in front, two real processes share four cores:
      the idle figure is dropped and the others are divided by four. */
  lemma ScenarioIdleExcluded()
    ensures TopRows([Proc(0, 400.0, "Idle"), Proc(1, 50.0, "a"), Proc(2, 30.0, "b")], 4)
            == [Row(1, 12.5, "a"), Row(2, 7.5, "b")]
    ensures Usage([Proc(0, 400.0, "Idle"), Proc(1, 50.0, "a"), Proc(2, 30.0, "b")], 4) == 20.0
  {
    var ps := [Proc(0, 400.0, "Idle"), Proc(1, 50.0, "a"), Proc(2, 30.0, "b")];
    assert Window(ps) == ps;
    assert ps[..2] == [Proc(0, 400.0, "Idle"), Proc(1, 50.0, "a")];
    assert ps[..2][..1] == [Proc(0, 400.0, "Idle")];
    assert [Proc(0, 400.0, "Idle")][..0] == [];
    assert NonIdleRows([Proc(0, 400.0, "Idle")], 4) == [];
    assert NonIdleRows(ps[..2], 4) == [Row(1, 12.5, "a")];
    var rows := [Row(1, 12.5, "a"), Row(2, 7.5, "b")];
    assert NonIdleRows(ps, 4) == rows;
    assert rows[..1] == [Row(1, 12.5, "a")];
    assert [Row(1, 12.5, "a")][..0] == [];
    assert Total(rows) == 20.0;
  }
}
