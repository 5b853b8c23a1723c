/** Process records as collected on each tick, and the ordering applied to them
    before ranking: a stable sort by CPU percentage, highest first
    (performancemonitor.py:55, `sorted(..., key=cpu_percent, reverse=True)`). */
module Ranking {

  /** One collected process: its pid, its raw `cpu_percent` (summed over all
      logical cores, so it may exceed 100) and its name. */
  datatype Proc = Proc(pid: int, cpu: real, name: string)

  /** Non-increasing by CPU percentage. */
  ghost predicate SortedDesc(s: seq<Proc>)
  {
    forall i, j :: 0 <= i < j < |s| ==> s[i].cpu >= s[j].cpu
  }

  /** The entries of `s` whose CPU percentage is exactly `c`, in their order in `s`. */
  function WithCpu(s: seq<Proc>, c: real): seq<Proc>
  {
    if s == [] then []
    else (if s[0].cpu == c then [s[0]] else []) + WithCpu(s[1..], c)
  }

  /** A sort is stable when, for every key, the entries carrying that key keep
      their relative order. */
  ghost predicate StableFor(input: seq<Proc>, output: seq<Proc>)
  {
    forall c :: WithCpu(output, c) == WithCpu(input, c)
  }

  /** Places `x` in front of the first entry of `t` whose CPU percentage is not
      above its own, so that `x` precedes the entries that tie with it. */
  function Insert(x: Proc, t: seq<Proc>): (r: seq<Proc>)
    requires SortedDesc(t)
    ensures multiset(r) == multiset(t) + multiset{x}
    ensures |r| == |t| + 1
    ensures r[0] == x || (t != [] && r[0] == t[0])
    ensures SortedDesc(r)
  {
    if t == [] || t[0].cpu <= x.cpu then [x] + t
    else
      assert t == [t[0]] + t[1..];
      [t[0]] + Insert(x, t[1..])
  }

  /** The process list as `getAllProcesses` returns it: the collected records
      ordered by CPU percentage, highest first, ties in collection order. */
  function SortByCpu(s: seq<Proc>): (r: seq<Proc>)
    ensures multiset(r) == multiset(s)
    ensures |r| == |s|
    ensures SortedDesc(r)
  {
    if s == [] then []
    else
      assert s == [s[0]] + s[1..];
      Insert(s[0], SortByCpu(s[1..]))
  }

  lemma {:induction false} WithCpuAppend(a: seq<Proc>, b: seq<Proc>, c: real)
    ensures WithCpu(a + b, c) == WithCpu(a, c) + WithCpu(b, c)
  {
    if a == [] {
      assert a + b == b;
    } else {
      assert (a + b)[0] == a[0];
      assert (a + b)[1..] == a[1..] + b;
      WithCpuAppend(a[1..], b, c);
    }
  }

  /** Inserting `x` keeps, for every key, the order of `[x] + t`. */
  lemma {:induction false} InsertStable(x: Proc, t: seq<Proc>, c: real)
    requires SortedDesc(t)
    ensures WithCpu(Insert(x, t), c) == WithCpu([x] + t, c)
  {
    if t == [] || t[0].cpu <= x.cpu {
    } else {
      var rest := Insert(x, t[1..]);
      InsertStable(x, t[1..], c);
      WithCpuAppend([t[0]], rest, c);
      WithCpuAppend([x], t[1..], c);
      WithCpuAppend([x], t, c);
      WithCpuAppend([t[0]], t[1..], c);
      assert [t[0]] + t[1..] == t;
    }
  }

  /** The sort is stable: ties keep the order in which they were collected,
      as Python's `sorted` guarantees, also with `reverse=True`. */
  lemma {:induction false} SortByCpuStable(s: seq<Proc>)
    ensures StableFor(s, SortByCpu(s))
  {
    if s != [] {
      SortByCpuStable(s[1..]);
      forall c ensures WithCpu(SortByCpu(s), c) == WithCpu(s, c) {
        InsertStable(s[0], SortByCpu(s[1..]), c);
        WithCpuAppend([s[0]], SortByCpu(s[1..]), c);
        WithCpuAppend([s[0]], s[1..], c);
        assert [s[0]] + s[1..] == s;
      }
    }
  }
}
