/** The `top_processes` pipeline of `collect_extended_metrics`
    (src/agent/system_data.rs): keep the processes with cpu usage above 0,
    map each to a `ProcessMetrics`, sort by descending cpu usage with
    itertools' stable `sorted_by`, and take the first 10. */
module Ranking {
  import opened Util
  import opened Metrics

  /** How many processes `take` keeps. */
  const TOP_PROCESS_LIMIT: nat := 10

  predicate IsBusy(p: ProcessReading)
  {
    p.cpuUsage > 0.0
  }

  function AsProcessMetrics(p: ProcessReading): ProcessMetrics
  {
    ProcessMetrics(p.pid, p.name, p.cpuUsage, p.memory)
  }

  /** The processes that the filter lets through, mapped, in enumeration order. */
  function Candidates(procs: seq<ProcessReading>): (r: seq<ProcessMetrics>)
    ensures forall k :: 0 <= k < |r| ==> r[k].cpuUsage > 0.0
  {
    var busy := Filter(procs, IsBusy);
    assert forall k :: 0 <= k < |busy| ==> busy[k] in busy;
    Map(busy, AsProcessMetrics)
  }

  /** The candidates are exactly the busy processes, mapped: every process with
      cpu usage above 0 appears, and every candidate comes from one. */
  lemma CandidatesAreTheBusyProcesses(procs: seq<ProcessReading>)
    ensures forall p :: p in procs && IsBusy(p) ==> AsProcessMetrics(p) in Candidates(procs)
    ensures forall q :: q in Candidates(procs) ==> exists p :: p in procs && IsBusy(p) && q == AsProcessMetrics(p)
  {
    var busy := Filter(procs, IsBusy);
    var c := Candidates(procs);
    FilterMultiplicity(procs, IsBusy);
    forall p | p in procs && IsBusy(p) ensures AsProcessMetrics(p) in c {
      assert multiset(procs)[p] > 0;
      assert p in multiset(busy);
      var i :| 0 <= i < |busy| && busy[i] == p;
      assert c[i] == AsProcessMetrics(p);
    }
    forall q | q in c ensures exists p :: p in procs && IsBusy(p) && q == AsProcessMetrics(p) {
      var i :| 0 <= i < |c| && c[i] == q;
      assert busy[i] in busy;
    }
  }

  /** The candidates keep enumeration order: process by process, a busy process
      contributes its record and any other contributes nothing. */
  lemma CandidatesByProcess(a: seq<ProcessReading>, b: seq<ProcessReading>, p: ProcessReading)
    ensures Candidates(a + b) == Candidates(a) + Candidates(b)
    ensures Candidates([p]) == if IsBusy(p) then [AsProcessMetrics(p)] else []
  {
    FilterConcat(a, b, IsBusy);
    MapConcat(Filter(a, IsBusy), Filter(b, IsBusy), AsProcessMetrics);
    FilterSingleton(p, IsBusy);
  }

  /** Ordered non-increasing by cpu usage. */
  predicate Descending(s: seq<ProcessMetrics>)
  {
    forall i, j :: 0 <= i < j < |s| ==> s[i].cpuUsage >= s[j].cpuUsage
  }

  /** Places `x` before the first entry whose cpu usage is not above its own,
      so that `x` stays ahead of the entries it ties with. */
  function Insert(x: ProcessMetrics, t: seq<ProcessMetrics>): (r: seq<ProcessMetrics>)
    ensures multiset(r) == multiset(t) + multiset{x}
  {
    if t == [] || x.cpuUsage >= t[0].cpuUsage then [x] + t
    else
      assert t == [t[0]] + t[1..];
      [t[0]] + Insert(x, t[1..])
  }

  lemma {:induction false} InsertDescending(x: ProcessMetrics, t: seq<ProcessMetrics>)
    requires Descending(t)
    ensures Descending(Insert(x, t))
  {
    if t != [] && x.cpuUsage < t[0].cpuUsage {
      var r := Insert(x, t[1..]);
      InsertDescending(x, t[1..]);
      forall k | 0 <= k < |r| ensures r[k].cpuUsage <= t[0].cpuUsage {
        assert r[k] in multiset(r);
        if r[k] != x {
          assert r[k] in t[1..];
          var j :| 0 <= j < |t[1..]| && t[1..][j] == r[k];
          assert t[j + 1] == r[k];
        }
      }
      assert Insert(x, t) == [t[0]] + r;
    }
  }

  /** `sorted_by(|a, b| b.cpu_usage.partial_cmp(&a.cpu_usage).unwrap())`: a stable
      sort into descending cpu order (insertion sort). */
  function SortDescending(s: seq<ProcessMetrics>): (r: seq<ProcessMetrics>)
    ensures multiset(r) == multiset(s) && |r| == |s|
    ensures Descending(r)
  {
    if s == [] then []
    else
      assert s == [s[0]] + s[1..];
      InsertDescending(s[0], SortDescending(s[1..]));
      Insert(s[0], SortDescending(s[1..]))
  }

  function CpuIs(v: real): ProcessMetrics -> bool
  {
    (q: ProcessMetrics) => q.cpuUsage == v
  }

  /** The entries of `s` whose cpu usage is exactly `v`, in their order in `s`. */
  function Ties(s: seq<ProcessMetrics>, v: real): seq<ProcessMetrics>
  {
    Filter(s, CpuIs(v))
  }

  lemma {:induction false} InsertKeepsTies(x: ProcessMetrics, t: seq<ProcessMetrics>, v: real)
    ensures Ties(Insert(x, t), v) == Ties([x] + t, v)
  {
    if t != [] && x.cpuUsage < t[0].cpuUsage {
      var p := CpuIs(v);
      var rest := Insert(x, t[1..]);
      assert Insert(x, t) == [t[0]] + rest;
      FilterConcat([t[0]], rest, p);
      InsertKeepsTies(x, t[1..], v);
      FilterConcat([x], t[1..], p);
      assert p(t[0]) == (t[0].cpuUsage == v) && p(x) == (x.cpuUsage == v);
      FilterSwap(t[0], x, Filter(t[1..], p), p);
      assert [t[0]] + t[1..] == t;
      FilterConcat([t[0]], t[1..], p);
      FilterConcat([x], t, p);
    }
  }

  /** The sort is stable: entries that tie keep their relative order. */
  lemma {:induction false} SortKeepsTies(s: seq<ProcessMetrics>, v: real)
    ensures Ties(SortDescending(s), v) == Ties(s, v)
  {
    if s != [] {
      InsertKeepsTies(s[0], SortDescending(s[1..]), v);
      FilterConcat([s[0]], SortDescending(s[1..]), CpuIs(v));
      SortKeepsTies(s[1..], v);
      assert s == [s[0]] + s[1..];
      FilterConcat([s[0]], s[1..], CpuIs(v));
    }
  }

  /** `top_processes`: the first ten of the sorted candidates. */
  function TopProcesses(procs: seq<ProcessReading>): seq<ProcessMetrics>
  {
    var sorted := SortDescending(Candidates(procs));
    sorted[..Min(|sorted|, TOP_PROCESS_LIMIT)]
  }

  /** At most ten entries, every one with cpu usage above 0, in non-increasing cpu order. */
  lemma TopProcessesShape(procs: seq<ProcessReading>)
    ensures |TopProcesses(procs)| == Min(|Candidates(procs)|, TOP_PROCESS_LIMIT)
    ensures forall k :: 0 <= k < |TopProcesses(procs)| ==> TopProcesses(procs)[k].cpuUsage > 0.0
    ensures Descending(TopProcesses(procs))
  {
    var c := Candidates(procs);
    var sorted := SortDescending(c);
    var top := TopProcesses(procs);
    forall k | 0 <= k < |top| ensures top[k].cpuUsage > 0.0 {
      assert top[k] in multiset(c);
    }
  }

  /** In a descending sequence every entry after position `n` uses no more cpu
      than any entry before it. */
  lemma DescendingSplit(s: seq<ProcessMetrics>, n: nat)
    requires Descending(s) && n <= |s|
    ensures forall p, q :: p in s[n..] && q in s[..n] ==> p.cpuUsage <= q.cpuUsage
  {
    forall p, q | p in s[n..] && q in s[..n] ensures p.cpuUsage <= q.cpuUsage {
      var j :| 0 <= j < |s[n..]| && s[n..][j] == p;
      var i :| 0 <= i < |s[..n]| && s[..n][i] == q;
      assert s[i] == q && s[n + j] == p;
    }
  }

  /** The entries kept are candidates, and they are the busiest ones: every
      candidate left out uses no more cpu than any entry kept, and when there are
      at most ten candidates all of them are kept. */
  lemma TopProcessesAreTheBusiest(procs: seq<ProcessReading>)
    ensures multiset(TopProcesses(procs)) <= multiset(Candidates(procs))
    ensures forall p, q :: p in multiset(Candidates(procs)) - multiset(TopProcesses(procs)) && q in TopProcesses(procs)
              ==> p.cpuUsage <= q.cpuUsage
    ensures |Candidates(procs)| <= TOP_PROCESS_LIMIT ==> multiset(TopProcesses(procs)) == multiset(Candidates(procs))
  {
    var c := Candidates(procs);
    var sorted := SortDescending(c);
    var n := Min(|sorted|, TOP_PROCESS_LIMIT);
    assert sorted == sorted[..n] + sorted[n..];
    assert multiset(c) - multiset(sorted[..n]) == multiset(sorted[n..]);
    DescendingSplit(sorted, n);
  }

  /** With at most ten busy processes, every one of them is reported. */
  lemma FewBusyProcessesAllReported(procs: seq<ProcessReading>)
    requires |Candidates(procs)| <= TOP_PROCESS_LIMIT
    ensures forall p :: p in procs && IsBusy(p) ==> AsProcessMetrics(p) in TopProcesses(procs)
  {
    CandidatesAreTheBusyProcesses(procs);
    TopProcessesAreTheBusiest(procs);
    forall p | p in procs && IsBusy(p) ensures AsProcessMetrics(p) in TopProcesses(procs) {
      assert AsProcessMetrics(p) in multiset(Candidates(procs));
      assert AsProcessMetrics(p) in multiset(TopProcesses(procs));
    }
  }

  /** Entries that tie keep their enumeration order: for every cpu value, the
      kept entries with that value are the first ones among the candidates with it. */
  lemma TopProcessesKeepTieOrder(procs: seq<ProcessReading>, v: real)
    ensures Ties(TopProcesses(procs), v) <= Ties(Candidates(procs), v)
  {
    var c := Candidates(procs);
    var sorted := SortDescending(c);
    var n := Min(|sorted|, TOP_PROCESS_LIMIT);
    assert sorted == sorted[..n] + sorted[n..];
    FilterConcat(sorted[..n], sorted[n..], CpuIs(v));
    SortKeepsTies(c, v);
  }
}
