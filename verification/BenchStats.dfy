/**
 The benchmark's bookkeeping (app/benchmark_run.go, app/benchmark_crud.go): the latency
 accumulator with its bounded sample, the bounded registry of runs, and the weighted
 choice of an operation. Latencies are reals, random draws are arbitrary inputs.
 */
module BenchStats {
  // ------------------------------------------------------------ latency

  const LAT_SAMPLE := 5000

  /** One recorded latency and the random slot drawn for it. */
  datatype Recording = Recording(ms: real, draw: nat)

  datatype Acc = Acc(count: nat, sum: real, min: real, max: real, sample: seq<real>)

  const EMPTY_ACC := Acc(0, 0.0, 0.0, 0.0, [])

  function Recorded(a: Acc, r: Recording): Acc {
    var count := a.count + 1;
    Acc(
      count,
      a.sum + r.ms,
      if count == 1 || r.ms < a.min then r.ms else a.min,
      if r.ms > a.max then r.ms else a.max,
      if |a.sample| < LAT_SAMPLE then a.sample + [r.ms]
      else if r.draw < LAT_SAMPLE then a.sample[r.draw := r.ms]
      else a.sample)
  }

  class LatAcc {
    var count: nat
    var errs: nat
    var sum: real
    var min: real
    var max: real
    var sample: seq<real>

    function State(): Acc
      reads this
    {
      Acc(count, sum, min, max, sample)
    }

    constructor ()
      ensures State() == EMPTY_ACC && errs == 0
    {
      count, errs, sum, min, max, sample := 0, 0, 0.0, 0.0, 0.0, [];
    }

    method Rec(ms: real, draw: nat)
      modifies this
      ensures State() == Recorded(old(State()), Recording(ms, draw)) && errs == old(errs)
    {
      count := count + 1;
      sum := sum + ms;
      if count == 1 || ms < min {
        min := ms;
      }
      if ms > max {
        max := ms;
      }
      if |sample| < LAT_SAMPLE {
        sample := sample + [ms];
      } else if draw < LAT_SAMPLE {
        sample := sample[draw := ms];
      }
    }

    method RecErr()
      modifies this
      ensures State() == old(State()) && errs == old(errs) + 1
    {
      errs := errs + 1;
    }
  }

  ghost function AfterAll(recs: seq<Recording>): Acc {
    if recs == [] then EMPTY_ACC else Recorded(AfterAll(recs[..|recs| - 1]), recs[|recs| - 1])
  }

  ghost function Total(recs: seq<Recording>): real {
    if recs == [] then 0.0 else Total(recs[..|recs| - 1]) + recs[|recs| - 1].ms
  }

  /** Every sampled value is that of a recording, and no recording is sampled twice. */
  ghost predicate SampleOf(sample: seq<real>, recs: seq<Recording>, from: seq<nat>) {
    && |from| == |sample|
    && (forall k | 0 <= k < |from| :: from[k] < |recs| && sample[k] == recs[from[k]].ms)
    && (forall k, l | 0 <= k < l < |from| :: from[k] != from[l])
  }

  lemma SampleStep(sample: seq<real>, recs: seq<Recording>, from: seq<nat>, r: Recording) returns (from': seq<nat>)
    requires SampleOf(sample, recs, from)
    ensures
      var next := Recorded(EMPTY_ACC.(sample := sample), r).sample;
      SampleOf(next, recs + [r], from')
  {
    var n := |recs|;
    assert (recs + [r])[n] == r;
    assert forall k | 0 <= k < n :: (recs + [r])[k] == recs[k];
    if |sample| < LAT_SAMPLE {
      from' := from + [n];
    } else if r.draw < LAT_SAMPLE {
      from' := from[r.draw := n];
    } else {
      from' := from;
    }
  }

  /**
   After any recordings with any draws: the sample holds as many values as there were
   recordings, up to its capacity, each taken from a different recording.
   */
  lemma {:induction false} SampleSound(recs: seq<Recording>) returns (from: seq<nat>)
    ensures
      var a := AfterAll(recs);
      && a.count == |recs| && a.sum == Total(recs)
      && |a.sample| == (if |recs| < LAT_SAMPLE then |recs| else LAT_SAMPLE)
      && SampleOf(a.sample, recs, from)
  {
    if recs == [] {
      from := [];
    } else {
      var before, last := recs[..|recs| - 1], recs[|recs| - 1];
      var earlier := SampleSound(before);
      from := SampleStep(AfterAll(before).sample, before, earlier, last);
      assert before + [last] == recs;
    }
  }

  /** Recording j was put into slot k: as one of the first to fill the sample, or because it drew that slot. */
  predicate Fills(recs: seq<Recording>, j: nat, k: nat)
    requires j < |recs|
  {
    if j < LAT_SAMPLE then j == k else recs[j].draw == k
  }

  /** Each slot of the sample holds the last recording that was put into it. */
  lemma {:induction false} SlotHoldsLast(recs: seq<Recording>, j: nat, k: nat)
    requires j < |recs| && k < LAT_SAMPLE && Fills(recs, j, k)
    requires forall l | j < l < |recs| :: !Fills(recs, l, k)
    ensures k < |AfterAll(recs).sample| && AfterAll(recs).sample[k] == recs[j].ms
  {
    var n := |recs| - 1;
    var before := recs[..n];
    SampleLength(before);
    if j < n {
      forall l | j < l < |before|
        ensures !Fills(before, l, k)
      {
        assert !Fills(recs, l, k);
      }
      SlotHoldsLast(before, j, k);
      assert !Fills(recs, n, k);
    }
  }

  lemma {:induction false} SampleLength(recs: seq<Recording>)
    ensures |AfterAll(recs).sample| == if |recs| < LAT_SAMPLE then |recs| else LAT_SAMPLE
  {
    if recs != [] {
      SampleLength(recs[..|recs| - 1]);
    }
  }

  /** The minimum is exact over all recordings; so is the maximum, unless every latency was negative. */
  lemma {:induction false} ExtremesSound(recs: seq<Recording>)
    requires recs != []
    ensures
      var a := AfterAll(recs);
      && (forall r | r in recs :: a.min <= r.ms <= a.max)
      && (exists r :: r in recs && r.ms == a.min)
      && ((exists r :: r in recs && r.ms == a.max) <==> exists r :: r in recs && r.ms >= 0.0)
  {
    ExtremesStep(recs);
  }

  ghost predicate Extremes(a: Acc, recs: seq<Recording>) {
    && a.count == |recs| && a.max >= 0.0
    && (forall r | r in recs :: a.min <= r.ms <= a.max)
    && (recs != [] ==> exists r :: r in recs && r.ms == a.min)
    && (a.max == 0.0 || exists r :: r in recs && r.ms == a.max)
  }

  lemma {:induction false} ExtremesStep(recs: seq<Recording>)
    ensures Extremes(AfterAll(recs), recs)
  {
    if recs != [] {
      var before, last := recs[..|recs| - 1], recs[|recs| - 1];
      ExtremesStep(before);
      assert recs == before + [last];
      assert last in recs && forall r | r in before :: r in recs;
    }
  }

  // ------------------------------------------------------------ the run registry

  const MAX_RUNS := 200

  datatype Registry<T> = Registry(runs: map<string, T>, order: seq<string>)

  function Evict<T>(s: Registry<T>): Registry<T>
    decreases |s.order|
  {
    if |s.order| > MAX_RUNS then Evict(Registry(s.runs - {s.order[0]}, s.order[1..])) else s
  }

  function Registered<T>(s: Registry<T>, id: string, run: T): Registry<T> {
    Evict(Registry(s.runs[id := run], s.order + [id]))
  }

  class Runs<T> {
    var m: map<string, T>
    var order: seq<string>

    constructor ()
      ensures m == map[] && order == []
    {
      m, order := map[], [];
    }

    method Register(id: string, run: T)
      modifies this
      ensures Registry(m, order) == Registered(old(Registry(m, order)), id, run)
    {
      m := m[id := run];
      order := order + [id];
      while |order| > MAX_RUNS
        invariant Evict(Registry(m, order)) == Registered(old(Registry(m, order)), id, run)
        decreases |order|
      {
        m := m - {order[0]};
        order := order[1..];
      }
    }
  }

  /** Starting within bounds, registering evicts the oldest run or none. */
  lemma RegisteredShape<T>(s: Registry<T>, id: string, run: T)
    requires |s.order| <= MAX_RUNS
    ensures
      var m, all := s.runs[id := run], s.order + [id];
      Registered(s, id, run) ==
        if |all| <= MAX_RUNS then Registry(m, all) else Registry(m - {all[0]}, all[1..])
  {
    var all := s.order + [id];
    if |all| > MAX_RUNS {
      var t := Registry(s.runs[id := run] - {all[0]}, all[1..]);
      assert Evict(t) == t;
    }
  }

  ghost predicate KeysAreOrder<T>(s: Registry<T>) {
    forall id :: id in s.runs <==> id in s.order
  }

  /** Registering keeps the keys and the list in step exactly when the run it evicts is not listed again. */
  lemma RegisterKeeps<T>(s: Registry<T>, id: string, run: T)
    requires KeysAreOrder(s) && |s.order| <= MAX_RUNS
    ensures
      var all := s.order + [id];
      KeysAreOrder(Registered(s, id, run)) <==> |all| <= MAX_RUNS || all[0] !in all[1..]
  {
    var all := s.order + [id];
    RegisteredShape(s, id, run);
    if |all| > MAX_RUNS {
      assert all == [all[0]] + all[1..];
      assert forall x :: x in all <==> x == all[0] || x in all[1..];
      assert forall x :: x in Registered(s, id, run).runs <==> x in all && x != all[0];
    }
  }

  ghost function AfterRuns<T>(ids: seq<string>, runs: seq<T>): Registry<T>
    requires |ids| == |runs|
  {
    if ids == [] then Registry(map[], [])
    else Registered(AfterRuns(ids[..|ids| - 1], runs[..|ids| - 1]), ids[|ids| - 1], runs[|ids| - 1])
  }

  function Recent(ids: seq<string>): seq<string> {
    if |ids| <= MAX_RUNS then ids else ids[|ids| - MAX_RUNS..]
  }

  ghost predicate Fresh(ids: seq<string>) {
    forall i, j | 0 <= i < j < |ids| :: ids[i] != ids[j]
  }

  /** Every id still registered has the run it was registered with. */
  ghost predicate RunsMatch<T>(s: Registry<T>, ids: seq<string>, runs: seq<T>)
    requires |ids| == |runs|
  {
    forall i | 0 <= i < |ids| && ids[i] in s.runs :: s.runs[ids[i]] == runs[i]
  }

  /** With fresh ids the registry is the most recent runs: the list, the keys, and the run under each key. */
  lemma {:induction false} RegistryIsRecent<T>(ids: seq<string>, runs: seq<T>)
    requires |ids| == |runs| && Fresh(ids)
    ensures
      var s := AfterRuns(ids, runs);
      s.order == Recent(ids) && KeysAreOrder(s) && RunsMatch(s, ids, runs)
  {
    if ids != [] {
      var n := |ids| - 1;
      RegistryIsRecent(ids[..n], runs[..n]);
      var s := AfterRuns(ids[..n], runs[..n]);
      RecentOneMore(ids);
      RegisteredShape(s, ids[n], runs[n]);
      RegisterKeeps(s, ids[n], runs[n]);
      RunsStep(s, ids, runs);
    }
  }

  lemma RunsStep<T>(s: Registry<T>, ids: seq<string>, runs: seq<T>)
    requires |ids| == |runs| > 0 && Fresh(ids) && |s.order| <= MAX_RUNS
    requires RunsMatch(s, ids[..|ids| - 1], runs[..|ids| - 1])
    ensures RunsMatch(Registered(s, ids[|ids| - 1], runs[|ids| - 1]), ids, runs)
  {
    var n := |ids| - 1;
    var t := Registered(s, ids[n], runs[n]);
    RegisteredShape(s, ids[n], runs[n]);
    forall i | 0 <= i < |ids| && ids[i] in t.runs
      ensures t.runs[ids[i]] == runs[i]
    {
      if i < n {
        assert ids[..n][i] == ids[i] && runs[..n][i] == runs[i];
      }
    }
  }

  /** One more id: at the end of the list, the first one going when the list was full. */
  lemma RecentGrows(ids: seq<string>, id: string)
    ensures |Recent(ids)| <= MAX_RUNS
    ensures
      var all := Recent(ids) + [id];
      Recent(ids + [id]) == if |all| <= MAX_RUNS then all else all[1..]
  {
    if |ids| >= MAX_RUNS {
      var k := |ids| - MAX_RUNS;
      assert Recent(ids) == ids[k..];
      assert (ids + [id])[k + 1..] == (ids[k..] + [id])[1..];
    }
  }

  lemma RecentIsFresh(ids: seq<string>, id: string)
    requires Fresh(ids + [id]) && Recent(ids) != []
    ensures Recent(ids)[0] !in (Recent(ids) + [id])[1..]
  {
    var k := |ids| - |Recent(ids)|;
    var all := ids + [id];
    var last := Recent(ids) + [id];
    forall i | 1 <= i < |last|
      ensures last[i] != last[0]
    {
      assert last[i] == all[k + i] && last[0] == all[k];
    }
  }

  lemma RecentOneMore(ids: seq<string>)
    requires ids != [] && Fresh(ids)
    ensures
      var n := |ids| - 1;
      var all := Recent(ids[..n]) + [ids[n]];
      && |Recent(ids[..n])| <= MAX_RUNS
      && Recent(ids) == (if |all| <= MAX_RUNS then all else all[1..])
      && (|all| > MAX_RUNS ==> all[0] !in all[1..])
  {
    var n := |ids| - 1;
    var before, id := ids[..n], ids[n];
    assert ids == before + [id];
    RecentGrows(before, id);
    if |Recent(before)| >= MAX_RUNS {
      RecentIsFresh(before, id);
    }
  }

  // ------------------------------------------------------------ the weighted choice

  datatype Op = InsertOp | UpdateOp | DeleteOp | SelectOp

  const OPS := [InsertOp, UpdateOp, DeleteOp, SelectOp]

  function Clamp(w: int): nat {
    if w < 0 then 0 else w
  }

  function Weight(w: seq<int>, op: Op): nat
    requires |w| == 4
  {
    match op
    case InsertOp => Clamp(w[0])
    case UpdateOp => Clamp(w[1])
    case DeleteOp => Clamp(w[2])
    case SelectOp => Clamp(w[3])
  }

  function Sum(w: seq<int>): nat
    requires |w| == 4
  {
    Clamp(w[0]) + Clamp(w[1]) + Clamp(w[2]) + Clamp(w[3])
  }

  /** The stretch of the draws that a draw falls into, the weights laid end to end. */
  function Choice(w: seq<int>, draw: int): Op
    requires |w| == 4
  {
    if draw < Clamp(w[0]) then InsertOp
    else if draw < Clamp(w[0]) + Clamp(w[1]) then UpdateOp
    else if draw < Clamp(w[0]) + Clamp(w[1]) + Clamp(w[2]) then DeleteOp
    else SelectOp
  }

  /** The pick clamps the weights in place and never reaches its fallback. */
  method PickOp(weights: array<int>, draw: nat, even: nat) returns (op: Op, ghost fellThrough: bool)
    requires weights.Length == 4 && even < 4
    requires Sum(weights[..]) > 0 ==> draw < Sum(weights[..])
    modifies weights
    ensures forall i | 0 <= i < 4 :: weights[i] == Clamp(old(weights[i]))
    ensures op == if Sum(old(weights[..])) == 0 then OPS[even] else Choice(old(weights[..]), draw)
    ensures !fellThrough
  {
    ghost var w := weights[..];
    var sum := 0;
    fellThrough := false;
    for i := 0 to 4
      invariant forall k | 0 <= k < 4 :: weights[k] == if k < i then Clamp(w[k]) else w[k]
      invariant sum == (if i > 0 then Clamp(w[0]) else 0) + (if i > 1 then Clamp(w[1]) else 0)
                     + (if i > 2 then Clamp(w[2]) else 0) + (if i > 3 then Clamp(w[3]) else 0)
    {
      if weights[i] < 0 {
        weights[i] := 0;
      }
      sum := sum + weights[i];
    }
    if sum == 0 {
      return OPS[even], false;
    }
    var r: int := draw;
    for i := 0 to 4
      invariant r == draw - (if i > 0 then Clamp(w[0]) else 0) - (if i > 1 then Clamp(w[1]) else 0)
                   - (if i > 2 then Clamp(w[2]) else 0) - (if i > 3 then Clamp(w[3]) else 0)
      invariant r >= 0
    {
      if r < weights[i] {
        return OPS[i], false;
      }
      r := r - weights[i];
    }
    return SelectOp, true;
  }

  function Range(lo: int, hi: int): (s: set<int>)
    requires lo <= hi
    ensures forall r :: r in s <==> lo <= r < hi
    ensures |s| == hi - lo
    decreases hi - lo
  {
    if lo == hi then {} else Range(lo, hi - 1) + {hi - 1}
  }

  /** A weight that is not positive counts as none. */
  lemma WeightCounts(w: seq<int>, k: nat)
    requires |w| == 4 && k < 4
    ensures Weight(w, OPS[k]) == if w[k] > 0 then w[k] else 0
  {
  }

  /** Out of the equally likely draws below the sum, each operation is chosen by exactly as many as its weight. */
  lemma ChoiceIsProportional(w: seq<int>, op: Op)
    requires |w| == 4
    ensures |set r | r in Range(0, Sum(w)) && Choice(w, r) == op| == Weight(w, op)
  {
    var lo :=
      match op
      case InsertOp => 0
      case UpdateOp => Clamp(w[0])
      case DeleteOp => Clamp(w[0]) + Clamp(w[1])
      case SelectOp => Clamp(w[0]) + Clamp(w[1]) + Clamp(w[2]);
    forall r | 0 <= r < Sum(w)
      ensures Choice(w, r) == op <==> lo <= r < lo + Weight(w, op)
    {
    }
    assert (set r | r in Range(0, Sum(w)) && Choice(w, r) == op) == Range(lo, lo + Weight(w, op));
  }
}
