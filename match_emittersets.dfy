/** Matching of predicted emitters (outputs) against ground truth (targets):
    GreedyHungarianMatching (per-frame greedy pairing on a distance matrix)
    and NNMatching (1-nearest-neighbour with lateral and axial thresholds).
    Distances come from a supplied metric, so no square root is taken. */
module MatchEmitterSets {
  import opened Wrappers
  import opened EmitterSets
  import opened DistanceGrid

  /** Number of coordinates the matching compares. */
  type Dims = d: nat | d == 2 || d == 3 witness 2

  /** The distance between two points as the matcher computes it. */
  type Metric = (Xyz, Xyz) -> real

  /** The points compared when matching in `dims` dimensions: x, y (and z). */
  function Projected(p: Xyz, dims: Dims): Xyz {
    if dims == 2 then Xyz(p.x, p.y, 0.0) else p
  }

  /** The result of a matching: true positives, false positives, false
      negatives and the targets matched to the true positives. */
  datatype Assignment = Assignment(tp: EmitterSet, fp: EmitterSet, fn: EmitterSet, tpMatch: EmitterSet)

  // ---------------------------------------------------------------------------
  // Index helpers: `get_subset`, `np.arange`, `np.setdiff1d`

  predicate NoDup(s: seq<int>) {
    forall a, b :: 0 <= a < b < |s| ==> s[a] != s[b]
  }

  predicate Increasing(s: seq<int>) {
    forall a, b :: 0 <= a < b < |s| ==> s[a] < s[b]
  }

  function IndexRange(n: nat): (r: seq<nat>)
    ensures |r| == n && forall k :: 0 <= k < n ==> r[k] == k
  {
    seq(n, k requires 0 <= k < n => k)
  }

  /** `get_subset(ix)`: the records at the given indices, in that order, with
      the set's unit and pixel size. */
  function Subset(e: EmitterSet, ix: seq<int>): (r: EmitterSet)
    requires forall k :: 0 <= k < |ix| ==> 0 <= ix[k] < |e.emitters|
    ensures Len(r) == |ix| && r.xyUnit == e.xyUnit && r.pxSize == e.pxSize
    ensures forall k :: 0 <= k < |ix| ==> r.emitters[k] == e.emitters[ix[k]]
  {
    EmitterSet(seq(|ix|, k requires 0 <= k < |ix| => e.emitters[ix[k]]), e.xyUnit, e.pxSize)
  }

  lemma SubsetAll(e: EmitterSet)
    ensures Subset(e, IndexRange(Len(e))) == e
  {
    assert Subset(e, IndexRange(Len(e))).emitters == e.emitters;
  }

  /** `np.setdiff1d(np.arange(n), used)`: the indices below n that `used`
      does not contain, in ascending order. */
  function SetDiff(n: nat, used: seq<int>): (r: seq<nat>)
    ensures forall k :: 0 <= k < |r| ==> r[k] < n
  {
    if n == 0 then []
    else SetDiff(n - 1, used) + (if (n - 1) in used then [] else [n - 1])
  }

  /** The set difference holds exactly the indices below n missing from
      `used`, in ascending order. */
  lemma {:induction false} SetDiffMembers(n: nat, used: seq<int>)
    ensures forall i: nat :: i in SetDiff(n, used) <==> i < n && i !in used
    ensures Increasing(SetDiff(n, used))
  {
    if n > 0 {
      SetDiffMembers(n - 1, used);
    }
  }

  function ElemSet(s: seq<int>): set<int> {
    set x | x in s
  }

  lemma {:induction false} NoDupCard(s: seq<int>)
    requires NoDup(s)
    ensures |ElemSet(s)| == |s|
  {
    if s != [] {
      var init := s[..|s| - 1];
      NoDupCard(init);
      assert ElemSet(s) == ElemSet(init) + {s[|s| - 1]};
      assert s[|s| - 1] !in ElemSet(init);
    }
  }


  /** The set difference and the used indices share nothing, so together
      they count n when `used` lists distinct indices below n. */
  lemma SetDiffLength(n: nat, used: seq<int>)
    requires NoDup(used) && forall k :: 0 <= k < |used| ==> 0 <= used[k] < n
    ensures |SetDiff(n, used)| + |used| == n
  {
    var d := SetDiff(n, used);
    SetDiffMembers(n, used);
    NoDupCard(used);
    NoDupCard(d);
    NoDupCard(IndexRange(n));
    assert ElemSet(d) * ElemSet(used) == {};
    forall x | x in ElemSet(IndexRange(n)) ensures x in ElemSet(d) + ElemSet(used) {
      var i: nat := x;
      if i !in used { assert i in d; }
    }
    forall x | x in ElemSet(d) + ElemSet(used) ensures x in ElemSet(IndexRange(n)) {
      assert 0 <= x < n;
      assert IndexRange(n)[x] == x;
    }
    assert ElemSet(d) + ElemSet(used) == ElemSet(IndexRange(n));
  }

  // ---------------------------------------------------------------------------
  // GreedyHungarianMatching

  datatype GreedyMatcher = GreedyMatcher(distThresh: real, matchDims: Dims)

  const ExclusiveThresholdMsg: string := "You need to specify exactly exclusively either dist_lat or dist_vol."

  /** The constructor as written: exactly one threshold must be given, and
      both choices set two-dimensional matching. */
  function NewGreedyMatcherAsWritten(distLat: Option<real>, distVol: Option<real>): (r: Result<GreedyMatcher>)
    ensures r.Ok? <==> distLat.Some? != distVol.Some?
    ensures r.Err? ==> r.error == ValueError(ExclusiveThresholdMsg)
    ensures r.Ok? ==> r.value.distThresh == (if distLat.Some? then distLat.value else distVol.value)
    ensures r.Ok? ==> r.value.matchDims == 2
  {
    if distLat.Some? == distVol.Some? then Err(ValueError(ExclusiveThresholdMsg))
    else if distLat.Some? then Ok(GreedyMatcher(distLat.value, 2))
    else Ok(GreedyMatcher(distVol.value, 2))
  }

  /** The constructor with a volumetric threshold matching in three
      dimensions, as the names and the 3-D branch of the kernel intend. */
  function NewGreedyMatcher(distLat: Option<real>, distVol: Option<real>): (r: Result<GreedyMatcher>)
    ensures r.Ok? <==> distLat.Some? != distVol.Some?
    ensures r.Err? ==> r.error == ValueError(ExclusiveThresholdMsg)
    ensures r.Ok? ==> r.value.distThresh == (if distLat.Some? then distLat.value else distVol.value)
    ensures r.Ok? ==> (r.value.matchDims == 3 <==> distVol.Some?)
  {
    if distLat.Some? == distVol.Some? then Err(ValueError(ExclusiveThresholdMsg))
    else if distLat.Some? then Ok(GreedyMatcher(distLat.value, 2))
    else Ok(GreedyMatcher(distVol.value, 3))
  }

  /** With the constructor as written no matcher ever compares z, so the
      volumetric threshold is applied to lateral distances only. */
  lemma VolumetricThresholdIgnoresZ(t: real, a: Xyz, b: Xyz, dz: real)
    ensures NewGreedyMatcherAsWritten(None, Some(t)).value.matchDims == 2
    ensures NewGreedyMatcher(None, Some(t)).value.matchDims == 3
    ensures Projected(Xyz(a.x, a.y, a.z + dz), NewGreedyMatcherAsWritten(None, Some(t)).value.matchDims)
         == Projected(a, NewGreedyMatcherAsWritten(None, Some(t)).value.matchDims)
  {
  }

  /** The pairwise distance matrix `cdist(out.xyz, tar.xyz)` (on x, y only
      for 2-D matching). */
  function DistGrid(dims: Dims, out: seq<Emitter>, tar: seq<Emitter>, metric: Metric): (g: seq<seq<Dist>>)
    ensures |g| == |out| && forall i :: 0 <= i < |out| ==> |g[i]| == |tar|
  {
    seq(|out|, i requires 0 <= i < |out| =>
      seq(|tar|, j requires 0 <= j < |tar| =>
        Finite(metric(Projected(out[i].xyz, dims), Projected(tar[j].xyz, dims)))))
  }

  /** The pairs `rule_out_dist_match` commits for two non-empty sets. */
  function MatchList(m: GreedyMatcher, out: EmitterSet, tar: EmitterSet, metric: Metric): seq<IxPair>
    requires Len(out) > 0 && Len(tar) > 0
  {
    Greedy(DistGrid(m.matchDims, out.emitters, tar.emitters, metric), Len(tar), m.distThresh)
  }

  function Rows(ms: seq<IxPair>): (r: seq<int>)
    ensures |r| == |ms|
  {
    seq(|ms|, k requires 0 <= k < |ms| => ms[k].row as int)
  }

  function Cols(ms: seq<IxPair>): (r: seq<int>)
    ensures |r| == |ms|
  {
    seq(|ms|, k requires 0 <= k < |ms| => ms[k].col as int)
  }

  /** The matched pairs stay inside the matrix, use each output and each
      target once, and pair distances below the threshold. */
  lemma MatchListFacts(m: GreedyMatcher, out: EmitterSet, tar: EmitterSet, metric: Metric)
    requires Len(out) > 0 && Len(tar) > 0
    ensures forall k :: 0 <= k < |MatchList(m, out, tar, metric)| ==>
      && 0 <= Rows(MatchList(m, out, tar, metric))[k] < Len(out)
      && 0 <= Cols(MatchList(m, out, tar, metric))[k] < Len(tar)
      && metric(Projected(out.emitters[Rows(MatchList(m, out, tar, metric))[k]].xyz, m.matchDims),
                Projected(tar.emitters[Cols(MatchList(m, out, tar, metric))[k]].xyz, m.matchDims)) < m.distThresh
    ensures NoDup(Rows(MatchList(m, out, tar, metric))) && NoDup(Cols(MatchList(m, out, tar, metric)))
  {
    var g := DistGrid(m.matchDims, out.emitters, tar.emitters, metric);
    GreedyPairsDisjoint(g, Len(tar), m.distThresh);
  }

  /** The empty cases first (no outputs: all targets are false negatives; no
      targets: all outputs are false positives); otherwise the matched rows
      are the true positives, the other outputs the false positives, the
      matched columns the matched targets and the other targets the false
      negatives. Here an empty match list gives all outputs as false
      positives and all targets as false negatives. */
  function Kernel(m: GreedyMatcher, out: EmitterSet, tar: EmitterSet, metric: Metric): (a: Assignment)
    ensures Len(a.tp) == Len(a.tpMatch)
  {
    if Len(out) == 0 then Assignment(Empty(), Empty(), tar, Empty())
    else if Len(tar) == 0 then Assignment(Empty(), out, Empty(), Empty())
    else
      var ms := MatchList(m, out, tar, metric);
      Assignment(Subset(out, Rows(ms)), Subset(out, SetDiff(Len(out), Rows(ms))),
                 Subset(tar, SetDiff(Len(tar), Cols(ms))), Subset(tar, Cols(ms)))
  }

  /** `assign_kernel` as written: when both sets are non-empty but no pair
      is below the threshold, `torch.tensor([])` is one-dimensional and
      `match_ix[:, 0]` raises IndexError. */
  function KernelAsWritten(m: GreedyMatcher, out: EmitterSet, tar: EmitterSet, metric: Metric): (r: Result<Assignment>)
    ensures r.Err? <==> Len(out) > 0 && Len(tar) > 0 && MatchList(m, out, tar, metric) == []
    ensures r.Ok? ==> r.value == Kernel(m, out, tar, metric)
  {
    if Len(out) > 0 && Len(tar) > 0 && MatchList(m, out, tar, metric) == [] then Err(IndexError)
    else Ok(Kernel(m, out, tar, metric))
  }

  /** The absolute difference of the x coordinates, the Euclidean
      distance of points that differ in x only. */
  function XGap(p: Xyz, q: Xyz): real {
    if p.x <= q.x then q.x - p.x else p.x - q.x
  }

  lemma NoMatchWhenFar(z: real)
    ensures MatchList(GreedyMatcher(1.0, 2), EmitterSet([Emitter(Xyz(0.0, 0.0, z), 1.0, 0, UnsetId)], None, None),
                      EmitterSet([Emitter(Xyz(5.0, 0.0, z), 1.0, 0, UnsetId)], None, None), XGap) == []
  {
    var out := EmitterSet([Emitter(Xyz(0.0, 0.0, z), 1.0, 0, UnsetId)], None, None);
    var tar := EmitterSet([Emitter(Xyz(5.0, 0.0, z), 1.0, 0, UnsetId)], None, None);
    var g := DistGrid(2, out.emitters, tar.emitters, XGap);
    assert XGap(Projected(out.emitters[0].xyz, 2), Projected(tar.emitters[0].xyz, 2)) == 5.0;
    assert g[0][0] == Finite(5.0);
    assert g[0] == [Finite(5.0)];
    assert g == [[Finite(5.0)]];
    assert GridFirstMin(g, 1) == IxPair(0, 0);
  }

  /** One output and one target 5 apart with threshold 1: the kernel as
      written raises, the corrected kernel reports one false positive and
      one false negative. */
  lemma KernelNoMatchExample(z: real)
    ensures var out := EmitterSet([Emitter(Xyz(0.0, 0.0, z), 1.0, 0, UnsetId)], None, None);
            var tar := EmitterSet([Emitter(Xyz(5.0, 0.0, z), 1.0, 0, UnsetId)], None, None);
            && KernelAsWritten(GreedyMatcher(1.0, 2), out, tar, XGap) == Err(IndexError)
            && Kernel(GreedyMatcher(1.0, 2), out, tar, XGap) == Assignment(EmitterSet([], None, None), out, tar, EmitterSet([], None, None))
  {
    var out := EmitterSet([Emitter(Xyz(0.0, 0.0, z), 1.0, 0, UnsetId)], None, None);
    var tar := EmitterSet([Emitter(Xyz(5.0, 0.0, z), 1.0, 0, UnsetId)], None, None);
    NoMatchWhenFar(z);
    KernelOfNoMatch(GreedyMatcher(1.0, 2), out, tar, XGap);
  }

  /** A single output and a single target that are not matched. */
  lemma KernelOfNoMatch(m: GreedyMatcher, out: EmitterSet, tar: EmitterSet, metric: Metric)
    requires Len(out) == 1 && Len(tar) == 1 && out.xyUnit == None && out.pxSize == None
    requires tar.xyUnit == None && tar.pxSize == None
    requires MatchList(m, out, tar, metric) == []
    ensures KernelAsWritten(m, out, tar, metric) == Err(IndexError)
    ensures Kernel(m, out, tar, metric) == Assignment(EmitterSet([], None, None), out, tar, EmitterSet([], None, None))
  {
    assert SetDiff(1, []) == [0];
    assert Subset(out, [0]).emitters == out.emitters;
    assert Subset(tar, [0]).emitters == tar.emitters;
  }

  /** Outside the empty cases the kernel partitions the indices: every output
      is exactly one of true positive (paired, in order, with its matched
      target) or false positive; every target is exactly one of matched or
      false negative; the counts add up. */
  lemma KernelPartition(m: GreedyMatcher, out: EmitterSet, tar: EmitterSet, metric: Metric)
    requires Len(out) > 0 && Len(tar) > 0
    ensures var ms := MatchList(m, out, tar, metric);
      && (forall i: nat :: i < Len(out) ==> (i in Rows(ms) <==> i !in SetDiff(Len(out), Rows(ms))))
      && (forall j: nat :: j < Len(tar) ==> (j in Cols(ms) <==> j !in SetDiff(Len(tar), Cols(ms))))
      && NoDup(Rows(ms)) && NoDup(Cols(ms))
    ensures var a := Kernel(m, out, tar, metric);
      && Len(a.tp) + Len(a.fp) == Len(out)
      && Len(a.tpMatch) + Len(a.fn) == Len(tar)
      && Len(a.tp) == Len(a.tpMatch)
    ensures var a := Kernel(m, out, tar, metric);
      forall k :: 0 <= k < Len(a.tp) ==>
        metric(Projected(a.tp.emitters[k].xyz, m.matchDims), Projected(a.tpMatch.emitters[k].xyz, m.matchDims)) < m.distThresh
  {
    var ms := MatchList(m, out, tar, metric);
    MatchListFacts(m, out, tar, metric);
    SetDiffMembers(Len(out), Rows(ms));
    SetDiffMembers(Len(tar), Cols(ms));
    SetDiffLength(Len(out), Rows(ms));
    SetDiffLength(Len(tar), Cols(ms));
  }

  /** Empty inputs: no outputs makes every target a false negative, no
      targets makes every output a false positive. */
  lemma KernelEmptyCases(m: GreedyMatcher, out: EmitterSet, tar: EmitterSet, metric: Metric)
    ensures Len(out) == 0 ==>
      var a := Kernel(m, out, tar, metric);
      a.fn == tar && Len(a.tp) == 0 && Len(a.fp) == 0 && Len(a.tpMatch) == 0
    ensures Len(out) > 0 && Len(tar) == 0 ==>
      var a := Kernel(m, out, tar, metric);
      a.fp == out && Len(a.tp) == 0 && Len(a.fn) == 0 && Len(a.tpMatch) == 0
  {
  }

  /** `cdist(out.xyz, tar.xyz)` filled into a fresh matrix. */
  method NewDistances(dims: Dims, out: seq<Emitter>, tar: seq<Emitter>, metric: Metric) returns (dists: array2<Dist>)
    ensures fresh(dists) && dists.Length0 == |out| && dists.Length1 == |tar|
    ensures Grid(dists) == DistGrid(dims, out, tar, metric)
  {
    dists := new Dist[|out|, |tar|]((i, j) requires 0 <= i < |out| && 0 <= j < |tar| =>
      Finite(metric(Projected(out[i].xyz, dims), Projected(tar[j].xyz, dims))));
    ghost var g := DistGrid(dims, out, tar, metric);
    forall i | 0 <= i < |out| ensures Grid(dists)[i] == g[i] {
      assert forall j :: 0 <= j < |tar| ==> Grid(dists)[i][j] == g[i][j];
    }
  }

  /** `assign_kernel`: builds the distance matrix, runs the greedy loop on it
      and partitions the indices. */
  method AssignKernel(m: GreedyMatcher, out: EmitterSet, tar: EmitterSet, metric: Metric) returns (a: Assignment)
    ensures a == Kernel(m, out, tar, metric)
  {
    if Len(out) == 0 {
      return Assignment(Empty(), Empty(), tar, Empty());
    }
    if Len(tar) == 0 {
      return Assignment(Empty(), out, Empty(), Empty());
    }
    var dists := NewDistances(m.matchDims, out.emitters, tar.emitters, metric);
    var r := RuleOutDistMatch(dists, m.distThresh);
    var ms := r.value;
    a := Assignment(Subset(out, Rows(ms)), Subset(out, SetDiff(Len(out), Rows(ms))),
                    Subset(tar, SetDiff(Len(tar), Cols(ms))), Subset(tar, Cols(ms)));
  }

  // ---------------------------------------------------------------------------
  // GreedyHungarianMatching.forward

  /** How `split_in_frames(lo, hi)` treats hi: the generation this matcher
      was written for includes frame hi; the current EmitterSet excludes it. */
  datatype SplitConvention = Inclusive | HalfOpen

  /** The end of the frame window passed on to `split_in_frames`. */
  function SplitEnd(hi: int, c: SplitConvention): int {
    if c.Inclusive? then hi + 1 else hi
  }

  function SplitFor(e: EmitterSet, lo: int, hi: int, c: SplitConvention): seq<EmitterSet> {
    SplitInFrames(e, lo, SplitEnd(hi, c))
  }

  function MinFrame(s: seq<Emitter>): (f: int)
    requires |s| > 0
    ensures forall i :: 0 <= i < |s| ==> f <= s[i].frameIx
  {
    if |s| == 1 then s[0].frameIx
    else var f := MinFrame(s[1..]); if s[0].frameIx < f then s[0].frameIx else f
  }

  function MaxFrame(s: seq<Emitter>): (f: int)
    requires |s| > 0
    ensures forall i :: 0 <= i < |s| ==> s[i].frameIx <= f
  {
    if |s| == 1 then s[0].frameIx
    else var f := MaxFrame(s[1..]); if s[0].frameIx > f then s[0].frameIx else f
  }

  function Tps(rs: seq<Assignment>): seq<EmitterSet> { seq(|rs|, k requires 0 <= k < |rs| => rs[k].tp) }
  function Fps(rs: seq<Assignment>): seq<EmitterSet> { seq(|rs|, k requires 0 <= k < |rs| => rs[k].fp) }
  function Fns(rs: seq<Assignment>): seq<EmitterSet> { seq(|rs|, k requires 0 <= k < |rs| => rs[k].fn) }
  function TpMatches(rs: seq<Assignment>): seq<EmitterSet> { seq(|rs|, k requires 0 <= k < |rs| => rs[k].tpMatch) }

  lemma ListsGrow(rs: seq<Assignment>, i: nat)
    requires i < |rs|
    ensures Tps(rs[..i + 1]) == Tps(rs[..i]) + [rs[i].tp] && Fps(rs[..i + 1]) == Fps(rs[..i]) + [rs[i].fp]
    ensures Fns(rs[..i + 1]) == Fns(rs[..i]) + [rs[i].fn] && TpMatches(rs[..i + 1]) == TpMatches(rs[..i]) + [rs[i].tpMatch]
  {
    assert rs[..i + 1] == rs[..i] + [rs[i]];
    ListsSnoc(rs[..i], rs[i]);
  }

  lemma ListsSnoc(rs: seq<Assignment>, a: Assignment)
    ensures Tps(rs + [a]) == Tps(rs) + [a.tp] && Fps(rs + [a]) == Fps(rs) + [a.fp]
    ensures Fns(rs + [a]) == Fns(rs) + [a.fn] && TpMatches(rs + [a]) == TpMatches(rs) + [a.tpMatch]
  {
  }

  /** `cat_emittersets(sets)` without frame shift. */
  function CatAll(sets: seq<EmitterSet>): (r: EmitterSet)
    ensures Len(r) == TotalLen(sets)
  {
    FlattenLength(Records(sets), sets);
    EmitterSet(Flatten(Records(sets)), FirstUnit(sets), FirstPxSize(sets))
  }

  /** CatAll is `cat_emittersets` without a frame shift. */
  lemma CatAllIsCat(sets: seq<EmitterSet>)
    ensures Cat(sets, None, None) == Ok(CatAll(sets))
  {
    CatUnshifted(sets);
  }

  predicate AllUnset(e: EmitterSet) {
    forall k :: 0 <= k < Len(e) ==> e.emitters[k].id == UnsetId
  }

  /** The set with its id column replaced. */
  function WithIds(e: EmitterSet, ids: seq<int>): (r: EmitterSet)
    requires |ids| == Len(e)
    ensures Len(r) == Len(e) && r.xyUnit == e.xyUnit && r.pxSize == e.pxSize
    ensures forall k :: 0 <= k < Len(e) ==> r.emitters[k] == e.emitters[k].(id := ids[k])
  {
    EmitterSet(seq(Len(e), k requires 0 <= k < Len(e) => e.emitters[k].(id := ids[k])), e.xyUnit, e.pxSize)
  }

  /** The per-frame kernel results, frame by frame. */
  function Kernels(m: GreedyMatcher, outP: seq<EmitterSet>, tarP: seq<EmitterSet>, metric: Metric): (rs: seq<Assignment>)
    requires |outP| == |tarP|
    ensures |rs| == |outP|
    ensures forall k :: 0 <= k < |rs| ==> Len(rs[k].tp) == Len(rs[k].tpMatch)
  {
    seq(|outP|, i requires 0 <= i < |outP| => Kernel(m, outP[i], tarP[i], metric))
  }

  lemma {:induction false} KernelsPairLengths(rs: seq<Assignment>)
    requires forall k :: 0 <= k < |rs| ==> Len(rs[k].tp) == Len(rs[k].tpMatch)
    ensures TotalLen(Tps(rs)) == TotalLen(TpMatches(rs))
  {
    if rs != [] {
      KernelsPairLengths(rs[..|rs| - 1]);
      assert Tps(rs)[..|rs| - 1] == Tps(rs[..|rs| - 1]);
      assert TpMatches(rs)[..|rs| - 1] == TpMatches(rs[..|rs| - 1]);
    }
  }

  /** The per-frame kernel results over the frames lo..end-1: both sets
      split per frame, matched frame by frame. */
  function WindowKernels(m: GreedyMatcher, output: EmitterSet, target: EmitterSet, metric: Metric, lo: int, end: int)
    : (rs: seq<Assignment>)
  {
    Kernels(m, SplitInFrames(output, lo, end), SplitInFrames(target, lo, end), metric)
  }

  /** The per-frame kernel results of `forward`: the window is the targets'
      frame range, its end set by the split convention. */
  function ForwardKernels(m: GreedyMatcher, output: EmitterSet, target: EmitterSet, metric: Metric, c: SplitConvention)
    : (rs: seq<Assignment>)
    requires Len(target) > 0
  {
    WindowKernels(m, output, target, metric, MinFrame(target.emitters), SplitEnd(MaxFrame(target.emitters), c))
  }

  /** Every kernel result pairs as many true positives as matched targets
      and splits its outputs and its targets. */
  lemma KernelLengths(m: GreedyMatcher, out: EmitterSet, tar: EmitterSet, metric: Metric)
    ensures var a := Kernel(m, out, tar, metric);
      && Len(a.tp) == Len(a.tpMatch)
      && Len(a.tp) + Len(a.fp) == Len(out)
      && Len(a.tpMatch) + Len(a.fn) == Len(tar)
  {
    if Len(out) > 0 && Len(tar) > 0 {
      KernelPartition(m, out, tar, metric);
    }
  }

  lemma KernelsAgree(m: GreedyMatcher, outP: seq<EmitterSet>, tarP: seq<EmitterSet>, metric: Metric)
    requires |outP| == |tarP|
    ensures forall k :: 0 <= k < |outP| ==>
      && Len(Kernels(m, outP, tarP, metric)[k].tp) == Len(Kernels(m, outP, tarP, metric)[k].tpMatch)
      && Len(Kernels(m, outP, tarP, metric)[k].tp) + Len(Kernels(m, outP, tarP, metric)[k].fp) == Len(outP[k])
      && Len(Kernels(m, outP, tarP, metric)[k].tpMatch) + Len(Kernels(m, outP, tarP, metric)[k].fn) == Len(tarP[k])
  {
    forall k | 0 <= k < |outP| {
      KernelLengths(m, outP[k], tarP[k], metric);
    }
  }

  /** The matched targets, numbered 0..n-1 when none had an id. */
  function NumberedIfUnset(tpMatch: EmitterSet): (r: EmitterSet)
    ensures Len(r) == Len(tpMatch)
  {
    if AllUnset(tpMatch) then WithIds(tpMatch, IndexRange(Len(tpMatch))) else tpMatch
  }

  /** The end of `forward`: concatenate the per-frame results in frame order
      and give the true positives the ids of their matched targets. */
  function Combine(rs: seq<Assignment>): (r: Assignment)
    requires TotalLen(Tps(rs)) == TotalLen(TpMatches(rs))
    ensures Len(r.tp) == TotalLen(Tps(rs)) && Len(r.fp) == TotalLen(Fps(rs))
    ensures Len(r.fn) == TotalLen(Fns(rs)) && Len(r.tpMatch) == TotalLen(TpMatches(rs))
  {
    var tpMatch := NumberedIfUnset(CatAll(TpMatches(rs)));
    Assignment(WithIds(CatAll(Tps(rs)), IdColumn(tpMatch)), CatAll(Fps(rs)), CatAll(Fns(rs)), tpMatch)
  }

  /** `forward` as a function of its inputs. */
  function ForwardSpec(m: GreedyMatcher, output: EmitterSet, target: EmitterSet, metric: Metric, c: SplitConvention): Assignment
    requires Len(target) > 0
  {
    var rs := ForwardKernels(m, output, target, metric, c);
    KernelsPairLengths(rs);
    Combine(rs)
  }

  /** The loop of `forward`: the kernel on each frame, its four results
      appended to four lists. */
  method MatchFrames(m: GreedyMatcher, outP: seq<EmitterSet>, tarP: seq<EmitterSet>, metric: Metric)
    returns (tpl: seq<EmitterSet>, fpl: seq<EmitterSet>, fnl: seq<EmitterSet>, tpml: seq<EmitterSet>)
    requires |outP| == |tarP|
    ensures var rs := Kernels(m, outP, tarP, metric);
      tpl == Tps(rs) && fpl == Fps(rs) && fnl == Fns(rs) && tpml == TpMatches(rs)
  {
    tpl, fpl, fnl, tpml := [], [], [], [];
    ghost var rs := Kernels(m, outP, tarP, metric);
    for i := 0 to |outP|
      invariant tpl == Tps(rs[..i]) && fpl == Fps(rs[..i]) && fnl == Fns(rs[..i]) && tpml == TpMatches(rs[..i])
    {
      var a := AssignKernel(m, outP[i], tarP[i], metric);
      assert a == rs[i];
      ListsGrow(rs, i);
      tpl, fpl, fnl, tpml := tpl + [a.tp], fpl + [a.fp], fnl + [a.fn], tpml + [a.tpMatch];
    }
    assert rs[..|outP|] == rs;
  }

  /** `GreedyHungarianMatching.forward`; `min()` of the frame indices of an
      empty target raises. */
  method Forward(m: GreedyMatcher, output: EmitterSet, target: EmitterSet, metric: Metric, c: SplitConvention)
    returns (r: Result<Assignment>)
    ensures Len(target) == 0 ==> r.Err? && r.error.RuntimeError?
    ensures Len(target) > 0 ==> r == Ok(ForwardSpec(m, output, target, metric, c))
  {
    if Len(target) == 0 {
      return Err(RuntimeError("min(): Expected reduction dim to be specified for input.numel() == 0."));
    }
    var lo, hi := MinFrame(target.emitters), MaxFrame(target.emitters);
    var outP, tarP := SplitFor(output, lo, hi, c), SplitFor(target, lo, hi, c);
    var tpl, fpl, fnl, tpml := MatchFrames(m, outP, tarP, metric);
    ghost var rs := Kernels(m, outP, tarP, metric);
    assert rs == ForwardKernels(m, output, target, metric, c);
    KernelsAgree(m, outP, tarP, metric);
    KernelsPairLengths(rs);
    assert ForwardSpec(m, output, target, metric, c) == Combine(rs);
    var tp, fp, fn, tpMatch := CatAll(tpl), CatAll(fpl), CatAll(fnl), CatAll(tpml);
    if AllUnset(tpMatch) {
      tpMatch := WithIds(tpMatch, IndexRange(Len(tpMatch)));
    }
    assert tpMatch == NumberedIfUnset(CatAll(tpml));
    tp := WithIds(tp, IdColumn(tpMatch));
    return Ok(Assignment(tp, fp, fn, tpMatch));
  }

  /** A frame with outputs and targets but no pair below the threshold:
      `assign_kernel` as written raises on it. */
  predicate NoPairFrame(m: GreedyMatcher, out: EmitterSet, tar: EmitterSet, metric: Metric) {
    Len(out) > 0 && Len(tar) > 0 && MatchList(m, out, tar, metric) == []
  }

  /** Whether some frame of the split is a no-pair frame. */
  function BrokenFrame(m: GreedyMatcher, outP: seq<EmitterSet>, tarP: seq<EmitterSet>, metric: Metric): (b: bool)
    requires |outP| == |tarP|
    ensures b <==> exists k :: 0 <= k < |outP| && NoPairFrame(m, outP[k], tarP[k], metric)
    decreases |outP|
  {
    if outP == [] then false
    else
      var rest := BrokenFrame(m, outP[1..], tarP[1..], metric);
      assert rest <==> exists k :: 1 <= k < |outP| && NoPairFrame(m, outP[k], tarP[k], metric) by {
        if rest {
          var k :| 0 <= k < |outP[1..]| && NoPairFrame(m, outP[1..][k], tarP[1..][k], metric);
          assert outP[k + 1] == outP[1..][k] && tarP[k + 1] == tarP[1..][k];
        }
        if exists k :: 1 <= k < |outP| && NoPairFrame(m, outP[k], tarP[k], metric) {
          var k :| 1 <= k < |outP| && NoPairFrame(m, outP[k], tarP[k], metric);
          assert outP[1..][k - 1] == outP[k] && tarP[1..][k - 1] == tarP[k];
        }
      }
      NoPairFrame(m, outP[0], tarP[0], metric) || rest
  }

  /** `GreedyHungarianMatching.forward` as written: an empty target raises
      in `min()`, and otherwise the loop over frames raises IndexError on
      the first frame whose outputs and targets have no pair below the
      threshold (Finding 1); with no such frame it is `forward` with the
      corrected kernel. */
  function ForwardAsWritten(m: GreedyMatcher, output: EmitterSet, target: EmitterSet, metric: Metric, c: SplitConvention)
    : (r: Result<Assignment>)
    ensures Len(target) == 0 ==> r.Err? && r.error.RuntimeError?
    ensures Len(target) > 0 ==>
      var outP := SplitFor(output, MinFrame(target.emitters), MaxFrame(target.emitters), c);
      var tarP := SplitFor(target, MinFrame(target.emitters), MaxFrame(target.emitters), c);
      && |outP| == |tarP|
      && (r == Err(IndexError) <==> exists k :: 0 <= k < |outP| && NoPairFrame(m, outP[k], tarP[k], metric))
      && (r != Err(IndexError) ==> r == Ok(ForwardSpec(m, output, target, metric, c)))
  {
    if Len(target) == 0 then Err(RuntimeError("min(): Expected reduction dim to be specified for input.numel() == 0."))
    else
      var lo, hi := MinFrame(target.emitters), MaxFrame(target.emitters);
      if BrokenFrame(m, SplitFor(output, lo, hi, c), SplitFor(target, lo, hi, c), metric) then Err(IndexError)
      else Ok(ForwardSpec(m, output, target, metric, c))
  }

  /** True positives and matched targets share their ids, position by
      position; when no matched target had an id they are numbered 0..n-1. */
  lemma CombineIdsAligned(rs: seq<Assignment>)
    requires TotalLen(Tps(rs)) == TotalLen(TpMatches(rs))
    ensures Len(Combine(rs).tp) == Len(Combine(rs).tpMatch)
    ensures forall k :: 0 <= k < Len(Combine(rs).tp) ==> Combine(rs).tp.emitters[k].id == Combine(rs).tpMatch.emitters[k].id
    ensures AllUnset(CatAll(TpMatches(rs))) ==>
      forall k :: 0 <= k < Len(Combine(rs).tpMatch) ==> Combine(rs).tpMatch.emitters[k].id == k
  {
  }

  /** Sum of the per-frame set sizes. */
  lemma {:induction false} SplitTotalLen(e: EmitterSet, lo: int, hi: int)
    requires lo <= hi
    ensures TotalLen(SplitInFrames(e, lo, hi)) == |FramesIn(e.emitters, lo, hi)|
    decreases hi - lo
  {
    if lo < hi {
      var p := SplitInFrames(e, lo, hi);
      assert TotalLen(p) == TotalLen(SplitInFrames(e, lo, hi - 1)) + Len(AtFrame(e, hi - 1)) by {
        assert p[..|p| - 1] == SplitInFrames(e, lo, hi - 1);
      }
      SplitTotalLen(e, lo, hi - 1);
      FramesInSplitLength(e.emitters, lo, hi - 1, hi);
    } else {
      FramesInSplitLength(e.emitters, lo, lo, lo);
    }
  }

  lemma KernelsTotals(rs: seq<Assignment>, outP: seq<EmitterSet>, tarP: seq<EmitterSet>)
    requires |rs| == |outP| == |tarP|
    requires forall k :: 0 <= k < |rs| ==>
      Len(rs[k].tp) + Len(rs[k].fp) == Len(outP[k]) && Len(rs[k].tpMatch) + Len(rs[k].fn) == Len(tarP[k])
    ensures TotalLen(Tps(rs)) + TotalLen(Fps(rs)) == TotalLen(outP)
    ensures TotalLen(TpMatches(rs)) + TotalLen(Fns(rs)) == TotalLen(tarP)
  {
    TotalsAdd(Tps(rs), Fps(rs), outP);
    TotalsAdd(TpMatches(rs), Fns(rs), tarP);
  }

  /** Set sizes that add up position by position add up in total. */
  lemma {:induction false} TotalsAdd(a: seq<EmitterSet>, b: seq<EmitterSet>, c: seq<EmitterSet>)
    requires |a| == |b| == |c|
    requires forall k :: 0 <= k < |a| ==> Len(a[k]) + Len(b[k]) == Len(c[k])
    ensures TotalLen(a) + TotalLen(b) == TotalLen(c)
  {
    if a != [] {
      var n := |a| - 1;
      TotalsAdd(a[..n], b[..n], c[..n]);
    }
  }

  /** Matching the frames lo..hi-1 one by one accounts for every record of
      both sets in that window. */
  lemma WindowCounts(m: GreedyMatcher, output: EmitterSet, target: EmitterSet, metric: Metric, lo: int, hi: int)
    requires lo <= hi
    ensures var rs := WindowKernels(m, output, target, metric, lo, hi);
      && TotalLen(Tps(rs)) == TotalLen(TpMatches(rs))
      && TotalLen(Tps(rs)) + TotalLen(Fps(rs)) == |FramesIn(output.emitters, lo, hi)|
      && TotalLen(TpMatches(rs)) + TotalLen(Fns(rs)) == |FramesIn(target.emitters, lo, hi)|
  {
    var outP, tarP := SplitInFrames(output, lo, hi), SplitInFrames(target, lo, hi);
    var rs := Kernels(m, outP, tarP, metric);
    KernelsAgree(m, outP, tarP, metric);
    KernelsPairLengths(rs);
    KernelsTotals(rs, outP, tarP);
    SplitTotalLen(output, lo, hi);
    SplitTotalLen(target, lo, hi);
  }

  /** The inclusive window of the targets' frames is not empty and holds
      every target. */
  lemma TargetWindowHoldsAll(target: EmitterSet)
    requires Len(target) > 0
    ensures MinFrame(target.emitters) <= MaxFrame(target.emitters)
    ensures |FramesIn(target.emitters, MinFrame(target.emitters), MaxFrame(target.emitters) + 1)| == Len(target)
  {
    assert MinFrame(target.emitters) <= target.emitters[0].frameIx <= MaxFrame(target.emitters);
    AllFramesInWindowSeq(target.emitters, MinFrame(target.emitters), MaxFrame(target.emitters) + 1);
  }

  /** The per-frame results of `forward` with the inclusive split account
      for every record of both sets in the targets' frame range lo..hi. */
  lemma InclusiveTotals(m: GreedyMatcher, output: EmitterSet, target: EmitterSet, metric: Metric, lo: int, hi: int)
    requires Len(target) > 0 && lo == MinFrame(target.emitters) && hi == MaxFrame(target.emitters)
    ensures var rs := ForwardKernels(m, output, target, metric, Inclusive);
      && TotalLen(Tps(rs)) + TotalLen(Fps(rs)) == |FramesIn(output.emitters, lo, hi + 1)|
      && TotalLen(TpMatches(rs)) + TotalLen(Fns(rs)) == Len(target)
  {
    InclusiveWindow(m, output, target, metric, lo, hi);
    WindowCounts(m, output, target, metric, lo, hi + 1);
  }

  /** The inclusive split covers exactly the frames `MinFrame .. MaxFrame`
      of the target, and every target lies in that window. */
  lemma InclusiveWindow(m: GreedyMatcher, output: EmitterSet, target: EmitterSet, metric: Metric, lo: int, hi: int)
    requires Len(target) > 0 && lo == MinFrame(target.emitters) && hi == MaxFrame(target.emitters)
    ensures lo <= hi && |FramesIn(target.emitters, lo, hi + 1)| == Len(target)
    ensures ForwardKernels(m, output, target, metric, Inclusive) == WindowKernels(m, output, target, metric, lo, hi + 1)
  {
    TargetWindowHoldsAll(target);
  }

  /** The four sets of `forward` are as long as the per-frame results
      they concatenate. */
  lemma ForwardSpecLengths(m: GreedyMatcher, output: EmitterSet, target: EmitterSet, metric: Metric, c: SplitConvention)
    requires Len(target) > 0
    ensures var a := ForwardSpec(m, output, target, metric, c);
      var rs := ForwardKernels(m, output, target, metric, c);
      && Len(a.tp) + Len(a.fp) == TotalLen(Tps(rs)) + TotalLen(Fps(rs))
      && Len(a.tpMatch) + Len(a.fn) == TotalLen(TpMatches(rs)) + TotalLen(Fns(rs))
  {
  }

  /** With the inclusive split every target is accounted for exactly once:
      matched targets plus false negatives give the number of targets, and
      true plus false positives give the number of outputs whose frame lies
      in the targets' frame range lo..hi. */
  lemma ForwardCounts(m: GreedyMatcher, output: EmitterSet, target: EmitterSet, metric: Metric, lo: int, hi: int)
    requires Len(target) > 0 && lo == MinFrame(target.emitters) && hi == MaxFrame(target.emitters)
    ensures var a := ForwardSpec(m, output, target, metric, Inclusive);
      && Len(a.tpMatch) + Len(a.fn) == Len(target)
      && Len(a.tp) + Len(a.fp) == |FramesIn(output.emitters, lo, hi + 1)|
  {
    InclusiveTotals(m, output, target, metric, lo, hi);
    ForwardSpecLengths(m, output, target, metric, Inclusive);
  }

  // ---------------------------------------------------------------------------
  // NNMatching

  datatype NNMatcher = NNMatcher(distLat: real, distAx: real, matchDims: Dims)

  /** `NNMatching(dist_lat, dist_ax, match_dims)`; the defaults are 2.5,
      500 and 3. */
  function NewNNMatcher(distLat: real, distAx: real, matchDims: int): (r: Result<NNMatcher>)
    ensures r.Ok? <==> matchDims == 2 || matchDims == 3
    ensures r.Err? ==> r.error == ValueError("You must compare in either 2 or 3 dimensions.")
    ensures r.Ok? ==> r.value.distLat == distLat && r.value.distAx == distAx && r.value.matchDims == matchDims
  {
    if matchDims != 2 && matchDims != 3 then Err(ValueError("You must compare in either 2 or 3 dimensions."))
    else Ok(NNMatcher(distLat, distAx, matchDims))
  }

  function NNDist(dims: Dims, metric: Metric, o: Xyz, t: Emitter): real {
    metric(Projected(o, dims), Projected(t.xyz, dims))
  }

  /** The nearest target: the first one at the smallest distance. */
  function Nearest(dims: Dims, metric: Metric, o: Xyz, tar: seq<Emitter>): (j: nat)
    requires |tar| > 0
    ensures j < |tar|
    ensures forall k :: 0 <= k < |tar| ==> NNDist(dims, metric, o, tar[j]) <= NNDist(dims, metric, o, tar[k])
    ensures forall k :: 0 <= k < j ==> NNDist(dims, metric, o, tar[j]) < NNDist(dims, metric, o, tar[k])
  {
    if |tar| == 1 then 0
    else
      var j := Nearest(dims, metric, o, tar[..|tar| - 1]);
      var last := |tar| - 1;
      if NNDist(dims, metric, o, tar[last]) < NNDist(dims, metric, o, tar[j]) then last else j
  }

  /** Lateral Euclidean distance at most `th`, without a square root. */
  predicate LateralWithin(a: Xyz, b: Xyz, th: real) {
    th >= 0.0 && (a.x - b.x) * (a.x - b.x) + (a.y - b.y) * (a.y - b.y) <= th * th
  }

  predicate AxialWithin(a: Xyz, b: Xyz, th: real) {
    (if a.z <= b.z then b.z - a.z else a.z - b.z) <= th
  }

  /** An output is a true positive when its nearest target is within the
      lateral threshold, and in 3-D also within the axial one. */
  predicate Accepts(m: NNMatcher, o: Xyz, t: Xyz) {
    LateralWithin(o, t, m.distLat) && (m.matchDims == 3 ==> AxialWithin(o, t, m.distAx))
  }

  /** For each output, its nearest target if accepted, else -1. */
  function Claims(m: NNMatcher, metric: Metric, out: seq<Emitter>, tar: seq<Emitter>): (c: seq<int>)
    requires |tar| > 0
    ensures |c| == |out|
    ensures forall i :: 0 <= i < |out| ==> c[i] == -1 || 0 <= c[i] < |tar|
  {
    seq(|out|, i requires 0 <= i < |out| => Claim(m, metric, out[i].xyz, tar))
  }

  /** The claim of one output: its nearest target if accepted, else -1. */
  function Claim(m: NNMatcher, metric: Metric, o: Xyz, tar: seq<Emitter>): (c: int)
    requires |tar| > 0
    ensures c == -1 || 0 <= c < |tar|
  {
    var j := Nearest(m.matchDims, metric, o, tar);
    if Accepts(m, o, tar[j].xyz) then j as int else -1
  }

  /** Positions whose claim is kept (`is_tp`), ascending. */
  function KeptIx(c: seq<int>): (r: seq<int>)
    ensures forall k :: 0 <= k < |r| ==> 0 <= r[k] < |c| && c[r[k]] != -1
  {
    if c == [] then []
    else KeptIx(c[..|c| - 1]) + (if c[|c| - 1] != -1 then [|c| - 1] else [])
  }

  /** Positions whose claim was cleared (`is_fp`), ascending. */
  function ClearedIx(c: seq<int>): (r: seq<int>)
    ensures forall k :: 0 <= k < |r| ==> 0 <= r[k] < |c| && c[r[k]] == -1
  {
    if c == [] then []
    else ClearedIx(c[..|c| - 1]) + (if c[|c| - 1] == -1 then [|c| - 1] else [])
  }

  /** Every position with a kept claim is listed by KeptIx, every other one
      by ClearedIx, both ascending, and together they list them all. */
  lemma KeptClearedMembers(c: seq<int>)
    ensures forall i :: 0 <= i < |c| && c[i] != -1 ==> i in KeptIx(c)
    ensures forall i :: 0 <= i < |c| && c[i] == -1 ==> i in ClearedIx(c)
    ensures Increasing(KeptIx(c)) && Increasing(ClearedIx(c))
    ensures |KeptIx(c)| + |ClearedIx(c)| == |c|
  {
    KeptListed(c);
    ClearedListed(c);
    KeptClearedCount(c);
  }

  lemma {:induction false} KeptListed(c: seq<int>)
    ensures forall i :: 0 <= i < |c| && c[i] != -1 ==> i in KeptIx(c)
    ensures Increasing(KeptIx(c))
  {
    if c != [] {
      var init := c[..|c| - 1];
      KeptListed(init);
      assert forall i :: 0 <= i < |init| ==> c[i] == init[i];
      var r := KeptIx(init);
      assert forall k :: 0 <= k < |r| ==> r[k] < |c| - 1;
    }
  }

  lemma {:induction false} ClearedListed(c: seq<int>)
    ensures forall i :: 0 <= i < |c| && c[i] == -1 ==> i in ClearedIx(c)
    ensures Increasing(ClearedIx(c))
  {
    if c != [] {
      var init := c[..|c| - 1];
      ClearedListed(init);
      assert forall i :: 0 <= i < |init| ==> c[i] == init[i];
      var r := ClearedIx(init);
      assert forall k :: 0 <= k < |r| ==> r[k] < |c| - 1;
    }
  }

  lemma {:induction false} KeptClearedCount(c: seq<int>)
    ensures |KeptIx(c)| + |ClearedIx(c)| == |c|
  {
    if c != [] {
      KeptClearedCount(c[..|c| - 1]);
    }
  }

  /** `indices[indices != -1]`: the kept claims in output order. */
  function KeptClaims(c: seq<int>): (r: seq<int>)
    ensures |r| == |KeptIx(c)|
  {
    seq(|KeptIx(c)|, k requires 0 <= k < |KeptIx(c)| => c[KeptIx(c)[k]])
  }

  function NNResult(out: EmitterSet, tar: EmitterSet, c: seq<int>): Assignment
    requires |c| == Len(out) && forall i :: 0 <= i < |c| ==> c[i] == -1 || 0 <= c[i] < Len(tar)
  {
    Assignment(Subset(out, KeptIx(c)), Subset(out, ClearedIx(c)),
               Subset(tar, SetDiff(Len(tar), c)), Subset(tar, KeptClaims(c)))
  }

  /** `NNMatching.forward` as a function of its inputs. */
  function NNSpec(m: NNMatcher, metric: Metric, output: EmitterSet, target: EmitterSet): Assignment {
    if Len(output) == 0 then Assignment(Empty(), Empty(), target, Empty())
    else if Len(target) == 0 then Assignment(Empty(), output, Empty(), Empty())
    else NNResult(output, target, Claims(m, metric, output.emitters, target.emitters))
  }

  /** `NNMatching.forward`: query the nearest target of every output, write
      -1 over the rejected ones in place, then select. */
  method NNForward(m: NNMatcher, metric: Metric, output: EmitterSet, target: EmitterSet) returns (a: Assignment)
    ensures a == NNSpec(m, metric, output, target)
  {
    if Len(output) == 0 {
      return Assignment(Empty(), Empty(), target, Empty());
    }
    if Len(target) == 0 {
      return Assignment(Empty(), output, Empty(), Empty());
    }
    var out, tar := output.emitters, target.emitters;
    var indices := new int[|out|](i requires 0 <= i < |out| => Nearest(m.matchDims, metric, out[i].xyz, tar) as int);
    ClearRejected(m, metric, out, tar, indices);
    a := NNResult(output, target, indices[..]);
  }

  /** `indices[~is_tp] = -1`: overwrites, in place, the nearest-target index
      of every output whose nearest target is rejected. */
  method ClearRejected(m: NNMatcher, metric: Metric, out: seq<Emitter>, tar: seq<Emitter>, indices: array<int>)
    requires |tar| > 0 && indices.Length == |out|
    requires forall k :: 0 <= k < |out| ==> indices[k] == Nearest(m.matchDims, metric, out[k].xyz, tar)
    modifies indices
    ensures indices[..] == Claims(m, metric, out, tar)
  {
    var i := 0;
    while i < indices.Length
      invariant 0 <= i <= indices.Length
      invariant forall k :: 0 <= k < i ==> indices[k] == Claim(m, metric, out[k].xyz, tar)
      invariant forall k :: i <= k < indices.Length ==> indices[k] == Nearest(m.matchDims, metric, out[k].xyz, tar)
    {
      if !Accepts(m, out[i].xyz, tar[indices[i]].xyz) {
        indices[i] := -1;
      }
      i := i + 1;
    }
    assert indices[..] == Claims(m, metric, out, tar);
  }

  /** Every position is kept or cleared, never both, according to its
      claim; kept claim k belongs to kept position k. */
  lemma KeptClearedSplit(c: seq<int>)
    ensures forall i :: 0 <= i < |c| ==> (i in KeptIx(c) <==> c[i] != -1) && (i in ClearedIx(c) <==> c[i] == -1)
    ensures |KeptIx(c)| + |ClearedIx(c)| == |c|
  {
    KeptClearedMembers(c);
    forall i | 0 <= i < |c| ensures (i in KeptIx(c) <==> c[i] != -1) && (i in ClearedIx(c) <==> c[i] == -1) {
      if i in KeptIx(c) {
        var k :| 0 <= k < |KeptIx(c)| && KeptIx(c)[k] == i;
      }
      if i in ClearedIx(c) {
        var k :| 0 <= k < |ClearedIx(c)| && ClearedIx(c)[k] == i;
      }
    }
  }

  /** Outside the empty cases: an output is a true positive exactly when its
      nearest target passes the thresholds and a false positive otherwise;
      true positive k is paired with the nearest target of that output; a
      target is a false negative exactly when no accepted output claims it. */
  lemma NNPartition(m: NNMatcher, metric: Metric, output: EmitterSet, target: EmitterSet)
    requires Len(output) > 0 && Len(target) > 0
    ensures var c := Claims(m, metric, output.emitters, target.emitters);
      forall i :: 0 <= i < Len(output) ==>
        && (i in KeptIx(c) <==> Accepts(m, output.emitters[i].xyz,
              target.emitters[Nearest(m.matchDims, metric, output.emitters[i].xyz, target.emitters)].xyz))
        && (i in ClearedIx(c) <==> i !in KeptIx(c))
    ensures var a := NNSpec(m, metric, output, target);
      Len(a.tp) + Len(a.fp) == Len(output) && Len(a.tp) == Len(a.tpMatch)
    ensures var a := NNSpec(m, metric, output, target);
      forall k :: 0 <= k < Len(a.tp) ==>
        a.tpMatch.emitters[k] == target.emitters[Nearest(m.matchDims, metric, a.tp.emitters[k].xyz, target.emitters)]
    ensures var c := Claims(m, metric, output.emitters, target.emitters);
      forall j: nat :: j < Len(target) ==>
        (j in SetDiff(Len(target), c) <==> forall i :: 0 <= i < Len(output) ==> c[i] != j)
  {
    NNKeptIff(m, metric, output, target);
    NNSizes(m, metric, output, target);
    NNPairs(m, metric, output, target);
    NNMissed(m, metric, output, target);
  }

  lemma NNKeptIff(m: NNMatcher, metric: Metric, output: EmitterSet, target: EmitterSet)
    requires Len(output) > 0 && Len(target) > 0
    ensures var c := Claims(m, metric, output.emitters, target.emitters);
      forall i :: 0 <= i < Len(output) ==>
        && (i in KeptIx(c) <==> Accepts(m, output.emitters[i].xyz,
              target.emitters[Nearest(m.matchDims, metric, output.emitters[i].xyz, target.emitters)].xyz))
        && (i in ClearedIx(c) <==> i !in KeptIx(c))
  {
    var c := Claims(m, metric, output.emitters, target.emitters);
    KeptClearedSplit(c);
    forall i | 0 <= i < Len(output)
      ensures c[i] != -1 <==> Accepts(m, output.emitters[i].xyz,
              target.emitters[Nearest(m.matchDims, metric, output.emitters[i].xyz, target.emitters)].xyz)
    {
      assert c[i] == Claim(m, metric, output.emitters[i].xyz, target.emitters);
    }
  }

  lemma NNSizes(m: NNMatcher, metric: Metric, output: EmitterSet, target: EmitterSet)
    requires Len(output) > 0 && Len(target) > 0
    ensures var a := NNSpec(m, metric, output, target);
      Len(a.tp) + Len(a.fp) == Len(output) && Len(a.tp) == Len(a.tpMatch)
  {
    var c := Claims(m, metric, output.emitters, target.emitters);
    assert NNSpec(m, metric, output, target) == NNResult(output, target, c);
    KeptClearedCount(c);
  }

  lemma NNPairs(m: NNMatcher, metric: Metric, output: EmitterSet, target: EmitterSet)
    requires Len(output) > 0 && Len(target) > 0
    ensures var a := NNSpec(m, metric, output, target);
      forall k :: 0 <= k < Len(a.tp) ==>
        a.tpMatch.emitters[k] == target.emitters[Nearest(m.matchDims, metric, a.tp.emitters[k].xyz, target.emitters)]
  {
    var c := Claims(m, metric, output.emitters, target.emitters);
    var a := NNSpec(m, metric, output, target);
    assert a == NNResult(output, target, c);
    forall k | 0 <= k < Len(a.tp)
      ensures a.tpMatch.emitters[k] == target.emitters[Nearest(m.matchDims, metric, a.tp.emitters[k].xyz, target.emitters)]
    {
      var i := KeptIx(c)[k];
      assert a.tp.emitters[k] == output.emitters[i];
      assert a.tpMatch.emitters[k] == target.emitters[c[i]];
    }
  }

  lemma NNMissed(m: NNMatcher, metric: Metric, output: EmitterSet, target: EmitterSet)
    requires Len(output) > 0 && Len(target) > 0
    ensures var c := Claims(m, metric, output.emitters, target.emitters);
      forall j: nat :: j < Len(target) ==>
        (j in SetDiff(Len(target), c) <==> forall i :: 0 <= i < Len(output) ==> c[i] != j)
  {
    var c := Claims(m, metric, output.emitters, target.emitters);
    SetDiffMembers(Len(target), c);
    forall j: nat | j < Len(target)
      ensures j in SetDiff(Len(target), c) <==> forall i :: 0 <= i < Len(output) ==> c[i] != j
    {
      if j !in SetDiff(Len(target), c) {
        var i :| 0 <= i < |c| && c[i] == j;
      }
    }
  }

  /** The squared lateral distance. */
  function SqXy(p: Xyz, q: Xyz): real {
    (p.x - q.x) * (p.x - q.x) + (p.y - q.y) * (p.y - q.y)
  }

  lemma BothClaimTheTarget(z: real)
    ensures Claims(NNMatcher(1.0, 500.0, 3), SqXy,
                   [Emitter(Xyz(0.0, 0.0, z), 1.0, 0, UnsetId), Emitter(Xyz(0.5, 0.0, z), 1.0, 0, UnsetId)],
                   [Emitter(Xyz(0.2, 0.0, z), 1.0, 0, 7)]) == [0, 0]
  {
    var out := [Emitter(Xyz(0.0, 0.0, z), 1.0, 0, UnsetId), Emitter(Xyz(0.5, 0.0, z), 1.0, 0, UnsetId)];
    var tar := [Emitter(Xyz(0.2, 0.0, z), 1.0, 0, 7)];
    assert Nearest(3, SqXy, out[0].xyz, tar) == 0;
    assert Nearest(3, SqXy, out[1].xyz, tar) == 0;
    assert Accepts(NNMatcher(1.0, 500.0, 3), out[0].xyz, tar[0].xyz);
    assert Accepts(NNMatcher(1.0, 500.0, 3), out[1].xyz, tar[0].xyz);
  }

  /** Several outputs may claim the same target: outputs at x = 0 and
      x = 0.5 both match the single target at x = 0.2 with lateral threshold
      1, and no target is left over. */
  lemma NNManyToOne(z: real)
    ensures var t := Emitter(Xyz(0.2, 0.0, z), 1.0, 0, 7);
            var output := EmitterSet([Emitter(Xyz(0.0, 0.0, z), 1.0, 0, UnsetId), Emitter(Xyz(0.5, 0.0, z), 1.0, 0, UnsetId)], None, None);
            var a := NNSpec(NNMatcher(1.0, 500.0, 3), SqXy, output, EmitterSet([t], None, None));
            a.tp == output && a.tpMatch.emitters == [t, t] && Len(a.fp) == 0 && Len(a.fn) == 0
  {
    var t := Emitter(Xyz(0.2, 0.0, z), 1.0, 0, 7);
    var output := EmitterSet([Emitter(Xyz(0.0, 0.0, z), 1.0, 0, UnsetId), Emitter(Xyz(0.5, 0.0, z), 1.0, 0, UnsetId)], None, None);
    BothClaimTheTarget(z);
    BothKept(output, t);
  }

  lemma ClaimsZeroZero()
    ensures KeptIx([0, 0]) == [0, 1] && ClearedIx([0, 0]) == [] && SetDiff(1, [0, 0]) == []
    ensures KeptClaims([0, 0]) == [0, 0]
  {
    var c := [0, 0];
    assert c[..1] == [0];
    assert KeptIx(c[..1]) == [0];
    assert ClearedIx(c[..1]) == [];
  }

  /** Two outputs that both claim target 0 are both kept and paired with it. */
  lemma BothKept(output: EmitterSet, t: Emitter)
    requires Len(output) == 2
    ensures var a := NNResult(output, EmitterSet([t], None, None), [0, 0]);
      a.tp == output && a.tpMatch.emitters == [t, t] && Len(a.fp) == 0 && Len(a.fn) == 0
  {
    ClaimsZeroZero();
    SubsetOfTwo(output, [0, 1], output.emitters);
    SubsetOfTwo(EmitterSet([t], None, None), [0, 0], [t, t]);
  }

  lemma SubsetOfTwo(e: EmitterSet, ix: seq<int>, r: seq<Emitter>)
    requires |ix| == 2 == |r| && 0 <= ix[0] < Len(e) && 0 <= ix[1] < Len(e)
    requires r[0] == e.emitters[ix[0]] && r[1] == e.emitters[ix[1]]
    ensures Subset(e, ix).emitters == r
  {
  }
}
