/** LooseEmitterSet: emitters given by an on-interval [t0, t0 + ontime)
    in continuous time, and their distribution over integer frames. */
module LooseEmitters {
  import opened Wrappers
  import opened EmitterSets

  datatype LooseEmitter = LooseEmitter(xyz: Xyz, intensity: real, ontime: real, t0: real, id: int)

  datatype LooseEmitterSet = LooseEmitterSet(emitters: seq<LooseEmitter>, xyUnit: Option<Unit>, pxSize: Option<PxSize>)

  predicate Distinct(ids: seq<int>) {
    forall i, j :: 0 <= i < j < |ids| ==> ids[i] != ids[j]
  }

  /** The ids 0, 1, ..., n-1 used when none are given. */
  function Arange(n: nat): (r: seq<int>)
    ensures |r| == n && Distinct(r)
  {
    seq(n, i requires 0 <= i < n => i)
  }

  /** The constructor's checks, in the order the source makes them: xyz
      width, unique ids, non-negative intensities, non-negative on-times. */
  function NewLooseEmitterSet(xyz: CoordInput, intensity: seq<real>, ontime: seq<real>, t0: seq<real>,
                              id: Option<seq<int>>, xyUnit: Option<Unit>, pxSize: Option<PxSize>)
    : (r: Result<LooseEmitterSet>)
    requires WellShaped(xyz)
    requires |intensity| == |xyz.rows| && |ontime| == |xyz.rows| && |t0| == |xyz.rows|
    requires id.Some? ==> |id.value| == |xyz.rows|
    ensures r.Ok? <==>
      && (xyz.width == 2 || xyz.width == 3)
      && (id.Some? ==> Distinct(id.value))
      && (forall i :: 0 <= i < |intensity| ==> intensity[i] >= 0.0)
      && (forall i :: 0 <= i < |ontime| ==> ontime[i] >= 0.0)
    ensures xyz.width != 2 && xyz.width != 3 ==> r == Err(ValueError("Wrong xyz dimension."))
    ensures (xyz.width == 2 || xyz.width == 3) && id.Some? && !Distinct(id.value) ==>
      r == Err(ValueError("IDs are not unique."))
    ensures r.Ok? ==> |r.value.emitters| == |xyz.rows|
    ensures r.Ok? ==> forall i :: 0 <= i < |xyz.rows| ==>
      && r.value.emitters[i].intensity == intensity[i]
      && r.value.emitters[i].ontime == ontime[i]
      && r.value.emitters[i].t0 == t0[i]
      && r.value.emitters[i].id == (if id.Some? then id.value[i] else i)
    ensures r.Ok? ==> Distinct(seq(|xyz.rows|, i requires 0 <= i < |xyz.rows| => r.value.emitters[i].id))
  {
    var coords :- PadTo3d(xyz);
    var ids := if id.Some? then id.value else Arange(|xyz.rows|);
    if !Distinct(ids) then Err(ValueError("IDs are not unique."))
    else if exists i :: 0 <= i < |intensity| && intensity[i] < 0.0 then
      Err(ValueError("Negative intensity values encountered."))
    else if exists i :: 0 <= i < |ontime| && ontime[i] < 0.0 then
      Err(ValueError("Negative ontime encountered."))
    else
      var es := seq(|xyz.rows|, i requires 0 <= i < |xyz.rows| =>
                      LooseEmitter(coords[i], intensity[i], ontime[i], t0[i], ids[i]));
      assert seq(|xyz.rows|, i requires 0 <= i < |xyz.rows| => es[i].id) == ids;
      Ok(LooseEmitterSet(es, xyUnit, pxSize))
  }

  // ---------------------------------------------------------------------------
  // Distribution over frames

  function Min(a: real, b: real): real { if a <= b then a else b }
  function Max(a: real, b: real): real { if a >= b then a else b }

  function Ceil(x: real): int { -((-x).Floor) }

  function End(e: LooseEmitter): real { e.t0 + e.ontime }

  /** Length of the intersection of [t0, t0 + ontime) with frame f's
      exposure [f, f + 1), or a non-positive number when they are disjoint. */
  function Overlap(e: LooseEmitter, f: int): real {
    Min(End(e), (f + 1) as real) - Max(e.t0, f as real)
  }

  function FirstFrame(e: LooseEmitter): int { e.t0.Floor }

  /** Number of frames the on-interval touches: frames t0.Floor up to
      Ceil(t0 + ontime) - 1, none for a zero on-time. */
  function FrameCount(e: LooseEmitter): nat
    requires e.ontime >= 0.0
  {
    if e.ontime == 0.0 then 0 else Ceil(End(e)) - FirstFrame(e)
  }

  /** One record per frame whose exposure overlaps the on-interval, in
      frame order, with phot = intensity x overlap and the emitter's xyz and
      id. */
  function Distribute(e: LooseEmitter): (r: seq<Emitter>)
    requires e.ontime >= 0.0
    ensures |r| == FrameCount(e)
  {
    seq(FrameCount(e), k requires 0 <= k < FrameCount(e) =>
          Emitter(e.xyz, e.intensity * Overlap(e, FirstFrame(e) + k), FirstFrame(e) + k, e.id))
  }

  /** Record k is frame t0.Floor + k with the emitter's xyz and id and
      intensity x overlap photons, and the frames of the distribution are
      exactly those whose exposure overlaps the on-interval. */
  lemma DistributeCoversOverlappingFrames(e: LooseEmitter, f: int)
    requires e.ontime >= 0.0
    ensures forall k :: 0 <= k < |Distribute(e)| ==>
      Distribute(e)[k] == Emitter(e.xyz, e.intensity * Overlap(e, FirstFrame(e) + k), FirstFrame(e) + k, e.id)
    ensures (exists k :: 0 <= k < |Distribute(e)| && Distribute(e)[k].frameIx == f) <==> Overlap(e, f) > 0.0
  {
    var r := Distribute(e);
    OverlapPositiveIff(e, f);
    if Overlap(e, f) > 0.0 {
      var k := f - FirstFrame(e);
      assert r[k].frameIx == f;
    }
  }

  /** Frame f's exposure overlaps the on-interval exactly when f is one of
      the FrameCount(e) frames from t0.Floor on. */
  lemma OverlapPositiveIff(e: LooseEmitter, f: int)
    requires e.ontime >= 0.0
    ensures Overlap(e, f) > 0.0 <==> 0 <= f - FirstFrame(e) < FrameCount(e)
  {
    if Overlap(e, f) > 0.0 {
      assert e.ontime > 0.0;
      assert FirstFrame(e) <= f < Ceil(End(e));
    }
  }

  function PhotSum(s: seq<Emitter>): real {
    if s == [] then 0.0 else PhotSum(s[..|s| - 1]) + s[|s| - 1].phot
  }

  /** Sum of the overlaps of frames FirstFrame .. FirstFrame + m - 1. */
  function OverlapSum(e: LooseEmitter, m: nat): real {
    if m == 0 then 0.0 else OverlapSum(e, m - 1) + Overlap(e, FirstFrame(e) + m - 1)
  }

  lemma {:induction false} OverlapTelescopes(e: LooseEmitter, m: nat)
    requires e.ontime > 0.0 && 1 <= m <= FrameCount(e)
    ensures OverlapSum(e, m) == Min(End(e), (FirstFrame(e) + m) as real) - e.t0
  {
    if m > 1 {
      OverlapTelescopes(e, m - 1);
    }
  }

  lemma ScaleDistributes(k: real, a: real, b: real, c: real, p: real, q: real)
    requires p == k * a && q == k * b && c == a + b
    ensures p + q == k * c
  {
  }

  /** w(0) + ... + w(m - 1). */
  function WeightSum(w: nat -> real, m: nat): real {
    if m == 0 then 0.0 else WeightSum(w, m - 1) + w(m - 1)
  }

  /** Records carrying k x w(i) photons have prefix sums k x WeightSum. */
  lemma {:induction false} PhotSumScaled(s: seq<Emitter>, k: real, w: nat -> real, m: nat)
    requires m <= |s|
    requires forall i :: 0 <= i < |s| ==> s[i].phot == k * w(i)
    ensures PhotSum(s[..m]) == k * WeightSum(w, m)
  {
    if m > 0 {
      PhotSumScaled(s, k, w, m - 1);
      assert s[..m][..m - 1] == s[..m - 1];
      ScaleDistributes(k, WeightSum(w, m - 1), w(m - 1), WeightSum(w, m), PhotSum(s[..m - 1]), s[m - 1].phot);
    } else {
      assert s[..m] == [];
    }
  }

  lemma {:induction false} OverlapSumIsWeightSum(e: LooseEmitter, w: nat -> real, m: nat)
    requires forall i: nat :: w(i) == Overlap(e, FirstFrame(e) + i)
    ensures OverlapSum(e, m) == WeightSum(w, m)
  {
    if m > 0 {
      OverlapSumIsWeightSum(e, w, m - 1);
    }
  }

  /** Photon conservation: the per-frame photon counts add up to
      intensity x ontime. */
  lemma DistributeConservesPhotons(e: LooseEmitter)
    requires e.ontime >= 0.0
    ensures PhotSum(Distribute(e)) == e.intensity * e.ontime
  {
    var w := OverlapWeights(e);
    PhotSumOfWeights(Distribute(e), e.intensity, w, e.ontime);
  }

  /** The overlaps as a weight function: record i carries intensity x w(i)
      photons and the weights of all records add up to the on-time. */
  lemma OverlapWeights(e: LooseEmitter) returns (w: nat -> real)
    requires e.ontime >= 0.0
    ensures forall i :: 0 <= i < |Distribute(e)| ==> Distribute(e)[i].phot == e.intensity * w(i)
    ensures WeightSum(w, |Distribute(e)|) == e.ontime
  {
    w := i => Overlap(e, FirstFrame(e) + i);
    DistributedPhotons(e, w);
    assert WeightSum(w, |Distribute(e)|) == e.ontime by {
      OverlapSumIsWeightSum(e, w, |Distribute(e)|);
      OverlapSumIsOntime(e);
    }
  }

  /** Records carrying k x w(i) photons, whose weights add up to t, carry
      k x t photons in total. */
  lemma PhotSumOfWeights(s: seq<Emitter>, k: real, w: nat -> real, t: real)
    requires forall i :: 0 <= i < |s| ==> s[i].phot == k * w(i)
    requires WeightSum(w, |s|) == t
    ensures PhotSum(s) == k * t
  {
    PhotSumScaledAll(s, k, w);
  }

  /** The overlaps of all frames the distribution covers add up to the
      on-time. */
  lemma OverlapSumIsOntime(e: LooseEmitter)
    requires e.ontime >= 0.0
    ensures OverlapSum(e, FrameCount(e)) == e.ontime
  {
    if e.ontime > 0.0 {
      OverlapTelescopes(e, FrameCount(e));
      assert Min(End(e), (FirstFrame(e) + FrameCount(e)) as real) == End(e);
    }
  }

  lemma PhotSumScaledAll(s: seq<Emitter>, k: real, w: nat -> real)
    requires forall i :: 0 <= i < |s| ==> s[i].phot == k * w(i)
    ensures PhotSum(s) == k * WeightSum(w, |s|)
  {
    PhotSumScaled(s, k, w, |s|);
    assert s[..|s|] == s;
  }

  lemma DistributedPhotons(e: LooseEmitter, w: nat -> real)
    requires e.ontime >= 0.0
    requires forall i: nat :: w(i) == Overlap(e, FirstFrame(e) + i)
    ensures forall i :: 0 <= i < |Distribute(e)| ==> Distribute(e)[i].phot == e.intensity * w(i)
  {
  }

  /** t0 = -0.5, ontime 0.4, intensity 1 gives frame -1 with 0.4 photons;
      t0 = 3.2, ontime 2, intensity 2 gives frames 3, 4, 5 with 1.6, 2 and
      0.4 photons. */
  lemma DistributeExamples(a: Xyz, b: Xyz)
    ensures Distribute(LooseEmitter(a, 1.0, 0.4, -0.5, 0)) == [Emitter(a, 0.4, -1, 0)]
    ensures Distribute(LooseEmitter(b, 2.0, 2.0, 3.2, 1))
         == [Emitter(b, 1.6, 3, 1), Emitter(b, 2.0, 4, 1), Emitter(b, 0.4, 5, 1)]
  {
    var e0 := LooseEmitter(a, 1.0, 0.4, -0.5, 0);
    assert FirstFrame(e0) == -1 && Ceil(End(e0)) == 0;
    assert Overlap(e0, -1) == 0.4;
    var r0 := Distribute(e0);
    assert r0[0] == Emitter(a, 0.4, -1, 0);
    var e1 := LooseEmitter(b, 2.0, 2.0, 3.2, 1);
    assert FirstFrame(e1) == 3 && Ceil(End(e1)) == 6;
    assert Overlap(e1, 3) == 0.8 && Overlap(e1, 4) == 1.0 && Overlap(e1, 5) == 0.2;
    var r1 := Distribute(e1);
    assert r1[0] == Emitter(b, 1.6, 3, 1);
    assert r1[1] == Emitter(b, 2.0, 4, 1);
    assert r1[2] == Emitter(b, 0.4, 5, 1);
  }

  function DistributeAll(es: seq<LooseEmitter>): (r: seq<Emitter>)
    requires forall i :: 0 <= i < |es| ==> es[i].ontime >= 0.0
  {
    if es == [] then [] else DistributeAll(es[..|es| - 1]) + Distribute(es[|es| - 1])
  }

  function TotalPhotons(es: seq<LooseEmitter>): real {
    if es == [] then 0.0 else TotalPhotons(es[..|es| - 1]) + es[|es| - 1].intensity * es[|es| - 1].ontime
  }

  lemma {:induction false} PhotSumAppend(a: seq<Emitter>, b: seq<Emitter>)
    ensures PhotSum(a + b) == PhotSum(a) + PhotSum(b)
    decreases |b|
  {
    if b != [] {
      PhotSumAppend(a, b[..|b| - 1]);
      assert (a + b)[..|a + b| - 1] == a + b[..|b| - 1];
    } else {
      assert a + b == a;
    }
  }

  /** The distributed records of several emitters are exactly the records
      of each emitter's distribution. */
  lemma {:induction false} DistributeAllMembers(es: seq<LooseEmitter>)
    requires forall i :: 0 <= i < |es| ==> es[i].ontime >= 0.0
    ensures forall x :: x in DistributeAll(es) <==> exists j :: 0 <= j < |es| && x in Distribute(es[j])
  {
    if es != [] {
      var init, last := es[..|es| - 1], es[|es| - 1];
      DistributeAllMembers(init);
      forall x ensures x in DistributeAll(es) <==> exists j :: 0 <= j < |es| && x in Distribute(es[j]) {
        if x in DistributeAll(init) {
          var j :| 0 <= j < |init| && x in Distribute(init[j]);
          assert es[j] == init[j];
        }
        if exists j :: 0 <= j < |es| && x in Distribute(es[j]) {
          var j :| 0 <= j < |es| && x in Distribute(es[j]);
          if j < |init| {
            assert es[j] == init[j];
          }
        }
      }
    }
  }

  /** `return_emitterset`: the distributed records of all emitters as one
      EmitterSet with the loose set's unit and pixel size; it holds exactly
      the records of the emitters' distributions, and their photons add up
      to the set's total intensity x ontime. */
  function ReturnEmitterSet(l: LooseEmitterSet): (r: EmitterSet)
    requires forall i :: 0 <= i < |l.emitters| ==> l.emitters[i].ontime >= 0.0
    ensures r.xyUnit == l.xyUnit && r.pxSize == l.pxSize
    ensures forall x :: x in r.emitters <==> exists j :: 0 <= j < |l.emitters| && x in Distribute(l.emitters[j])
    ensures PhotSum(r.emitters) == TotalPhotons(l.emitters)
  {
    DistributeAllMembers(l.emitters);
    DistributeAllConserves(l.emitters);
    EmitterSet(DistributeAll(l.emitters), l.xyUnit, l.pxSize)
  }

  /** The two-emitter set of the frame-distribution test: emitter 0 gives
      frame -1 with 0.4 photons, emitter 1 frames 3, 4 and 5 with 1.6, 2 and
      0.4 photons, four records in all. */
  lemma ReturnEmitterSetExample(a: Xyz, b: Xyz)
    ensures var e0, e1 := LooseEmitter(a, 1.0, 0.4, -0.5, 0), LooseEmitter(b, 2.0, 2.0, 3.2, 1);
      ReturnEmitterSet(LooseEmitterSet([e0, e1], Some(Px), None))
        == EmitterSet([Emitter(a, 0.4, -1, 0), Emitter(b, 1.6, 3, 1), Emitter(b, 2.0, 4, 1), Emitter(b, 0.4, 5, 1)], Some(Px), None)
  {
    var e0, e1 := LooseEmitter(a, 1.0, 0.4, -0.5, 0), LooseEmitter(b, 2.0, 2.0, 3.2, 1);
    DistributeExamples(a, b);
    assert [e0, e1][..1] == [e0];
    assert DistributeAll([e0]) == DistributeAll([]) + Distribute(e0);
    assert DistributeAll([e0, e1]) == DistributeAll([e0]) + Distribute(e1);
  }

  lemma {:induction false} DistributeAllConserves(es: seq<LooseEmitter>)
    requires forall i :: 0 <= i < |es| ==> es[i].ontime >= 0.0
    ensures PhotSum(DistributeAll(es)) == TotalPhotons(es)
  {
    if es != [] {
      var init, last := es[..|es| - 1], es[|es| - 1];
      assert DistributeAll(es) == DistributeAll(init) + Distribute(last);
      DistributeAllConserves(init);
      PhotSumAppend(DistributeAll(init), Distribute(last));
      DistributeConservesPhotons(last);
    }
  }
}
