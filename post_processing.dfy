/** Detection post-processing (deepsmlm/neuralfitter/post_processing.py, as
    exercised by deepsmlm/test/test_post_processing.py): the network output
    is an N x C x H x W tensor whose channel 0 is the detection probability
    and whose other channels are per-pixel features. Pixels whose probability
    reaches `raw_th` are active; the look-up processor turns every active
    pixel into a detection, the consistency processor first merges linked
    active pixels of a frame into one detection carrying their summed
    probability and keeps the detections whose probability reaches `em_th`. */
module PostProcessing {
  import opened Wrappers
  import opened CoordTransform

  // ---------------------------------------------------------------------------
  // Return format

  /** The return formats the sanity check accepts. */
  predicate ValidReturnFormat(f: Option<string>) {
    f == Some("batch-set") || f == Some("frame-set")
  }

  /** `sanity_check`: ValueError for any other return format. */
  function CheckReturnFormat(f: Option<string>): (o: Outcome)
    ensures o.Fail? ==> o.error.ValueError?
  {
    if ValidReturnFormat(f) then Pass else Fail(ValueError("Not supported return type."))
  }

  /** The four rejected formats of the sanity test, and the two accepted ones. */
  lemma ReturnFormatCases()
    ensures CheckReturnFormat(None).Fail? && CheckReturnFormat(Some("batch_set")).Fail?
    ensures CheckReturnFormat(Some("frame_set")).Fail? && CheckReturnFormat(Some("emitters")).Fail?
    ensures CheckReturnFormat(Some("batch-set")) == Pass && CheckReturnFormat(Some("frame-set")) == Pass
  {
    assert "batch_set" != "batch-set" by { assert "batch_set"[5] != "batch-set"[5]; }
    assert "frame_set" != "frame-set" by { assert "frame_set"[5] != "frame-set"[5]; }
    assert "emitters" != "batch-set" && "emitters" != "frame-set" by {
      assert |"emitters"| != |"batch-set"|;
    }
  }

  // ---------------------------------------------------------------------------
  // Filter: active pixels

  /** A pixel (batch index, row, column). */
  datatype Pixel = Pixel(n: nat, i: nat, j: nat)

  /** Row-major order over (n, i, j). */
  predicate Before(a: Pixel, b: Pixel) {
    a.n < b.n || (a.n == b.n && (a.i < b.i || (a.i == b.i && a.j < b.j)))
  }

  predicate Increasing(ps: seq<Pixel>) {
    forall a, b :: 0 <= a < b < |ps| ==> Before(ps[a], ps[b])
  }

  lemma IncreasingConcat(xs: seq<Pixel>, ys: seq<Pixel>)
    requires Increasing(xs) && Increasing(ys)
    requires forall a, b :: 0 <= a < |xs| && 0 <= b < |ys| ==> Before(xs[a], ys[b])
    ensures Increasing(xs + ys)
  {
    var zs := xs + ys;
    forall a, b | 0 <= a < b < |zs|
      ensures Before(zs[a], zs[b])
    {
      if b < |xs| {
        assert Before(xs[a], xs[b]);
      } else if a >= |xs| {
        assert Before(ys[a - |xs|], ys[b - |xs|]);
      } else {
        assert Before(xs[a], ys[b - |xs|]);
      }
    }
  }

  /** An N x H x W boolean mask. */
  type Mask = seq<seq<seq<bool>>>

  /** `_filter`: a pixel is active when its probability reaches the threshold. */
  function Filter(det: seq<Grid>, th: real): (m: Mask)
    ensures |m| == |det|
    ensures forall n :: 0 <= n < |det| ==> |m[n]| == |det[n]|
    ensures forall n, i :: 0 <= n < |det| && 0 <= i < |det[n]| ==> |m[n][i]| == |det[n][i]|
  {
    seq(|det|, n requires 0 <= n < |det| => FilterPlane(det[n], th))
  }

  function FilterPlane(g: Grid, th: real): (m: seq<seq<bool>>)
    ensures |m| == |g| && forall i :: 0 <= i < |g| ==> |m[i]| == |g[i]|
    ensures forall i, j :: 0 <= i < |g| && 0 <= j < |g[i]| ==> (m[i][j] <==> g[i][j] >= th)
  {
    seq(|g|, i requires 0 <= i < |g| => seq(|g[i]|, j requires 0 <= j < |g[i]| => g[i][j] >= th))
  }

  /** The active pixels of row i of plane n, in column order. */
  function RowActive(row: seq<bool>, n: nat, i: nat): (r: seq<Pixel>)
    ensures forall q :: q in r <==> q.n == n && q.i == i && q.j < |row| && row[q.j]
    ensures Increasing(r)
    ensures |r| <= |row|
  {
    if row == [] then []
    else
      var prev := RowActive(row[..|row| - 1], n, i);
      var last := if row[|row| - 1] then [Pixel(n, i, |row| - 1)] else [];
      IncreasingConcat(prev, last);
      prev + last
  }

  /** The active pixels of plane n, in row-major order. */
  function PlaneActive(plane: seq<seq<bool>>, n: nat): (r: seq<Pixel>)
    ensures forall q :: q in r <==> q.n == n && q.i < |plane| && q.j < |plane[q.i]| && plane[q.i][q.j]
    ensures Increasing(r)
  {
    if plane == [] then []
    else
      var k := |plane| - 1;
      var prev := PlaneActive(plane[..k], n);
      var last := RowActive(plane[k], n, k);
      assert forall q :: q in prev ==> q.i < k;
      IncreasingConcat(prev, last);
      prev + last
  }

  /** `active_px.nonzero()`: the active pixels of the mask, in row-major order. */
  function MaskActive(m: Mask): (r: seq<Pixel>)
    ensures forall q :: q in r <==> q.n < |m| && q.i < |m[q.n]| && q.j < |m[q.n][q.i]| && m[q.n][q.i][q.j]
    ensures Increasing(r)
  {
    if m == [] then []
    else
      var k := |m| - 1;
      var prev := MaskActive(m[..k]);
      var last := PlaneActive(m[k], k);
      assert forall q :: q in prev ==> q.n < k;
      IncreasingConcat(prev, last);
      prev + last
  }

  /** The active pixels of `det` are exactly the pixels whose probability
      reaches the threshold, each once, in row-major order. */
  lemma ActivePixels(det: seq<Grid>, th: real)
    ensures var r := MaskActive(Filter(det, th));
      && (forall q :: q in r <==> q.n < |det| && q.i < |det[q.n]| && q.j < |det[q.n][q.i]| && det[q.n][q.i][q.j] >= th)
      && (forall a, b :: 0 <= a < b < |r| ==> r[a] != r[b])
  {
    var m := Filter(det, th);
    forall n | 0 <= n < |det|
      ensures m[n] == FilterPlane(det[n], th)
    {
    }
    var r := MaskActive(m);
    forall a, b | 0 <= a < b < |r|
      ensures r[a] != r[b]
    {
      assert Before(r[a], r[b]);
    }
  }

  /** The filter test: with threshold 0.1 the probabilities 0.1 and 0.6 are
      active, 0.0 and 0.05 are not. */
  lemma FilterExample()
    ensures Filter([[[0.1, 0.0], [0.6, 0.05]]], 0.1) == [[[true, false], [true, false]]]
  {
    var g: Grid := [[0.1, 0.0], [0.6, 0.05]];
    var m := Filter([g], 0.1);
    var p := FilterPlane(g, 0.1);
    assert m[0] == p;
    assert p[0][0] && !p[0][1] && p[1][0] && !p[1][1];
    assert p[0] == [true, false] && p[1] == [true, false];
    assert |p| == 2;
    assert p == [[true, false], [true, false]];
    assert |m| == 1 && m == [p];
  }

  // ---------------------------------------------------------------------------
  // Look-up of features

  /** The batch index and the mask match the features' N x H x W. */
  predicate MaskFits(x: Tensor, m: Mask) {
    && WellFormed(x) && |x.shape| == 4 && |m| == x.shape[0]
    && (forall n :: 0 <= n < |m| ==> |m[n]| == x.shape[2])
    && (forall n, i :: 0 <= n < |m| && 0 <= i < |m[n]| ==> |m[n][i]| == x.shape[3])
  }

  /** `_lookup_features`: the batch index of every active pixel, and for
      every channel the values of the active pixels, both in row-major
      order of the pixels. */
  function LookupFeatures(x: Tensor, m: Mask): (r: (seq<nat>, seq<seq<real>>))
    requires MaskFits(x, m)
    ensures var (batchIx, feats) := r;
      && |batchIx| == |MaskActive(m)| && |feats| == x.shape[1]
      && (forall c :: 0 <= c < |feats| ==> |feats[c]| == |batchIx|)
  {
    var px := MaskActive(m);
    (seq(|px|, k requires 0 <= k < |px| => px[k].n),
     seq(x.shape[1], c requires 0 <= c < x.shape[1] =>
       seq(|px|, k requires 0 <= k < |px| => x.data[px[k].n][c][px[k].i][px[k].j])))
  }

  /** The looked-up values are the values at the active pixels: entry k
      of every channel and of the batch index belongs to the k-th active
      pixel, and a value of an active pixel is found in its channel. */
  lemma LookupAtActive(x: Tensor, m: Mask, k: nat, c: nat)
    requires MaskFits(x, m) && k < |MaskActive(m)| && c < x.shape[1]
    ensures var (batchIx, feats) := LookupFeatures(x, m); var q := MaskActive(m)[k];
      && m[q.n][q.i][q.j]
      && batchIx[k] == q.n
      && feats[c][k] == At(x, q.n, c, q.i, q.j)
  {
    var q := MaskActive(m)[k];
    assert q in MaskActive(m);
  }

  /** Every active pixel contributes its value to the look-up. */
  lemma LookupCoversActive(x: Tensor, m: Mask, q: Pixel, c: nat)
    requires MaskFits(x, m) && q.n < |m| && q.i < |m[q.n]| && q.j < |m[q.n][q.i]| && m[q.n][q.i][q.j] && c < x.shape[1]
    ensures exists k :: (0 <= k < |MaskActive(m)| && MaskActive(m)[k] == q
      && LookupFeatures(x, m).0[k] == q.n && LookupFeatures(x, m).1[c][k] == At(x, q.n, c, q.i, q.j))
  {
    var px := MaskActive(m);
    assert q in px;
    var k :| 0 <= k < |px| && px[k] == q;
    LookupAtActive(x, m, k, c);
  }

  // ---------------------------------------------------------------------------
  // Detections and output formats

  /** One detection: its frame (the batch index), probability and features. */
  datatype Detection = Detection(frameIx: nat, prob: real, feats: seq<real>)

  /** `batch-set`: one set for the batch; `frame-set`: one set per frame. */
  datatype Output = BatchSet(detections: seq<Detection>) | FrameSet(frames: seq<seq<Detection>>)

  function InFrame(ds: seq<Detection>, n: nat): (r: seq<Detection>)
    ensures forall d :: d in r <==> d in ds && d.frameIx == n
  {
    if ds == [] then []
    else InFrame(ds[..|ds| - 1], n) + (if ds[|ds| - 1].frameIx == n then [ds[|ds| - 1]] else [])
  }

  /** The detections in the configured format; ValueError for any other. */
  function Format(ds: seq<Detection>, frames: nat, f: Option<string>): (r: Result<Output>)
    ensures r.Err? <==> !ValidReturnFormat(f)
    ensures f == Some("batch-set") ==> r == Ok(BatchSet(ds))
    ensures f == Some("frame-set") ==> (r.Ok? && r.value.FrameSet? && |r.value.frames| == frames
      && forall n :: 0 <= n < frames ==> forall d :: d in r.value.frames[n] <==> d in ds && d.frameIx == n)
  {
    if f == Some("batch-set") then Ok(BatchSet(ds))
    else if f == Some("frame-set") then Ok(FrameSet(seq(frames, n requires 0 <= n < frames => InFrame(ds, n))))
    else Err(ValueError("Not supported return type."))
  }

  /** The probability plane x[:, 0] of every batch element. */
  function Probabilities(x: Tensor): (det: seq<Grid>)
    requires WellFormed(x) && |x.shape| == 4 && x.shape[1] >= 1
    ensures |det| == x.shape[0]
    ensures forall n :: 0 <= n < |det| ==> det[n] == x.data[n][0] && IsGrid(det[n], x.shape[2], x.shape[3])
  {
    seq(x.shape[0], n requires 0 <= n < x.shape[0] => x.data[n][0])
  }

  /** The feature vector x[n, 1:, i, j]. */
  function FeatureVector(x: Tensor, q: Pixel): (f: seq<real>)
    requires WellFormed(x) && |x.shape| == 4 && q.n < x.shape[0] && q.i < x.shape[2] && q.j < x.shape[3]
    requires x.shape[1] >= 1
    ensures |f| == x.shape[1] - 1 && forall c :: 0 <= c < |f| ==> f[c] == At(x, q.n, c + 1, q.i, q.j)
  {
    seq(x.shape[1] - 1, c requires 0 <= c < x.shape[1] - 1 => x.data[q.n][c + 1][q.i][q.j])
  }

  /** The mask of the active pixels fits the tensor. */
  lemma FilterFits(x: Tensor, th: real)
    requires WellFormed(x) && |x.shape| == 4 && x.shape[1] >= 1
    ensures MaskFits(x, Filter(Probabilities(x), th))
  {
    var det := Probabilities(x);
    var m := Filter(det, th);
    forall n, i | 0 <= n < |m| && 0 <= i < |m[n]|
      ensures |m[n][i]| == x.shape[3]
    {
      assert IsGrid(det[n], x.shape[2], x.shape[3]);
    }
  }

  // ---------------------------------------------------------------------------
  // NoPostProcessing and the base class

  /** The base processor and `NoPostProcessing`: `forward` returns an
      empty set and `skip_if` is false. */
  class NoPostProcessing {
    var returnFormat: Option<string>

    constructor(returnFormat: Option<string>)
      ensures this.returnFormat == returnFormat
    {
      this.returnFormat := returnFormat;
    }

    function SanityCheck(): (o: Outcome)
      reads this
      ensures o == Pass <==> ValidReturnFormat(returnFormat)
    {
      CheckReturnFormat(returnFormat)
    }

    function SkipIf(x: Tensor): (b: bool)
      ensures !b
    {
      false
    }

    function Forward(x: Tensor): (r: seq<Detection>)
      ensures r == []
    {
      []
    }
  }

  // ---------------------------------------------------------------------------
  // LookUpPostProcessing

  class LookUpPostProcessing {
    const rawTh: real
    var returnFormat: Option<string>

    constructor(rawTh: real, returnFormat: Option<string>)
      ensures this.rawTh == rawTh && this.returnFormat == returnFormat
    {
      this.rawTh := rawTh;
      this.returnFormat := returnFormat;
    }

    function SanityCheck(): (o: Outcome)
      reads this
      ensures o == Pass <==> ValidReturnFormat(returnFormat)
    {
      CheckReturnFormat(returnFormat)
    }

    /** The detections of `forward`: one per active pixel, in row-major
        order, with its batch index as frame, its probability and the
        feature channels 1.. as features (channel 1 is the photon count). */
    function Detections(x: Tensor): (ds: seq<Detection>)
      requires WellFormed(x) && |x.shape| == 4 && x.shape[1] >= 2
      ensures |ds| == |MaskActive(Filter(Probabilities(x), rawTh))|
    {
      var det := Probabilities(x);
      var m := Filter(det, rawTh);
      var px := MaskActive(m);
      FilterFits(x, rawTh);
      seq(|px|, k requires 0 <= k < |px| =>
        Detection(px[k].n, x.data[px[k].n][0][px[k].i][px[k].j], FeatureVector(x, px[k])))
    }

    /** `forward`: the detections in the configured return format. */
    function Forward(x: Tensor): (r: Result<Output>)
      requires WellFormed(x) && |x.shape| == 4 && x.shape[1] >= 2
      reads this
      ensures r.Err? <==> !ValidReturnFormat(returnFormat)
    {
      Format(Detections(x), x.shape[0], returnFormat)
    }
  }

  /** A pixel's detection, as the look-up processor builds it. */
  function PixelDetection(x: Tensor, q: Pixel): Detection
    requires WellFormed(x) && |x.shape| == 4 && x.shape[1] >= 1
    requires q.n < x.shape[0] && q.i < x.shape[2] && q.j < x.shape[3]
  {
    Detection(q.n, At(x, q.n, 0, q.i, q.j), FeatureVector(x, q))
  }

  /** A pixel of the tensor whose probability reaches the threshold. */
  predicate ActiveIn(x: Tensor, q: Pixel, th: real)
    requires WellFormed(x) && |x.shape| == 4 && x.shape[1] >= 1
  {
    q.n < x.shape[0] && q.i < x.shape[2] && q.j < x.shape[3] && At(x, q.n, 0, q.i, q.j) >= th
  }

  /** The k-th detection of the look-up processor is the k-th active pixel's. */
  lemma LookUpDetectionAt(o: LookUpPostProcessing, x: Tensor, k: nat)
    requires WellFormed(x) && |x.shape| == 4 && x.shape[1] >= 2
    requires k < |o.Detections(x)|
    ensures var q := MaskActive(Filter(Probabilities(x), o.rawTh))[k];
      ActiveIn(x, q, o.rawTh) && o.Detections(x)[k] == PixelDetection(x, q)
  {
    var det := Probabilities(x);
    var px := MaskActive(Filter(det, o.rawTh));
    ActivePixels(det, o.rawTh);
    assert px[k] in px;
    assert IsGrid(det[px[k].n], x.shape[2], x.shape[3]);
  }

  /** Every detection of the look-up processor is the detection of an
      active pixel: its frame is the pixel's batch index, its probability
      the pixel's (so at least `raw_th`) and its photon count the pixel's
      first feature channel. */
  lemma LookUpSound(o: LookUpPostProcessing, x: Tensor, d: Detection)
    requires WellFormed(x) && |x.shape| == 4 && x.shape[1] >= 2
    requires d in o.Detections(x)
    ensures exists q :: ActiveIn(x, q, o.rawTh) && d == PixelDetection(x, q)
    ensures d.frameIx < x.shape[0] && d.prob >= o.rawTh && |d.feats| == x.shape[1] - 1
  {
    var ds := o.Detections(x);
    var k :| 0 <= k < |ds| && ds[k] == d;
    LookUpDetectionAt(o, x, k);
  }

  /** Every active pixel gives a detection of the look-up processor. */
  lemma LookUpComplete(o: LookUpPostProcessing, x: Tensor, q: Pixel)
    requires WellFormed(x) && |x.shape| == 4 && x.shape[1] >= 2
    requires ActiveIn(x, q, o.rawTh)
    ensures PixelDetection(x, q) in o.Detections(x)
  {
    var det := Probabilities(x);
    var px := MaskActive(Filter(det, o.rawTh));
    ActivePixels(det, o.rawTh);
    assert IsGrid(det[q.n], x.shape[2], x.shape[3]);
    assert q in px;
    var k :| 0 <= k < |px| && px[k] == q;
    LookUpDetectionAt(o, x, k);
  }

  function FeatureGrid(c: real): (g: Grid)
    ensures IsGrid(g, 2, 2)
  {
    [[c, 2.0 * c], [3.0 * c, 4.0 * c]]
  }

  /** The look-up test input: probabilities [[0.1, 0], [0.6, 0.05]] and
      five feature channels, channel c holding c * [[1, 2], [3, 4]]. */
  function LookUpTestInput(): (x: Tensor)
    ensures WellFormed(x) && x.shape == [1, 6, 2, 2]
  {
    var x := Tensor([1, 6, 2, 2], [[[[0.1, 0.0], [0.6, 0.05]], FeatureGrid(1.0), FeatureGrid(2.0),
                                    FeatureGrid(3.0), FeatureGrid(4.0), FeatureGrid(5.0)]]);
    assert IsGrid(x.data[0][0], 2, 2);
    x
  }

  /** The active pixels of the test input are (0, 0) and (1, 0), whose
      photon counts are 1 and 3. */
  lemma LookUpTestPixels(q: Pixel)
    requires ActiveIn(LookUpTestInput(), q, 0.1)
    ensures (q == Pixel(0, 0, 0) && At(LookUpTestInput(), 0, 1, 0, 0) == 1.0)
         || (q == Pixel(0, 1, 0) && At(LookUpTestInput(), 0, 1, 1, 0) == 3.0)
  {
    var x := LookUpTestInput();
    assert x.data[0][0] == [[0.1, 0.0], [0.6, 0.05]];
    assert x.data[0][1] == [[1.0, 2.0], [3.0, 4.0]];
  }

  /** The look-up test: every detection lies in frame 0 and the photon
      counts are exactly 1 and 3, those of the two active pixels. */
  lemma LookUpExample(o: LookUpPostProcessing)
    requires o.rawTh == 0.1
    ensures forall d :: d in o.Detections(LookUpTestInput()) ==> d.frameIx == 0 && (d.feats[0] == 1.0 || d.feats[0] == 3.0)
    ensures exists d :: d in o.Detections(LookUpTestInput()) && d.feats[0] == 1.0
    ensures exists d :: d in o.Detections(LookUpTestInput()) && d.feats[0] == 3.0
  {
    var x := LookUpTestInput();
    forall d | d in o.Detections(x)
      ensures d.frameIx == 0 && (d.feats[0] == 1.0 || d.feats[0] == 3.0)
    {
      LookUpSound(o, x, d);
      var q :| ActiveIn(x, q, o.rawTh) && d == PixelDetection(x, q);
      LookUpTestPixels(q);
    }
    assert x.data[0][0] == [[0.1, 0.0], [0.6, 0.05]];
    assert x.data[0][1] == [[1.0, 2.0], [3.0, 4.0]];
    LookUpComplete(o, x, Pixel(0, 0, 0));
    LookUpComplete(o, x, Pixel(0, 1, 0));
  }

  // ---------------------------------------------------------------------------
  // ConsistencyPostprocessing: linking active pixels of a frame

  /** The five feature channels x[:, 1:6]: photons, x, y, z, background. */
  datatype Features = Features(phot: real, x: real, y: real, z: real, bg: real)

  function FeatureSeq(f: Features): (r: seq<real>)
    ensures |r| == 5 && r[0] == f.phot
  {
    [f.phot, f.x, f.y, f.z, f.bg]
  }

  /** An active pixel of one frame: row, column, probability, features. */
  datatype Cand = Cand(i: nat, j: nat, p: real, f: Features)

  /** The linking thresholds: lateral, and axial when matching in 3D. */
  datatype Link = Link(latTh: real, axTh: Option<real>)

  function Sq(v: real): real {
    v * v
  }

  /** Distinct pixels among each other's eight neighbours. */
  predicate Adjacent(a: Cand, b: Cand) {
    && (a.i != b.i || a.j != b.j)
    && -1 <= a.i as int - b.i as int <= 1
    && -1 <= a.j as int - b.j as int <= 1
  }

  /** Two neighbouring pixels predict the same emitter when their lateral
      distance, and in 3D their axial distance, is below the threshold. */
  predicate Linked(a: Cand, b: Cand, l: Link) {
    && Adjacent(a, b)
    && Sq(a.f.x - b.f.x) + Sq(a.f.y - b.f.y) < Sq(l.latTh)
    && (l.axTh.Some? ==> Sq(a.f.z - b.f.z) < Sq(l.axTh.value))
  }

  lemma LinkedSymmetric(a: Cand, b: Cand, l: Link)
    ensures Linked(a, b, l) == Linked(b, a, l)
  {
    assert Sq(a.f.x - b.f.x) == Sq(b.f.x - a.f.x);
    assert Sq(a.f.y - b.f.y) == Sq(b.f.y - a.f.y);
    assert Sq(a.f.z - b.f.z) == Sq(b.f.z - a.f.z);
  }

  /** Some pixel before the last one carries label `lab` and is linked to
      the last one. */
  predicate Touches(cs: seq<Cand>, prev: seq<nat>, lab: nat, l: Link)
    requires |cs| == |prev| + 1
  {
    exists m :: 0 <= m < |prev| && prev[m] == lab && Linked(cs[m], cs[|prev|], l)
  }

  /** Cluster labels of the pixels, assigned one pixel at a time: the new
      pixel takes its own index as label, and so does every cluster of
      which one member is linked to it. */
  function Labels(cs: seq<Cand>, l: Link): (ls: seq<nat>)
    ensures |ls| == |cs|
    ensures forall m :: 0 <= m < |cs| ==> ls[m] < |cs|
  {
    if cs == [] then []
    else
      var x := |cs| - 1;
      var prev := Labels(cs[..x], l);
      seq(|cs|, m requires 0 <= m < |cs| => if m == x || Touches(cs, prev, prev[m], l) then x else prev[m])
  }

  /** A chain of pixel indices in which consecutive pixels are linked. */
  predicate IsChain(cs: seq<Cand>, p: seq<nat>, l: Link) {
    && |p| >= 1
    && (forall k :: 0 <= k < |p| ==> p[k] < |cs|)
    && (forall k :: 0 <= k < |p| - 1 ==> Linked(cs[p[k]], cs[p[k + 1]], l))
  }

  /** `p` is a chain from pixel a to pixel b. */
  predicate Joins(cs: seq<Cand>, p: seq<nat>, a: nat, b: nat, l: Link) {
    IsChain(cs, p, l) && p[0] == a && p[|p| - 1] == b
  }

  lemma ChainLift(cs: seq<Cand>, x: nat, p: seq<nat>, l: Link)
    requires x <= |cs| && IsChain(cs[..x], p, l)
    ensures IsChain(cs, p, l)
  {
    forall k | 0 <= k < |p| - 1
      ensures Linked(cs[p[k]], cs[p[k + 1]], l)
    {
      assert cs[..x][p[k]] == cs[p[k]] && cs[..x][p[k + 1]] == cs[p[k + 1]];
    }
  }

  lemma ChainExtend(cs: seq<Cand>, p: seq<nat>, c: nat, l: Link)
    requires IsChain(cs, p, l) && c < |cs| && Linked(cs[p[|p| - 1]], cs[c], l)
    ensures IsChain(cs, p + [c], l)
  {
    var q := p + [c];
    forall k | 0 <= k < |q| - 1
      ensures Linked(cs[q[k]], cs[q[k + 1]], l)
    {
      if k < |p| - 1 {
        assert q[k] == p[k] && q[k + 1] == p[k + 1];
      }
    }
  }

  function Reverse(p: seq<nat>): (r: seq<nat>)
    ensures |r| == |p| && forall k :: 0 <= k < |p| ==> r[k] == p[|p| - 1 - k]
  {
    seq(|p|, k requires 0 <= k < |p| => p[|p| - 1 - k])
  }

  lemma ChainReverse(cs: seq<Cand>, p: seq<nat>, l: Link)
    requires IsChain(cs, p, l)
    ensures IsChain(cs, Reverse(p), l)
  {
    var r := Reverse(p);
    forall k | 0 <= k < |r| - 1
      ensures Linked(cs[r[k]], cs[r[k + 1]], l)
    {
      var k' := |p| - 2 - k;
      assert r[k] == p[k' + 1] && r[k + 1] == p[k'];
      LinkedSymmetric(cs[p[k']], cs[p[k' + 1]], l);
    }
  }

  lemma ChainJoin(cs: seq<Cand>, p: seq<nat>, q: seq<nat>, l: Link)
    requires IsChain(cs, p, l) && IsChain(cs, q, l) && p[|p| - 1] == q[0]
    ensures IsChain(cs, p + q[1..], l)
  {
    var r := p + q[1..];
    forall k | 0 <= k < |r| - 1
      ensures Linked(cs[r[k]], cs[r[k + 1]], l)
    {
      if k < |p| - 1 {
        assert r[k] == p[k] && r[k + 1] == p[k + 1];
      } else {
        var k' := k - |p| + 1;
        assert r[k] == q[k'] && r[k + 1] == q[k' + 1];
      }
    }
  }

  /** Linked pixels carry the same label. */
  predicate Closed(cs: seq<Cand>, ls: seq<nat>, l: Link)
    requires |ls| == |cs|
  {
    forall a, b :: 0 <= a < |cs| && 0 <= b < |cs| && Linked(cs[a], cs[b], l) ==> ls[a] == ls[b]
  }

  /** Pixels with the same label are joined by a chain of links. */
  ghost predicate Connected(cs: seq<Cand>, ls: seq<nat>, l: Link)
    requires |ls| == |cs|
  {
    forall a, b :: 0 <= a < |cs| && 0 <= b < |cs| && ls[a] == ls[b] ==> exists p :: Joins(cs, p, a, b, l)
  }

  /** `ls` are the labels after the last pixel of `cs`, given the labels
      `prev` of the pixels before it. */
  predicate Step(cs: seq<Cand>, prev: seq<nat>, ls: seq<nat>, l: Link) {
    && |cs| == |prev| + 1 && |ls| == |cs|
    && ls[|prev|] == |prev|
    && (forall m :: 0 <= m < |prev| ==> prev[m] < |prev|)
    && (forall m :: 0 <= m < |prev| ==> ls[m] == if Touches(cs, prev, prev[m], l) then |prev| else prev[m])
  }

  lemma LabelsStep(cs: seq<Cand>, l: Link)
    requires cs != []
    ensures Step(cs, Labels(cs[..|cs| - 1], l), Labels(cs, l), l)
  {
  }

  /** Closure is kept when the last pixel is added. */
  lemma ClosedStep(cs: seq<Cand>, prev: seq<nat>, ls: seq<nat>, l: Link)
    requires Step(cs, prev, ls, l) && Closed(cs[..|prev|], prev, l)
    ensures Closed(cs, ls, l)
  {
    var x := |prev|;
    forall a, b | 0 <= a < |cs| && 0 <= b < |cs| && Linked(cs[a], cs[b], l)
      ensures ls[a] == ls[b]
    {
      if a < x && b < x {
        assert cs[..x][a] == cs[a] && cs[..x][b] == cs[b];
        assert prev[a] == prev[b];
      } else if a < x {
        assert Touches(cs, prev, prev[a], l);
      } else if b < x {
        LinkedSymmetric(cs[a], cs[b], l);
        assert Touches(cs, prev, prev[b], l);
      }
    }
  }

  /** A pixel that the last pixel's cluster absorbs is joined to the last
      pixel by a chain. */
  lemma ChainToLast(cs: seq<Cand>, prev: seq<nat>, l: Link, a: nat, x: nat) returns (p: seq<nat>)
    requires |cs| == |prev| + 1 && x == |prev| && a < x
    requires Connected(cs[..x], prev, l)
    requires Touches(cs, prev, prev[a], l)
    ensures Joins(cs, p, a, x, l)
  {
    var m :| 0 <= m < x && prev[m] == prev[a] && Linked(cs[m], cs[x], l);
    var q :| Joins(cs[..x], q, a, m, l);
    ChainLift(cs, x, q, l);
    ChainExtend(cs, q, x, l);
    p := q + [x];
  }

  /** Connectedness is kept when the last pixel is added. */
  lemma ConnectedStep(cs: seq<Cand>, prev: seq<nat>, ls: seq<nat>, l: Link)
    requires Step(cs, prev, ls, l) && Connected(cs[..|prev|], prev, l)
    ensures Connected(cs, ls, l)
  {
    var x := |prev|;
    forall a, b | 0 <= a < |cs| && 0 <= b < |cs| && ls[a] == ls[b]
      ensures exists p :: Joins(cs, p, a, b, l)
    {
      if ls[a] == x {
        var pa, pb := [x], [x];
        if a != x {
          pa := ChainToLast(cs, prev, l, a, x);
        }
        if b != x {
          pb := ChainToLast(cs, prev, l, b, x);
        }
        ChainReverse(cs, pb, l);
        ChainJoin(cs, pa, Reverse(pb), l);
        assert Joins(cs, pa + Reverse(pb)[1..], a, b, l);
      } else {
        assert a < x && b < x && prev[a] == prev[b];
        var p :| Joins(cs[..x], p, a, b, l);
        ChainLift(cs, x, p, l);
        assert Joins(cs, p, a, b, l);
      }
    }
  }

  lemma {:induction false} LabelsInvariant(cs: seq<Cand>, l: Link)
    ensures Closed(cs, Labels(cs, l), l) && Connected(cs, Labels(cs, l), l)
  {
    if cs != [] {
      var prev := Labels(cs[..|cs| - 1], l);
      LabelsInvariant(cs[..|cs| - 1], l);
      LabelsStep(cs, l);
      ClosedStep(cs, prev, Labels(cs, l), l);
      ConnectedStep(cs, prev, Labels(cs, l), l);
    }
  }

  lemma {:induction false} ChainSameLabel(cs: seq<Cand>, ls: seq<nat>, p: seq<nat>, l: Link)
    requires |ls| == |cs| && Closed(cs, ls, l) && IsChain(cs, p, l)
    ensures ls[p[0]] == ls[p[|p| - 1]]
  {
    if |p| > 1 {
      var q := p[..|p| - 1];
      assert IsChain(cs, q, l) by {
        forall k | 0 <= k < |q| - 1
          ensures Linked(cs[q[k]], cs[q[k + 1]], l)
        {
          assert q[k] == p[k] && q[k + 1] == p[k + 1];
        }
      }
      ChainSameLabel(cs, ls, q, l);
      assert Linked(cs[p[|p| - 2]], cs[p[|p| - 1]], l);
    }
  }

  /** The clusters are the connected components of the link relation: two
      pixels share a label exactly when a chain of linked pixels joins them. */
  lemma SameClusterIffJoined(cs: seq<Cand>, l: Link, a: nat, b: nat)
    requires a < |cs| && b < |cs|
    ensures Labels(cs, l)[a] == Labels(cs, l)[b] <==> exists p :: Joins(cs, p, a, b, l)
  {
    LabelsInvariant(cs, l);
    if p :| Joins(cs, p, a, b, l) {
      ChainSameLabel(cs, Labels(cs, l), p, l);
    }
  }

  // ---------------------------------------------------------------------------
  // ConsistencyPostprocessing: merging clusters

  /** The summed probability of the pixels labelled `lab`. */
  function ClusterSum(cs: seq<Cand>, ls: seq<nat>, lab: nat): real
    requires |ls| == |cs|
  {
    if cs == [] then 0.0
    else
      var x := |cs| - 1;
      ClusterSum(cs[..x], ls[..x], lab) + (if ls[x] == lab then cs[x].p else 0.0)
  }

  /** Pixel a is its cluster's representative: the first pixel of highest
      probability in the cluster. */
  predicate IsRep(cs: seq<Cand>, ls: seq<nat>, a: nat)
    requires |ls| == |cs| && a < |cs|
  {
    && (forall m :: 0 <= m < |cs| && ls[m] == ls[a] ==> cs[m].p <= cs[a].p)
    && (forall m :: 0 <= m < a && ls[m] == ls[a] ==> cs[m].p < cs[a].p)
  }

  /** `_forward_raw_impl` on the active pixels of a frame: the
      representative of each cluster carries the cluster's summed
      probability, every other member probability 0. */
  function RawProbs(cs: seq<Cand>, l: Link): (ps: seq<real>)
    ensures |ps| == |cs|
  {
    var ls := Labels(cs, l);
    seq(|cs|, a requires 0 <= a < |cs| => if IsRep(cs, ls, a) then ClusterSum(cs, ls, ls[a]) else 0.0)
  }

  /** A cluster has at most one representative. */
  lemma RepUnique(cs: seq<Cand>, ls: seq<nat>, a: nat, b: nat)
    requires |ls| == |cs| && a < |cs| && b < |cs| && ls[a] == ls[b]
    requires IsRep(cs, ls, a) && IsRep(cs, ls, b)
    ensures a == b
  {
  }

  /** The first pixel of highest probability labelled `lab` among the first k. */
  function Best(cs: seq<Cand>, ls: seq<nat>, lab: nat, k: nat): (r: Option<nat>)
    requires |ls| == |cs| && k <= |cs|
    ensures r.None? <==> forall m :: 0 <= m < k ==> ls[m] != lab
    ensures r.Some? ==> (r.value < k && ls[r.value] == lab
      && (forall m :: 0 <= m < k && ls[m] == lab ==> cs[m].p <= cs[r.value].p)
      && (forall m :: 0 <= m < r.value && ls[m] == lab ==> cs[m].p < cs[r.value].p))
  {
    if k == 0 then None
    else
      var prev := Best(cs, ls, lab, k - 1);
      if ls[k - 1] != lab then prev
      else if prev.None? || cs[prev.value].p < cs[k - 1].p then Some(k - 1)
      else prev
  }

  /** Every cluster has exactly one representative. */
  lemma RepExists(cs: seq<Cand>, ls: seq<nat>, a: nat)
    requires |ls| == |cs| && a < |cs|
    ensures exists b :: 0 <= b < |cs| && ls[b] == ls[a] && IsRep(cs, ls, b)
  {
    var b := Best(cs, ls, ls[a], |cs|);
    assert IsRep(cs, ls, b.value);
  }

  lemma {:induction false} ClusterSumOnly(cs: seq<Cand>, ls: seq<nat>, a: nat)
    requires |ls| == |cs| && a < |cs|
    requires forall m :: 0 <= m < |cs| && m != a ==> ls[m] != ls[a]
    ensures ClusterSum(cs, ls, ls[a]) == cs[a].p
  {
    var x := |cs| - 1;
    if a < x {
      ClusterSumOnly(cs[..x], ls[..x], a);
    } else {
      ClusterSumNone(cs[..x], ls[..x], ls[a]);
    }
  }

  lemma {:induction false} ClusterSumNone(cs: seq<Cand>, ls: seq<nat>, lab: nat)
    requires |ls| == |cs| && forall m :: 0 <= m < |cs| ==> ls[m] != lab
    ensures ClusterSum(cs, ls, lab) == 0.0
  {
    if cs != [] {
      ClusterSumNone(cs[..|cs| - 1], ls[..|cs| - 1], lab);
    }
  }

  lemma FirstLink(cs: seq<Cand>, p: seq<nat>, l: Link)
    ensures IsChain(cs, p, l) && |p| >= 2 ==> Linked(cs[p[0]], cs[p[1]], l)
  {
  }

  /** A pixel linked to no other pixel is a cluster of its own and keeps
      its probability. */
  lemma IsolatedKeepsProb(cs: seq<Cand>, l: Link, a: nat)
    requires a < |cs| && forall m :: 0 <= m < |cs| ==> !Linked(cs[a], cs[m], l)
    ensures RawProbs(cs, l)[a] == cs[a].p
  {
    var ls := Labels(cs, l);
    forall m | 0 <= m < |cs| && m != a
      ensures ls[m] != ls[a]
    {
      SameClusterIffJoined(cs, l, a, m);
      forall p
        ensures !Joins(cs, p, a, m, l)
      {
        FirstLink(cs, p, l);
      }
    }
    ClusterSumOnly(cs, ls, a);
  }

  /** Two linked pixels merge: the one of higher probability (the first on
      a tie) carries both probabilities, the other 0. */
  lemma LinkedPairMerges(c0: Cand, c1: Cand, l: Link)
    requires Linked(c0, c1, l)
    ensures RawProbs([c0, c1], l) == if c1.p <= c0.p then [c0.p + c1.p, 0.0] else [0.0, c0.p + c1.p]
  {
    var cs := [c0, c1];
    LinkedSymmetric(c0, c1, l);
    assert cs[..1] == [c0];
    assert Labels(cs[..1], l) == [0];
    assert cs[0] == c0 && cs[1] == c1;
    assert Touches(cs, [0], 0, l);
    var ls := Labels(cs, l);
    assert ls == [1, 1];
    assert cs[..1] == [c0] && ls[..1] == [1];
    assert [c0][..0] == [] && [1][..0] == [];
    assert ClusterSum([c0], [1], 1) == c0.p;
    assert ClusterSum(cs, ls, 1) == c0.p + c1.p;
  }

  /** Two pixels that are not linked stay apart and keep their probabilities. */
  lemma UnlinkedPairStays(c0: Cand, c1: Cand, l: Link)
    requires !Linked(c0, c1, l)
    ensures RawProbs([c0, c1], l) == [c0.p, c1.p]
  {
    var cs := [c0, c1];
    LinkedSymmetric(c0, c1, l);
    assert !Adjacent(c0, c0) && !Adjacent(c1, c1);
    IsolatedKeepsProb(cs, l, 0);
    IsolatedKeepsProb(cs, l, 1);
  }

  // ---------------------------------------------------------------------------
  // ConsistencyPostprocessing: detections

  /** The pixels whose merged probability reaches `em_th`, as detections of frame n. */
  function Emit(cs: seq<Cand>, ps: seq<real>, n: nat, emTh: real): (ds: seq<Detection>)
    requires |ps| == |cs|
    ensures forall d :: d in ds <==> exists a :: 0 <= a < |cs| && ps[a] >= emTh && d == Detection(n, ps[a], FeatureSeq(cs[a].f))
  {
    if cs == [] then []
    else
      var x := |cs| - 1;
      var prev := Emit(cs[..x], ps[..x], n, emTh);
      assert forall a :: 0 <= a < x ==> cs[..x][a] == cs[a] && ps[..x][a] == ps[a];
      prev + if ps[x] >= emTh then [Detection(n, ps[x], FeatureSeq(cs[x].f))] else []
  }

  /** The active pixels of frame n, in row-major order, with their probability and features. */
  function Candidates(x: Tensor, n: nat, rawTh: real): (cs: seq<Cand>)
    requires WellFormed(x) && |x.shape| == 4 && x.shape[1] == 6 && n < x.shape[0]
    ensures forall a :: 0 <= a < |cs| ==> (cs[a].i < x.shape[2] && cs[a].j < x.shape[3]
      && cs[a].p == At(x, n, 0, cs[a].i, cs[a].j) && cs[a].p >= rawTh)
  {
    var g := x.data[n][0];
    assert IsGrid(g, x.shape[2], x.shape[3]);
    var px := PlaneActive(FilterPlane(g, rawTh), n);
    assert forall k :: 0 <= k < |px| ==> px[k] in px;
    seq(|px|, k requires 0 <= k < |px| =>
      var (i, j) := (px[k].i, px[k].j);
      Cand(i, j, g[i][j], Features(x.data[n][1][i][j], x.data[n][2][i][j], x.data[n][3][i][j], x.data[n][4][i][j], x.data[n][5][i][j])))
  }

  /** Every active pixel of frame n is a candidate. */
  lemma CandidatesComplete(x: Tensor, n: nat, rawTh: real, i: nat, j: nat)
    requires WellFormed(x) && |x.shape| == 4 && x.shape[1] == 6 && n < x.shape[0]
    requires i < x.shape[2] && j < x.shape[3] && At(x, n, 0, i, j) >= rawTh
    ensures exists a :: 0 <= a < |Candidates(x, n, rawTh)| && Candidates(x, n, rawTh)[a].i == i && Candidates(x, n, rawTh)[a].j == j
  {
    var g := x.data[n][0];
    assert IsGrid(g, x.shape[2], x.shape[3]);
    var px := PlaneActive(FilterPlane(g, rawTh), n);
    assert Pixel(n, i, j) in px;
    var k :| 0 <= k < |px| && px[k] == Pixel(n, i, j);
    assert Candidates(x, n, rawTh)[k].i == i;
  }

  /** The detections of frame n. */
  function FrameDetections(x: Tensor, n: nat, rawTh: real, emTh: real, l: Link): (ds: seq<Detection>)
    requires WellFormed(x) && |x.shape| == 4 && x.shape[1] == 6 && n < x.shape[0]
  {
    var cs := Candidates(x, n, rawTh);
    Emit(cs, RawProbs(cs, l), n, emTh)
  }

  /** The detections of frames 0 .. k - 1, frame by frame. */
  function AllDetections(x: Tensor, k: nat, rawTh: real, emTh: real, l: Link): (ds: seq<Detection>)
    requires WellFormed(x) && |x.shape| == 4 && x.shape[1] == 6 && k <= x.shape[0]
    ensures forall d :: d in ds ==> d.frameIx < k && d.prob >= emTh
  {
    if k == 0 then []
    else AllDetections(x, k - 1, rawTh, emTh, l) + FrameDetections(x, k - 1, rawTh, emTh, l)
  }

  /** The number of pixels whose probability reaches the threshold. */
  function ActiveCount(x: Tensor, th: real): nat
    requires WellFormed(x) && |x.shape| == 4 && x.shape[1] >= 1
  {
    |MaskActive(Filter(Probabilities(x), th))|
  }

  /** N * H * W. */
  function PixelCount(x: Tensor): nat
    requires |x.shape| == 4
  {
    x.shape[0] * (x.shape[2] * x.shape[3])
  }

  class ConsistencyPostprocessing {
    const rawTh: real
    const emTh: real
    const latTh: real
    const axTh: Option<real>
    const matchDims: nat
    var returnFormat: Option<string>
    var skipTh: real
    var numWorkers: nat

    constructor(rawTh: real, emTh: real, latTh: real, axTh: Option<real>, matchDims: nat,
                returnFormat: Option<string>, skipTh: real, numWorkers: nat)
      ensures this.rawTh == rawTh && this.emTh == emTh && this.latTh == latTh && this.axTh == axTh
      ensures this.matchDims == matchDims && this.returnFormat == returnFormat
      ensures this.skipTh == skipTh && this.numWorkers == numWorkers
    {
      this.rawTh := rawTh;
      this.emTh := emTh;
      this.latTh := latTh;
      this.axTh := axTh;
      this.matchDims := matchDims;
      this.returnFormat := returnFormat;
      this.skipTh := skipTh;
      this.numWorkers := numWorkers;
    }

    /** `__init__`: ValueError, and no processor, for an unsupported return format. */
    static method Create(rawTh: real, emTh: real, latTh: real, axTh: Option<real>, matchDims: nat,
                         returnFormat: Option<string>, skipTh: real, numWorkers: nat)
      returns (r: Result<ConsistencyPostprocessing>)
      ensures r.Err? <==> !ValidReturnFormat(returnFormat)
      ensures r.Err? ==> r.error.ValueError?
      ensures r.Ok? ==> (fresh(r.value) && r.value.returnFormat == returnFormat && r.value.rawTh == rawTh
        && r.value.emTh == emTh && r.value.latTh == latTh && r.value.axTh == axTh && r.value.matchDims == matchDims
        && r.value.skipTh == skipTh && r.value.numWorkers == numWorkers)
    {
      var check := CheckReturnFormat(returnFormat);
      if check.Fail? {
        return Err(check.error);
      }
      var o := new ConsistencyPostprocessing(rawTh, emTh, latTh, axTh, matchDims, returnFormat, skipTh, numWorkers);
      return Ok(o);
    }

    function SanityCheck(): (o: Outcome)
      reads this
      ensures o == Pass <==> ValidReturnFormat(returnFormat)
    {
      CheckReturnFormat(returnFormat)
    }

    /** The linking thresholds; the axial one only when matching in 3D. */
    function LinkConfig(): (l: Link)
      ensures l.latTh == latTh && (l.axTh.Some? <==> matchDims == 3 && axTh.Some?)
    {
      Link(latTh, if matchDims == 3 then axTh else None)
    }

    /** `skip_if`: skip the batch when the fraction of pixels whose
        probability reaches `raw_th` exceeds `skip_th`. */
    function SkipIf(x: Tensor): bool
      requires WellFormed(x) && |x.shape| == 4 && x.shape[1] >= 1
      reads this
    {
      ActiveCount(x, rawTh) as real > skipTh * (PixelCount(x) as real)
    }

    /** `forward`: ValueError unless there are exactly six channels
        (probability and five features); otherwise the detections of every
        frame in the configured return format. */
    function Forward(x: Tensor): (r: Result<Output>)
      requires WellFormed(x) && |x.shape| == 4
      reads this
      ensures x.shape[1] != 6 ==> r.Err? && r.error.ValueError?
      ensures r.Err? <==> x.shape[1] != 6 || !ValidReturnFormat(returnFormat)
      ensures r.Ok? && r.value.BatchSet? ==> forall d :: d in r.value.detections ==> d.frameIx < x.shape[0] && d.prob >= emTh
      ensures r.Ok? && r.value.FrameSet? ==> (|r.value.frames| == x.shape[0]
        && forall n, d :: 0 <= n < x.shape[0] && d in r.value.frames[n] ==> d.frameIx == n && d.prob >= emTh)
    {
      if x.shape[1] != 6 then Err(ValueError("Unsupported channel dimension."))
      else Format(AllDetections(x, x.shape[0], rawTh, emTh, LinkConfig()), x.shape[0], returnFormat)
    }
  }

  // ---------------------------------------------------------------------------
  // ConsistencyPostprocessing: properties

  /** The merged detections of one frame. */
  function FrameEmit(cs: seq<Cand>, n: nat, l: Link, emTh: real): seq<Detection> {
    Emit(cs, RawProbs(cs, l), n, emTh)
  }

  function Probs(cs: seq<Cand>): (ps: seq<real>)
    ensures |ps| == |cs| && forall a :: 0 <= a < |cs| ==> ps[a] == cs[a].p
  {
    seq(|cs|, a requires 0 <= a < |cs| => cs[a].p)
  }

  /** Isolated pixels (the easy case): when no two active pixels of a frame
      are linked, the raw stage leaves every probability as it is and the
      detections are the pixels whose own probability reaches `em_th`. */
  lemma AllIsolatedUnchanged(cs: seq<Cand>, l: Link, n: nat, emTh: real)
    requires forall a, b :: 0 <= a < |cs| && 0 <= b < |cs| ==> !Linked(cs[a], cs[b], l)
    ensures RawProbs(cs, l) == Probs(cs)
    ensures FrameEmit(cs, n, l, emTh) == Emit(cs, Probs(cs), n, emTh)
  {
    forall a | 0 <= a < |cs|
      ensures RawProbs(cs, l)[a] == cs[a].p
    {
      IsolatedKeepsProb(cs, l, a);
    }
  }

  lemma EmitPair(c0: Cand, c1: Cand, p0: real, p1: real, n: nat, emTh: real)
    ensures Emit([c0, c1], [p0, p1], n, emTh)
      == (if p0 >= emTh then [Detection(n, p0, FeatureSeq(c0.f))] else [])
       + (if p1 >= emTh then [Detection(n, p1, FeatureSeq(c1.f))] else [])
  {
    assert [c0, c1][..1] == [c0] && [p0, p1][..1] == [p0];
    assert [c0][..0] == [] && [p0][..0] == [];
    assert Emit([c0], [p0], n, emTh) == Emit([], [], n, emTh) + if p0 >= emTh then [Detection(n, p0, FeatureSeq(c0.f))] else [];
  }

  /** The test fixture's linking: lateral threshold 0.5, 2D matching. */
  function TestLink(): Link {
    Link(0.5, None)
  }

  function FeaturesXY(x: real, y: real): Features {
    Features(0.0, x, y, 0.0, 0.0)
  }

  /** The easy case: frame 0 holds 0.3 and 0.4, below `em_th` = 0.5, frame 1
      two isolated pixels of 0.6; the batch gives two detections. */
  lemma EasyCase()
    ensures FrameEmit([Cand(0, 0, 0.3, FeaturesXY(0.0, 0.3)), Cand(0, 2, 0.4, FeaturesXY(0.0, 0.5))], 0, TestLink(), 0.5) == []
    ensures FrameEmit([Cand(2, 4, 0.6, FeaturesXY(0.0, 1.0)), Cand(2, 6, 0.6, FeaturesXY(0.0, 1.2))], 1, TestLink(), 0.5)
      == [Detection(1, 0.6, FeatureSeq(FeaturesXY(0.0, 1.0))), Detection(1, 0.6, FeatureSeq(FeaturesXY(0.0, 1.2)))]
  {
    var a0, a1 := Cand(0, 0, 0.3, FeaturesXY(0.0, 0.3)), Cand(0, 2, 0.4, FeaturesXY(0.0, 0.5));
    assert !Adjacent(a0, a1);
    UnlinkedPairStays(a0, a1, TestLink());
    EmitPair(a0, a1, 0.3, 0.4, 0, 0.5);
    var b0, b1 := Cand(2, 4, 0.6, FeaturesXY(0.0, 1.0)), Cand(2, 6, 0.6, FeaturesXY(0.0, 1.2));
    assert !Adjacent(b0, b1);
    UnlinkedPairStays(b0, b1, TestLink());
    EmitPair(b0, b1, 0.6, 0.6, 1, 0.5);
  }

  /** The hard cases: two pixels of 0.7 two columns apart stay two
      detections; neighbours of 0.6 whose x differ by 0.2 merge into one
      detection of probability 1.2; neighbours of 0.7 whose y differ by
      0.51 stay two detections. */
  lemma HardCases()
    ensures FrameEmit([Cand(0, 0, 0.7, FeaturesXY(0.0, 0.0)), Cand(0, 2, 0.7, FeaturesXY(0.0, 0.0))], 0, TestLink(), 0.5)
      == [Detection(0, 0.7, FeatureSeq(FeaturesXY(0.0, 0.0))), Detection(0, 0.7, FeatureSeq(FeaturesXY(0.0, 0.0)))]
    ensures FrameEmit([Cand(2, 4, 0.6, FeaturesXY(20.0, 0.0)), Cand(2, 5, 0.6, FeaturesXY(20.2, 0.0))], 1, TestLink(), 0.5)
      == [Detection(1, 1.2, FeatureSeq(FeaturesXY(20.0, 0.0)))]
    ensures FrameEmit([Cand(4, 4, 0.7, FeaturesXY(0.0, 49.0)), Cand(4, 5, 0.7, FeaturesXY(0.0, 49.51))], 2, TestLink(), 0.5)
      == [Detection(2, 0.7, FeatureSeq(FeaturesXY(0.0, 49.0))), Detection(2, 0.7, FeatureSeq(FeaturesXY(0.0, 49.51)))]
  {
    var a0, a1 := Cand(0, 0, 0.7, FeaturesXY(0.0, 0.0)), Cand(0, 2, 0.7, FeaturesXY(0.0, 0.0));
    assert !Adjacent(a0, a1);
    UnlinkedPairStays(a0, a1, TestLink());
    EmitPair(a0, a1, 0.7, 0.7, 0, 0.5);
    var b0, b1 := Cand(2, 4, 0.6, FeaturesXY(20.0, 0.0)), Cand(2, 5, 0.6, FeaturesXY(20.2, 0.0));
    assert Sq(20.0 - 20.2) + Sq(0.0 - 0.0) == 0.04;
    assert Linked(b0, b1, TestLink());
    LinkedPairMerges(b0, b1, TestLink());
    EmitPair(b0, b1, 1.2, 0.0, 1, 0.5);
    var e0, e1 := Cand(4, 4, 0.7, FeaturesXY(0.0, 49.0)), Cand(4, 5, 0.7, FeaturesXY(0.0, 49.51));
    assert Sq(0.0 - 0.0) + Sq(49.0 - 49.51) == 0.2601;
    assert !Linked(e0, e1, TestLink());
    UnlinkedPairStays(e0, e1, TestLink());
    EmitPair(e0, e1, 0.7, 0.7, 2, 0.5);
  }

  // ---------------------------------------------------------------------------
  // skip_if

  lemma {:induction false} RowActiveAll(row: seq<bool>, n: nat, i: nat)
    requires forall j :: 0 <= j < |row| ==> row[j]
    ensures |RowActive(row, n, i)| == |row|
  {
    if row != [] {
      RowActiveAll(row[..|row| - 1], n, i);
    }
  }

  lemma MulSucc(k: nat, w: nat)
    ensures (k + 1) * w == k * w + w
  {
  }

  lemma PlaneActiveLength(plane: seq<seq<bool>>, n: nat)
    requires plane != []
    ensures |PlaneActive(plane, n)| == |PlaneActive(plane[..|plane| - 1], n)| + |RowActive(plane[|plane| - 1], n, |plane| - 1)|
  {
  }

  lemma MaskActiveLength(m: Mask)
    requires m != []
    ensures |MaskActive(m)| == |MaskActive(m[..|m| - 1])| + |PlaneActive(m[|m| - 1], |m| - 1)|
  {
  }

  lemma {:induction false} PlaneActiveAll(plane: seq<seq<bool>>, n: nat, w: nat)
    requires forall i :: 0 <= i < |plane| ==> |plane[i]| == w && forall j :: 0 <= j < w ==> plane[i][j]
    ensures |PlaneActive(plane, n)| == |plane| * w
  {
    if plane != [] {
      var k := |plane| - 1;
      PlaneActiveAll(plane[..k], n, w);
      RowActiveAll(plane[k], n, k);
      PlaneActiveLength(plane, n);
      MulSucc(k, w);
    }
  }

  lemma {:induction false} MaskActiveAll(m: Mask, h: nat, w: nat)
    requires forall n :: 0 <= n < |m| ==> |m[n]| == h
    requires forall n, i :: 0 <= n < |m| && 0 <= i < h ==> |m[n][i]| == w && forall j :: 0 <= j < w ==> m[n][i][j]
    ensures |MaskActive(m)| == |m| * (h * w)
  {
    if m != [] {
      var k := |m| - 1;
      MaskActiveAll(m[..k], h, w);
      PlaneActiveAll(m[k], k, w);
      MaskActiveLength(m);
      MulSucc(k, h * w);
    }
  }

  /** Every pixel active: all N * H * W pixels are counted. */
  lemma ActiveCountAll(x: Tensor, th: real)
    requires WellFormed(x) && |x.shape| == 4 && x.shape[1] >= 1
    requires forall n, i, j :: 0 <= n < x.shape[0] && 0 <= i < x.shape[2] && 0 <= j < x.shape[3] ==> At(x, n, 0, i, j) >= th
    ensures ActiveCount(x, th) == PixelCount(x)
  {
    var det := Probabilities(x);
    var m := Filter(det, th);
    forall n | 0 <= n < |m|
      ensures |m[n]| == x.shape[2]
    {
      assert IsGrid(det[n], x.shape[2], x.shape[3]);
    }
    forall n, i | 0 <= n < |m| && 0 <= i < x.shape[2]
      ensures |m[n][i]| == x.shape[3] && forall j :: 0 <= j < x.shape[3] ==> m[n][i][j]
    {
      assert IsGrid(det[n], x.shape[2], x.shape[3]);
      assert m[n] == FilterPlane(det[n], th);
      forall j | 0 <= j < x.shape[3]
        ensures m[n][i][j]
      {
        assert At(x, n, 0, i, j) >= th;
      }
    }
    MaskActiveAll(m, x.shape[2], x.shape[3]);
  }

  lemma ActiveAtLeast(x: Tensor, th: real, q: Pixel)
    requires WellFormed(x) && |x.shape| == 4 && x.shape[1] >= 1
    requires q in MaskActive(Filter(Probabilities(x), th))
    ensures q.n < x.shape[0] && q.i < x.shape[2] && q.j < x.shape[3] && At(x, q.n, 0, q.i, q.j) >= th
  {
    var det := Probabilities(x);
    ActivePixels(det, th);
    assert IsGrid(det[q.n], x.shape[2], x.shape[3]);
  }

  /** No pixel active: the count is 0. */
  lemma ActiveCountNone(x: Tensor, th: real)
    requires WellFormed(x) && |x.shape| == 4 && x.shape[1] >= 1
    requires forall n, i, j :: 0 <= n < x.shape[0] && 0 <= i < x.shape[2] && 0 <= j < x.shape[3] ==> At(x, n, 0, i, j) < th
    ensures ActiveCount(x, th) == 0
  {
    var det := Probabilities(x);
    ActivePixels(det, th);
    var r := MaskActive(Filter(det, th));
    if r != [] {
      var q := r[0];
      assert q in r;
      assert IsGrid(det[q.n], x.shape[2], x.shape[3]);
      ActiveAtLeast(x, th, q);
      assert false;
    }
  }

  lemma ProductPositive(n: nat, h: nat, w: nat)
    requires n > 0 && h > 0 && w > 0
    ensures n * (h * w) > 0
  {
    assert h * w > 0;
  }

  lemma ScaledBelow(s: real, c: nat, a: nat)
    requires s < 1.0 && c > 0 && a == c
    ensures a as real > s * (c as real)
  {
  }

  lemma ScaledNonNegative(s: real, c: nat)
    requires s >= 0.0
    ensures s * (c as real) >= 0.0
  {
  }

  /** `skip_if` is true for a batch in which every probability reaches
      `raw_th`, whenever `skip_th` < 1 (the all-ones batch). */
  lemma SkipIfAllActive(o: ConsistencyPostprocessing, x: Tensor)
    requires WellFormed(x) && |x.shape| == 4 && x.shape[1] >= 1
    requires x.shape[0] > 0 && x.shape[2] > 0 && x.shape[3] > 0 && o.skipTh < 1.0
    requires forall n, i, j :: 0 <= n < x.shape[0] && 0 <= i < x.shape[2] && 0 <= j < x.shape[3] ==> At(x, n, 0, i, j) >= o.rawTh
    ensures o.SkipIf(x)
  {
    ActiveCountAll(x, o.rawTh);
    var c := PixelCount(x);
    assert c > 0 by {
      ProductPositive(x.shape[0], x.shape[2], x.shape[3]);
    }
    ScaledBelow(o.skipTh, c, ActiveCount(x, o.rawTh));
  }

  /** `skip_if` is false for a batch in which no probability reaches
      `raw_th`, whenever `skip_th` >= 0 (the all-zeros batch). */
  lemma SkipIfNoneActive(o: ConsistencyPostprocessing, x: Tensor)
    requires WellFormed(x) && |x.shape| == 4 && x.shape[1] >= 1 && o.skipTh >= 0.0
    requires forall n, i, j :: 0 <= n < x.shape[0] && 0 <= i < x.shape[2] && 0 <= j < x.shape[3] ==> At(x, n, 0, i, j) < o.rawTh
    ensures !o.SkipIf(x)
  {
    ActiveCountNone(x, o.rawTh);
    ScaledNonNegative(o.skipTh, PixelCount(x));
  }

  /** The 1 x 1 x 2 x 3 batch with one probability of 0.5: one active pixel
      of six is below `skip_th` = 0.2. */
  lemma SkipIfOneOfSix(o: ConsistencyPostprocessing)
    requires o.rawTh == 0.1 && o.skipTh == 0.2
    ensures !o.SkipIf(Tensor([1, 1, 2, 3], [[[[0.5, 0.0, 0.0], [0.0, 0.0, 0.0]]]]))
  {
    var x := Tensor([1, 1, 2, 3], [[[[0.5, 0.0, 0.0], [0.0, 0.0, 0.0]]]]);
    var g := x.data[0][0];
    assert IsGrid(g, 2, 3);
    assert WellFormed(x);
    var det := Probabilities(x);
    ActivePixels(det, 0.1);
    var r := MaskActive(Filter(det, 0.1));
    assert forall q :: q in r ==> q == Pixel(0, 0, 0) by {
      forall q | q in r
        ensures q == Pixel(0, 0, 0)
      {
        assert det[q.n] == g;
      }
    }
    forall a | 0 <= a < |r|
      ensures r[a] == Pixel(0, 0, 0)
    {
      assert r[a] in r;
    }
    FirstTwoDiffer(r);
    assert ActiveCount(x, 0.1) <= 1;
  }

  /** The first two pixels of a row-major list differ. */
  lemma FirstTwoDiffer(r: seq<Pixel>)
    requires Increasing(r)
    ensures |r| < 2 || r[0] != r[1]
  {
  }
}
