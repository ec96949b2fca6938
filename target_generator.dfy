/** Target generation: the frame window of a target generator, the region
    of interest around central pixels, the parameter-list target that
    scatters emitters into a slot table, and the fork of several generators. */
module TargetGenerators {
  import opened Wrappers
  import opened EmitterSets

  // ---------------------------------------------------------------------------
  // Frame window

  /** Number of frames rendered for the inclusive window [lo, hi]. A
      reversed window (hi < lo) renders no frame and raises nothing: the
      repository's tests use only valid windows, and that case is this
      model's own choice. */
  function RenderedFrameCount(lo: int, hi: int): nat {
    if hi - lo + 1 >= 0 then hi - lo + 1 else 0
  }

  /** A target generator: a frame window [ixLow, ixHigh] that callers may
      reassign between calls. */
  class TargetGenerator {
    var ixLow: int
    var ixHigh: int

    constructor (ixLow: int, ixHigh: int)
      ensures this.ixLow == ixLow && this.ixHigh == ixHigh
    {
      this.ixLow := ixLow;
      this.ixHigh := ixHigh;
    }

    /** Resolves the window (a missing bound falls back to the field) and
        renders one frame per index of the inclusive window; frame k holds
        exactly the emitters whose frame index is lo + k, whether or not the
        set is empty. */
    method Forward(em: EmitterSet, lo: Option<int>, hi: Option<int>) returns (frames: seq<EmitterSet>, l: int, h: int)
      ensures l == (if lo.Some? then lo.value else ixLow)
      ensures h == (if hi.Some? then hi.value else ixHigh)
      ensures |frames| == RenderedFrameCount(l, h)
      ensures forall k :: 0 <= k < |frames| ==> frames[k] == AtFrame(em, l + k)
    {
      l := if lo.Some? then lo.value else ixLow;
      h := if hi.Some? then hi.value else ixHigh;
      frames := [];
      var f := l;
      while f <= h
        invariant l <= f <= h + 1 || (f == l && h < l)
        invariant |frames| == f - l
        invariant forall k :: 0 <= k < |frames| ==> frames[k] == AtFrame(em, l + k)
        decreases h - f
      {
        frames := frames + [AtFrame(em, f)];
        f := f + 1;
      }
    }
  }

  /** The windows (0, 0) and (-1, 1) render 1 and 3 frames, for any set,
      including the empty one. */
  lemma RenderedFrameExamples()
    ensures RenderedFrameCount(0, 0) == 1 && RenderedFrameCount(-1, 1) == 3
  {
  }

  // ---------------------------------------------------------------------------
  // Region of interest around central pixels

  /** A central pixel: the frame (batch) index and the pixel of an emitter. */
  datatype CentralPx = CentralPx(batch: int, x: int, y: int)

  datatype RoiPx = RoiPx(batch: int, x: int, y: int, offX: int, offY: int, id: nat)

  /** Lowest and highest offset of a ROI of size r, -(r-1)//2 and (r-1)//2
      with Python's floor division. */
  function OffsetLow(r: nat): int { (-(r - 1)) / 2 }
  function OffsetHigh(r: nat): int { (r - 1) / 2 }

  /** The offsets of a ROI of size r in increasing order. */
  function Offsets(r: nat): (os: seq<int>)
    ensures |os| == if OffsetLow(r) <= OffsetHigh(r) then OffsetHigh(r) - OffsetLow(r) + 1 else 0
    ensures forall i :: 0 <= i < |os| ==> os[i] == OffsetLow(r) + i
  {
    var n := OffsetHigh(r) - OffsetLow(r) + 1;
    if n <= 0 then [] else seq(n, i requires 0 <= i < n => OffsetLow(r) + i)
  }

  function Concat<T>(p: seq<seq<T>>): seq<T> {
    if p == [] then [] else Concat(p[..|p| - 1]) + p[|p| - 1]
  }

  lemma {:induction false} ConcatMember<T>(p: seq<seq<T>>, x: T)
    ensures x in Concat(p) <==> exists i :: 0 <= i < |p| && x in p[i]
  {
    if p != [] {
      ConcatMember(p[..|p| - 1], x);
      if x in Concat(p[..|p| - 1]) {
        var i :| 0 <= i < |p| - 1 && x in p[..|p| - 1][i];
        assert x in p[i];
      }
    }
  }

  /** Every (offset x, offset y) pair of the ROI, x offset outermost, and
      for each pair every central pixel in order. */
  function RoiCandidates(cs: seq<CentralPx>, r: nat): seq<RoiPx> {
    var os := Offsets(r);
    Concat(seq(|os|, a requires 0 <= a < |os| => RoiBlock(cs, os, a)))
  }

  /** The candidates with x offset os[a]. */
  function RoiBlock(cs: seq<CentralPx>, os: seq<int>, a: nat): seq<RoiPx>
    requires a < |os|
  {
    Concat(seq(|os|, b requires 0 <= b < |os| => RoiRow(cs, os, a, b)))
  }

  /** The candidates with offsets (os[a], os[b]), one per central pixel. */
  function RoiRow(cs: seq<CentralPx>, os: seq<int>, a: nat, b: nat): seq<RoiPx>
    requires a < |os| && b < |os|
  {
    seq(|cs|, j requires 0 <= j < |cs| => RoiPx(cs[j].batch, cs[j].x + os[a], cs[j].y + os[b], os[a], os[b], j))
  }

  predicate InImage(p: RoiPx, width: int, height: int) {
    0 <= p.x < width && 0 <= p.y < height
  }

  function KeepInImage(s: seq<RoiPx>, width: int, height: int): (r: seq<RoiPx>)
    ensures forall p :: p in r <==> p in s && InImage(p, width, height)
  {
    if s == [] then []
    else KeepInImage(s[..|s| - 1], width, height)
         + (if InImage(s[|s| - 1], width, height) then [s[|s| - 1]] else [])
  }

  /** `_get_roi_px`: the pixels of the r x r region around every central
      pixel that lie inside the width x height image, each with its batch
      index, its offsets and the index of its central pixel. */
  function GetRoiPx(cs: seq<CentralPx>, r: nat, width: int, height: int): seq<RoiPx> {
    KeepInImage(RoiCandidates(cs, r), width, height)
  }

  /** p is central pixel p.id shifted by an offset pair within the ROI. */
  predicate RoiShaped(cs: seq<CentralPx>, r: nat, p: RoiPx) {
    && p.id < |cs|
    && OffsetLow(r) <= p.offX <= OffsetHigh(r) && OffsetLow(r) <= p.offY <= OffsetHigh(r)
    && p == RoiPx(cs[p.id].batch, cs[p.id].x + p.offX, cs[p.id].y + p.offY, p.offX, p.offY, p.id)
  }

  /** The characterisation of the ROI pixels: a pixel is returned exactly
      when it is central pixel j shifted by an offset pair within the ROI
      and it lies inside the image. */
  lemma RoiMember(cs: seq<CentralPx>, r: nat, width: int, height: int, p: RoiPx)
    ensures p in GetRoiPx(cs, r, width, height) <==>
      && InImage(p, width, height)
      && p.id < |cs|
      && OffsetLow(r) <= p.offX <= OffsetHigh(r) && OffsetLow(r) <= p.offY <= OffsetHigh(r)
      && p == RoiPx(cs[p.id].batch, cs[p.id].x + p.offX, cs[p.id].y + p.offY, p.offX, p.offY, p.id)
  {
    if p in RoiCandidates(cs, r) {
      CandidateShaped(cs, r, p);
    }
    if RoiShaped(cs, r, p) {
      ShapedCandidate(cs, r, p);
    }
  }

  lemma CandidateShaped(cs: seq<CentralPx>, r: nat, p: RoiPx)
    requires p in RoiCandidates(cs, r)
    ensures RoiShaped(cs, r, p)
  {
    var os := Offsets(r);
    var outer := seq(|os|, a requires 0 <= a < |os| => RoiBlock(cs, os, a));
    ConcatMember(outer, p);
    var a :| 0 <= a < |os| && p in outer[a];
    BlockShaped(cs, r, a, p);
  }

  lemma BlockShaped(cs: seq<CentralPx>, r: nat, a: nat, p: RoiPx)
    requires a < |Offsets(r)| && p in RoiBlock(cs, Offsets(r), a)
    ensures RoiShaped(cs, r, p)
  {
    var os := Offsets(r);
    var rows := seq(|os|, b requires 0 <= b < |os| => RoiRow(cs, os, a, b));
    ConcatMember(rows, p);
    var b :| 0 <= b < |os| && p in rows[b];
    var row := RoiRow(cs, os, a, b);
    var j :| 0 <= j < |row| && row[j] == p;
  }

  lemma ShapedCandidate(cs: seq<CentralPx>, r: nat, p: RoiPx)
    requires RoiShaped(cs, r, p)
    ensures p in RoiCandidates(cs, r)
  {
    var os := Offsets(r);
    var outer := seq(|os|, a requires 0 <= a < |os| => RoiBlock(cs, os, a));
    var a := p.offX - OffsetLow(r);
    var b := p.offY - OffsetLow(r);
    assert os[a] == p.offX && os[b] == p.offY;
    var rows := seq(|os|, b requires 0 <= b < |os| => RoiRow(cs, os, a, b));
    assert RoiRow(cs, os, a, b)[p.id] == p;
    assert p in rows[b];
    ConcatMember(rows, p);
    assert p in outer[a];
    ConcatMember(outer, p);
  }

  /** Every returned pixel lies in the image and carries offsets within
      -(r-1)//2 .. (r-1)//2. */
  lemma RoiPxBounds(cs: seq<CentralPx>, r: nat, width: int, height: int)
    ensures forall p :: p in GetRoiPx(cs, r, width, height) ==>
      && 0 <= p.x < width && 0 <= p.y < height
      && OffsetLow(r) <= p.offX <= OffsetHigh(r) && OffsetLow(r) <= p.offY <= OffsetHigh(r)
  {
    forall p | p in GetRoiPx(cs, r, width, height)
      ensures OffsetLow(r) <= p.offX <= OffsetHigh(r) && OffsetLow(r) <= p.offY <= OffsetHigh(r)
    {
      RoiMember(cs, r, width, height, p);
    }
  }

  /** A central pixel at least (r-1)//2 pixels away from every border
      receives its whole region: every offset pair of -(r-1)//2 .. (r-1)//2
      occurs, in x and in y, so the distinct offsets are exactly that range. */
  lemma RoiOffsetsComplete(cs: seq<CentralPx>, r: nat, width: int, height: int, j: nat, ox: int, oy: int)
    requires j < |cs|
    requires -OffsetLow(r) <= cs[j].x < width - OffsetHigh(r) && -OffsetLow(r) <= cs[j].y < height - OffsetHigh(r)
    requires OffsetLow(r) <= ox <= OffsetHigh(r) && OffsetLow(r) <= oy <= OffsetHigh(r)
    ensures RoiPx(cs[j].batch, cs[j].x + ox, cs[j].y + oy, ox, oy, j) in GetRoiPx(cs, r, width, height)
  {
    RoiMember(cs, r, width, height, RoiPx(cs[j].batch, cs[j].x + ox, cs[j].y + oy, ox, oy, j));
  }

  /** For the ROI sizes 1, 3, 5 and 7 the offset range is symmetric:
      -(r-1)/2 .. (r-1)/2. */
  lemma OddRoiOffsets(r: nat)
    requires r == 1 || r == 3 || r == 5 || r == 7
    ensures OffsetLow(r) == -OffsetHigh(r) && OffsetHigh(r) == (r - 1) / 2
    ensures |Offsets(r)| == r
  {
  }

  // ---------------------------------------------------------------------------
  // Parameter-list target

  /** One slot of the table: (phot, x, y, z). */
  datatype Param = Param(phot: real, xyz: Xyz)

  /** Slot j of frame row i: the j-th emitter of frame lo + i, or none. */
  function Slot(em: EmitterSet, lo: int, i: int, j: int): Option<Param> {
    var fr := FramesIn(em.emitters, lo + i, lo + i + 1);
    if 0 <= j < |fr| then Some(Param(fr[j].phot, fr[j].xyz)) else None
  }

  function FrameSize(em: EmitterSet, f: int): nat {
    |FramesIn(em.emitters, f, f + 1)|
  }

  /** Every frame of [lo, lo + n) holds at most nMax emitters. */
  predicate FitsSlots(em: EmitterSet, lo: int, n: nat, nMax: nat) {
    forall f :: lo <= f < lo + n ==> FrameSize(em, f) <= nMax
  }

  class ParameterListTarget {
    var nMax: nat
    var ixLow: int
    var ixHigh: int

    constructor (nMax: nat, ixLow: int, ixHigh: int)
      ensures this.nMax == nMax && this.ixLow == ixLow && this.ixHigh == ixHigh
    {
      this.nMax := nMax;
      this.ixLow := ixLow;
      this.ixHigh := ixHigh;
    }

    /** Scatters the emitters of frames [ixLow, ixHigh) into a table of
        ixHigh - ixLow rows and nMax slots: the emitters of a frame fill the
        first slots of its row in order, every other slot stays empty, and
        the mask marks exactly the filled slots.  A frame with more than
        nMax emitters is an error, as is a negative frame count. */
    method Forward(em: EmitterSet) returns (r: Outcome, tar: array2<Option<Param>>, mask: array2<bool>)
      ensures r.Pass? <==> ixLow <= ixHigh && FitsSlots(em, ixLow, ixHigh - ixLow, nMax)
      ensures r.Pass? ==> tar.Length0 == ixHigh - ixLow && tar.Length1 == nMax
      ensures r.Pass? ==> mask.Length0 == ixHigh - ixLow && mask.Length1 == nMax
      ensures r.Pass? ==> forall i, j :: 0 <= i < tar.Length0 && 0 <= j < tar.Length1 ==>
        tar[i, j] == Slot(em, ixLow, i, j)
      ensures r.Pass? ==> forall i, j :: 0 <= i < mask.Length0 && 0 <= j < mask.Length1 ==>
        mask[i, j] == (j < FrameSize(em, ixLow + i))
    {
      var n := ixHigh - ixLow;
      if n < 0 {
        r := Fail(RuntimeError("Trying to create tensor with negative dimension."));
        tar := new Option<Param>[0, 0];
        mask := new bool[0, 0];
        return;
      }
      tar := new Option<Param>[n, nMax]((i, j) => None);
      mask := new bool[n, nMax]((i, j) => false);
      var ok := FillRows(tar, mask, em, ixLow, nMax);
      if !ok {
        r := Fail(ValueError("Number of actual emitters exceeds number of max. emitters."));
        return;
      }
      r := Pass;
    }
  }

  /** Rows below i hold the records of their frame in their first slots and
      are marked in the mask; every other cell is empty and unmarked. */
  ghost predicate RowsFilled(tar: array2<Option<Param>>, mask: array2<bool>, em: EmitterSet, lo: int, i: int)
    reads tar, mask
  {
    && tar.Length0 == mask.Length0 && tar.Length1 == mask.Length1
    && (forall a, b :: 0 <= a < tar.Length0 && 0 <= b < tar.Length1 ==>
          tar[a, b] == if a < i then Slot(em, lo, a, b) else None)
    && (forall a, b :: 0 <= a < mask.Length0 && 0 <= b < mask.Length1 ==>
          mask[a, b] == (a < i && b < FrameSize(em, lo + a)))
  }

  /** Writes the records of frame lo + i into the first slots of row i and
      marks them in the mask. */
  method FillRow(tar: array2<Option<Param>>, mask: array2<bool>, em: EmitterSet, lo: int, i: nat)
    requires tar != mask as object && i < tar.Length0
    requires FrameSize(em, lo + i) <= tar.Length1
    requires RowsFilled(tar, mask, em, lo, i)
    modifies tar, mask
    ensures RowsFilled(tar, mask, em, lo, i + 1)
  {
    var fr := FramesIn(em.emitters, lo + i, lo + i + 1);
    var j := 0;
    while j < |fr|
      invariant 0 <= j <= |fr|
      invariant forall a, b :: 0 <= a < tar.Length0 && 0 <= b < tar.Length1 ==>
        tar[a, b] == if a < i || (a == i && b < j) then Slot(em, lo, a, b) else None
      invariant forall a, b :: 0 <= a < mask.Length0 && 0 <= b < mask.Length1 ==>
        mask[a, b] == ((a < i && b < FrameSize(em, lo + a)) || (a == i && b < j))
    {
      tar[i, j] := Some(Param(fr[j].phot, fr[j].xyz));
      mask[i, j] := true;
      j := j + 1;
    }
  }

  /** Fills the rows one frame at a time; stops, reporting false, at the
      first frame with more than nMax records. */
  method FillRows(tar: array2<Option<Param>>, mask: array2<bool>, em: EmitterSet, lo: int, nMax: nat)
    returns (ok: bool)
    requires tar != mask as object && tar.Length1 == nMax
    requires RowsFilled(tar, mask, em, lo, 0)
    modifies tar, mask
    ensures ok <==> FitsSlots(em, lo, tar.Length0, nMax)
    ensures ok ==> RowsFilled(tar, mask, em, lo, tar.Length0)
  {
    var i := 0;
    while i < tar.Length0
      invariant 0 <= i <= tar.Length0
      invariant FitsSlots(em, lo, i, nMax)
      invariant RowsFilled(tar, mask, em, lo, i)
    {
      if FrameSize(em, lo + i) > nMax {
        return false;
      }
      FillRow(tar, mask, em, lo, i);
      i := i + 1;
    }
    return true;
  }

  /** Number of filled slots over the frames [lo, lo + n). */
  function FilledSlots(em: EmitterSet, lo: int, n: nat): nat {
    if n == 0 then 0 else FilledSlots(em, lo, n - 1) + FrameSize(em, lo + n - 1)
  }

  /** The mask holds one entry per emitter in [lo, lo + n), so for a set
      whose frames all lie in the window it counts every emitter. */
  lemma {:induction false} FilledSlotsCountEmitters(em: EmitterSet, lo: int, n: nat)
    ensures FilledSlots(em, lo, n) == |FramesIn(em.emitters, lo, lo + n)|
  {
    if n > 0 {
      FilledSlotsCountEmitters(em, lo, n - 1);
      FramesInSplitLength(em.emitters, lo, lo + n - 1, lo + n);
    } else {
      FramesInSplitLength(em.emitters, lo, lo, lo);
    }
  }

  lemma AllFramesInWindow(em: EmitterSet, lo: int, hi: int)
    requires forall i :: 0 <= i < Len(em) ==> lo <= em.emitters[i].frameIx < hi
    ensures FramesIn(em.emitters, lo, hi) == em.emitters
  {
    AllFramesInWindowSeq(em.emitters, lo, hi);
  }

  /** The two-emitter table with ixLow = 0, ixHigh = 3: the emitter on frame
      0 fills slot (0, 0), the one on frame 2 fills slot (2, 0), every other
      slot is empty, and the mask counts two entries. */
  lemma ParameterListExample(em: EmitterSet, x0: Xyz, x1: Xyz)
    requires em.emitters == [Emitter(x0, 3.0, 0, UnsetId), Emitter(x1, 2.0, 2, UnsetId)]
    ensures Slot(em, 0, 0, 0) == Some(Param(3.0, x0)) && Slot(em, 0, 2, 0) == Some(Param(2.0, x1))
    ensures forall j :: j != 0 ==> Slot(em, 0, 0, j).None? && Slot(em, 0, 2, j).None?
    ensures forall j :: Slot(em, 0, 1, j).None?
    ensures FilledSlots(em, 0, 3) == 2
  {
    var s := em.emitters;
    assert s[1..][1..] == [];
    assert FramesIn(s, 0, 1) == [s[0]];
    assert FramesIn(s, 1, 2) == [];
    assert FramesIn(s[1..], 2, 3) == [s[1]];
    assert FramesIn(s, 2, 3) == [s[1]];
    assert FilledSlots(em, 0, 1) == FrameSize(em, 0);
    assert FilledSlots(em, 0, 2) == FrameSize(em, 0) + FrameSize(em, 1);
    assert FilledSlots(em, 0, 3) == FrameSize(em, 0) + FrameSize(em, 1) + FrameSize(em, 2);
  }

  // ---------------------------------------------------------------------------
  // Fork

  /** `TargetGeneratorFork.forward`: every component applied to the same set,
      one output per component, in component order. */
  function Fork<T>(components: seq<EmitterSet -> T>, em: EmitterSet): (r: seq<T>)
    ensures |r| == |components|
    ensures forall i :: 0 <= i < |r| ==> r[i] == components[i](em)
  {
    seq(|components|, i requires 0 <= i < |components| => components[i](em))
  }
}
