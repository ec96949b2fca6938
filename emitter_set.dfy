/** The EmitterSet data model: a sequence of emitter records that share one
    coordinate unit and one pixel size, with padding of 2-D coordinates,
    pixel/nanometre conversion, frame subsets, splitting, concatenation and
    chunking. */
module EmitterSets {
  import opened Wrappers

  datatype Xyz = Xyz(x: real, y: real, z: real)

  /** One row of an EmitterSet. */
  datatype Emitter = Emitter(xyz: Xyz, phot: real, frameIx: int, id: int)

  datatype Unit = Px | Nm

  type Positive = r: real | r > 0.0 witness 1.0

  /** Pixel size in nanometres per pixel, along x and y. */
  datatype PxSize = PxSize(x: Positive, y: Positive)

  datatype EmitterSet = EmitterSet(emitters: seq<Emitter>, xyUnit: Option<Unit>, pxSize: Option<PxSize>)

  /** The id an emitter carries when none was given. */
  const UnsetId: int := -1

  function Len(e: EmitterSet): nat { |e.emitters| }

  function Empty(): (e: EmitterSet)
    ensures Len(e) == 0 && e.xyUnit.None? && e.pxSize.None?
  {
    EmitterSet([], None, None)
  }

  // ---------------------------------------------------------------------------
  // Construction: 2-D coordinates are padded to 3-D

  /** A coordinate tensor as handed to a constructor: rows of `width` columns. */
  datatype CoordInput = CoordInput(width: nat, rows: seq<seq<real>>)

  predicate WellShaped(c: CoordInput) {
    forall i :: 0 <= i < |c.rows| ==> |c.rows[i]| == c.width
  }

  function PadRow(row: seq<real>, width: nat): Xyz
    requires |row| == width && width in {2, 3}
  {
    if width == 2 then Xyz(row[0], row[1], 0.0) else Xyz(row[0], row[1], row[2])
  }

  /** Pads a two-column coordinate tensor with z = 0; three columns are kept. */
  function PadTo3d(c: CoordInput): (r: Result<seq<Xyz>>)
    requires WellShaped(c)
    ensures r.Ok? <==> c.width == 2 || c.width == 3
    ensures r.Ok? ==> |r.value| == |c.rows|
    ensures r.Ok? ==> forall i :: 0 <= i < |c.rows| ==>
      r.value[i].x == c.rows[i][0] && r.value[i].y == c.rows[i][1]
    ensures r.Ok? && c.width == 2 ==> forall i :: 0 <= i < |c.rows| ==> r.value[i].z == 0.0
    ensures r.Ok? && c.width == 3 ==> forall i :: 0 <= i < |c.rows| ==> r.value[i].z == c.rows[i][2]
  {
    if c.width != 2 && c.width != 3 then Err(ValueError("Wrong xyz dimension."))
    else Ok(seq(|c.rows|, i requires 0 <= i < |c.rows| => PadRow(c.rows[i], c.width)))
  }

  /** The constructor: checks that every column has one entry per emitter,
      pads the coordinates and gives every emitter the unset id when no ids
      are supplied. */
  function NewEmitterSet(xyz: CoordInput, phot: seq<real>, frameIx: seq<int>, id: Option<seq<int>>,
                         xyUnit: Option<Unit>, pxSize: Option<PxSize>): (r: Result<EmitterSet>)
    requires WellShaped(xyz)
    ensures r.Ok? <==>
      && (xyz.width == 2 || xyz.width == 3)
      && |phot| == |xyz.rows| && |frameIx| == |xyz.rows|
      && (id.Some? ==> |id.value| == |xyz.rows|)
    ensures r.Ok? ==>
      && Len(r.value) == |xyz.rows|
      && r.value.xyUnit == xyUnit && r.value.pxSize == pxSize
      && (forall i :: 0 <= i < |xyz.rows| ==>
            && r.value.emitters[i].xyz == PadTo3d(xyz).value[i]
            && r.value.emitters[i].phot == phot[i]
            && r.value.emitters[i].frameIx == frameIx[i]
            && r.value.emitters[i].id == (if id.Some? then id.value[i] else UnsetId))
  {
    var coords :- PadTo3d(xyz);
    if |phot| != |xyz.rows| || |frameIx| != |xyz.rows| || (id.Some? && |id.value| != |xyz.rows|) then
      Err(ValueError("Field lengths disagree with the number of emitters."))
    else
      var ids := if id.Some? then id.value else seq(|xyz.rows|, _ => UnsetId);
      Ok(EmitterSet(seq(|xyz.rows|, i requires 0 <= i < |xyz.rows| =>
                          Emitter(coords[i], phot[i], frameIx[i], ids[i])),
                    xyUnit, pxSize))
  }

  /** Reports 2 when every z coordinate is zero, 3 otherwise. */
  function Dim(e: EmitterSet): nat {
    if forall i :: 0 <= i < |e.emitters| ==> e.emitters[i].xyz.z == 0.0 then 2 else 3
  }

  /** A set built from two-column coordinates is padded to three columns and
      still reports dimension 2; its frame indices are the integers given. */
  lemma PaddedSetIsTwoDimensional(rows: seq<seq<real>>, phot: seq<real>, frameIx: seq<int>)
    requires forall i :: 0 <= i < |rows| ==> |rows[i]| == 2
    requires |phot| == |rows| && |frameIx| == |rows|
    ensures NewEmitterSet(CoordInput(2, rows), phot, frameIx, None, None, None).Ok?
    ensures Dim(NewEmitterSet(CoordInput(2, rows), phot, frameIx, None, None, None).value) == 2
  {
    var e := NewEmitterSet(CoordInput(2, rows), phot, frameIx, None, None, None).value;
    var c := PadTo3d(CoordInput(2, rows)).value;
    forall i | 0 <= i < |e.emitters| ensures e.emitters[i].xyz.z == 0.0 {
      assert e.emitters[i].xyz == c[i];
    }
  }

  // ---------------------------------------------------------------------------
  // Pixel / nanometre conversion

  function Pow(b: real, n: nat): (r: real)
    ensures b > 0.0 ==> r > 0.0
  {
    if n == 0 then 1.0 else b * Pow(b, n - 1)
  }

  /** The quantities that have unit-suffixed views, and the exponent with
      which each is converted: positions and sigmas are lengths, Cramer-Rao
      bounds are variances. */
  datatype Quantity = Position | Sigma | CramerRao

  function Power(q: Quantity): nat {
    match q
    case Position => 1
    case Sigma => 1
    case CramerRao => 2
  }

  function ScaleXy(v: Xyz, fx: real, fy: real): Xyz {
    Xyz(v.x * fx, v.y * fy, v.z)
  }

  /** Converts values stored in `inUnit` to `tarUnit`: identity for the same
      unit, multiplication by the pixel size raised to `power` from px to nm,
      division from nm to px; z is never scaled. */
  function PxNmConversion(values: seq<Xyz>, inUnit: Option<Unit>, tarUnit: Unit,
                          pxSize: Option<PxSize>, power: nat): (r: Result<seq<Xyz>>)
    ensures r.Err? <==> inUnit.None? || (inUnit != Some(tarUnit) && pxSize.None?)
    ensures r.Err? ==> r.error.ValueError?
    ensures inUnit == Some(tarUnit) ==> r == Ok(values)
    ensures r.Ok? ==> |r.value| == |values|
    ensures r.Ok? && inUnit == Some(Px) && tarUnit == Nm ==>
      forall i :: 0 <= i < |values| ==>
        r.value[i] == ScaleXy(values[i], Pow(pxSize.value.x, power), Pow(pxSize.value.y, power))
    ensures r.Ok? && inUnit == Some(Nm) && tarUnit == Px ==>
      forall i :: 0 <= i < |values| ==>
        r.value[i] == ScaleXy(values[i], 1.0 / Pow(pxSize.value.x, power), 1.0 / Pow(pxSize.value.y, power))
  {
    if inUnit.None? then Err(ValueError("Conversion not possible if unit not specified."))
    else if inUnit.value == tarUnit then Ok(values)
    else if pxSize.None? then Err(ValueError("Conversion not possible if px size is not specified."))
    else
      var fx, fy := Pow(pxSize.value.x, power), Pow(pxSize.value.y, power);
      var gx, gy := if tarUnit == Nm then fx else 1.0 / fx, if tarUnit == Nm then fy else 1.0 / fy;
      Ok(seq(|values|, i requires 0 <= i < |values| => ScaleXy(values[i], gx, gy)))
  }

  /** Converting to nanometres and back to pixels returns the original values. */
  lemma ConversionRoundTrip(values: seq<Xyz>, p: PxSize, power: nat)
    ensures PxNmConversion(values, Some(Px), Nm, Some(p), power).Ok?
    ensures PxNmConversion(PxNmConversion(values, Some(Px), Nm, Some(p), power).value,
                           Some(Nm), Px, Some(p), power) == Ok(values)
  {
    var fx, fy := Pow(p.x, power), Pow(p.y, power);
    var nm := PxNmConversion(values, Some(Px), Nm, Some(p), power).value;
    var back := PxNmConversion(nm, Some(Nm), Px, Some(p), power).value;
    forall i | 0 <= i < |values| ensures back[i] == values[i] {
      assert nm[i] == ScaleXy(values[i], fx, fy);
      assert back[i] == ScaleXy(nm[i], 1.0 / fx, 1.0 / fy);
      assert values[i].x * fx * (1.0 / fx) == values[i].x;
      assert values[i].y * fy * (1.0 / fy) == values[i].y;
    }
    assert back == values;
  }

  function Square(v: Xyz): Xyz { Xyz(v.x * v.x, v.y * v.y, v.z * v.z) }

  /** The Cramer-Rao bound is a variance: converting the squared sigma with
      exponent 2 gives the square of the sigma converted with exponent 1, so
      the square root of a converted bound is the converted standard error. */
  lemma CramerRaoConvertsAsSquare(sig: seq<Xyz>, cr: seq<Xyz>, inUnit: Unit, tarUnit: Unit, p: PxSize)
    requires |cr| == |sig| && forall i :: 0 <= i < |sig| ==> cr[i] == Square(sig[i])
    ensures PxNmConversion(cr, Some(inUnit), tarUnit, Some(p), Power(CramerRao)).Ok?
    ensures forall i :: 0 <= i < |sig| ==>
      PxNmConversion(cr, Some(inUnit), tarUnit, Some(p), Power(CramerRao)).value[i]
      == Square(PxNmConversion(sig, Some(inUnit), tarUnit, Some(p), Power(Sigma)).value[i])
  {
    var crc := PxNmConversion(cr, Some(inUnit), tarUnit, Some(p), 2).value;
    var sc := PxNmConversion(sig, Some(inUnit), tarUnit, Some(p), 1).value;
    if inUnit != tarUnit {
      FactorSquares(p.x, tarUnit);
      FactorSquares(p.y, tarUnit);
      forall i | 0 <= i < |sig| ensures crc[i] == Square(sc[i]) {
        ConvertedAt(cr, inUnit, tarUnit, p, 2, i);
        ConvertedAt(sig, inUnit, tarUnit, p, 1, i);
        ScaledSquare(sig[i], cr[i], sc[i], crc[i], Factor(p.x, tarUnit, 1), Factor(p.y, tarUnit, 1),
                     Factor(p.x, tarUnit, 2), Factor(p.y, tarUnit, 2));
      }
    }
  }

  /** The factor that converts a quantity of the given power along one axis
      into `tarUnit`. */
  function Factor(a: Positive, tarUnit: Unit, power: nat): real {
    if tarUnit == Nm then Pow(a, power) else 1.0 / Pow(a, power)
  }

  lemma FactorSquares(a: Positive, tarUnit: Unit)
    ensures Factor(a, tarUnit, 2) == Factor(a, tarUnit, 1) * Factor(a, tarUnit, 1)
  {
    assert Pow(a, 1) == a;
    assert Pow(a, 2) == a * a;
    if tarUnit == Px {
      InverseOfSquare(a);
    }
  }

  lemma ConvertedAt(values: seq<Xyz>, inUnit: Unit, tarUnit: Unit, p: PxSize, power: nat, i: nat)
    requires inUnit != tarUnit && i < |values|
    ensures PxNmConversion(values, Some(inUnit), tarUnit, Some(p), power).Ok?
    ensures PxNmConversion(values, Some(inUnit), tarUnit, Some(p), power).value[i]
         == ScaleXy(values[i], Factor(p.x, tarUnit, power), Factor(p.y, tarUnit, power))
  {
  }

  lemma ScaledSquare(s: Xyz, c: Xyz, b: Xyz, a: Xyz, gx: real, gy: real, hx: real, hy: real)
    requires c == Square(s) && hx == gx * gx && hy == gy * gy
    requires b == ScaleXy(s, gx, gy) && a == ScaleXy(c, hx, hy)
    ensures a == Square(b)
  {
    SquareOfScaled(s, gx, gy);
  }

  lemma InverseOfSquare(a: real)
    requires a > 0.0
    ensures 1.0 / (a * a) == (1.0 / a) * (1.0 / a)
  {
  }

  lemma SquareOfScaled(v: Xyz, fx: real, fy: real)
    ensures Square(ScaleXy(v, fx, fy)) == ScaleXy(Square(v), fx * fx, fy * fy)
  {
    assert (v.x * fx) * (v.x * fx) == v.x * v.x * (fx * fx);
    assert (v.y * fy) * (v.y * fy) == v.y * v.y * (fy * fy);
  }

  /** (0.25, 0.25, 5) px with pixel size (50, 100) is (12.5, 25, 5) nm, and
      (25, 25, 5) nm is (0.5, 0.25, 5) px. */
  lemma ConversionExamples()
    ensures PxNmConversion([Xyz(0.25, 0.25, 5.0)], Some(Px), Nm, Some(PxSize(50.0, 100.0)), 1)
         == Ok([Xyz(12.5, 25.0, 5.0)])
    ensures PxNmConversion([Xyz(25.0, 25.0, 5.0)], Some(Nm), Px, Some(PxSize(50.0, 100.0)), 1)
         == Ok([Xyz(0.5, 0.25, 5.0)])
  {
    assert Pow(50.0, 1) == 50.0 && Pow(100.0, 1) == 100.0;
    var a := PxNmConversion([Xyz(0.25, 0.25, 5.0)], Some(Px), Nm, Some(PxSize(50.0, 100.0)), 1);
    assert a.value[0] == Xyz(12.5, 25.0, 5.0);
    assert a.value == [Xyz(12.5, 25.0, 5.0)];
    var b := PxNmConversion([Xyz(25.0, 25.0, 5.0)], Some(Nm), Px, Some(PxSize(50.0, 100.0)), 1);
    assert b.value[0] == Xyz(0.5, 0.25, 5.0);
    assert b.value == [Xyz(0.5, 0.25, 5.0)];
  }

  // ---------------------------------------------------------------------------
  // Frame subsets and splitting

  /** The records whose frame index lies in [lo, hi), in their original order. */
  function FramesIn(s: seq<Emitter>, lo: int, hi: int): (r: seq<Emitter>)
    ensures |r| <= |s|
  {
    if s == [] then []
    else (if lo <= s[0].frameIx < hi then [s[0]] else []) + FramesIn(s[1..], lo, hi)
  }

  /** A record is in the frame subset exactly when it is in the set and its
      frame lies in [lo, hi). */
  lemma {:induction false} FramesInHas(s: seq<Emitter>, lo: int, hi: int, x: Emitter)
    ensures x in FramesIn(s, lo, hi) <==> x in s && lo <= x.frameIx < hi
  {
    if s != [] {
      FramesInHas(s[1..], lo, hi, x);
      assert s == [s[0]] + s[1..];
    }
  }

  lemma FramesInMembers(s: seq<Emitter>, lo: int, hi: int)
    ensures forall i :: 0 <= i < |FramesIn(s, lo, hi)| ==> lo <= FramesIn(s, lo, hi)[i].frameIx < hi
    ensures forall x :: x in FramesIn(s, lo, hi) <==> x in s && lo <= x.frameIx < hi
    ensures hi <= lo ==> FramesIn(s, lo, hi) == []
  {
    var r := FramesIn(s, lo, hi);
    forall x ensures x in r <==> x in s && lo <= x.frameIx < hi {
      FramesInHas(s, lo, hi, x);
    }
    forall i | 0 <= i < |r| ensures lo <= r[i].frameIx < hi {
      FramesInHas(s, lo, hi, r[i]);
    }
    if hi <= lo && r != [] {
      FramesInHas(s, lo, hi, r[0]);
    }
  }

  function GetSubsetFrame(e: EmitterSet, lo: int, hi: int): (r: EmitterSet)
    ensures r.xyUnit == e.xyUnit && r.pxSize == e.pxSize
    ensures forall i :: 0 <= i < Len(r) ==> lo <= r.emitters[i].frameIx < hi
    ensures forall x :: x in e.emitters && lo <= x.frameIx < hi ==> x in r.emitters
    ensures forall x :: x in r.emitters ==> x in e.emitters
    ensures r.emitters == FramesIn(e.emitters, lo, hi)
  {
    FramesInMembers(e.emitters, lo, hi);
    EmitterSet(FramesIn(e.emitters, lo, hi), e.xyUnit, e.pxSize)
  }

  /** The frame subset is empty exactly when no record has a frame in
      [lo, hi); in particular it is empty when lo == hi. */
  lemma SubsetFrameEmptyIff(e: EmitterSet, lo: int, hi: int)
    ensures Len(GetSubsetFrame(e, lo, hi)) == 0 <==>
            forall i :: 0 <= i < Len(e) ==> !(lo <= e.emitters[i].frameIx < hi)
    ensures lo >= hi ==> Len(GetSubsetFrame(e, lo, hi)) == 0
  {
    var r := GetSubsetFrame(e, lo, hi);
    if Len(r) == 0 {
      forall i | 0 <= i < Len(e) ensures !(lo <= e.emitters[i].frameIx < hi) {
        var x := e.emitters[i];
        assert x in e.emitters;
      }
    } else {
      assert r.emitters[0] in r.emitters;
    }
  }

  /** Splitting [lo, hi) at m splits the frame subset as a multiset. */
  lemma {:induction false} FramesInSplit(s: seq<Emitter>, lo: int, m: int, hi: int)
    requires lo <= m <= hi
    ensures multiset(FramesIn(s, lo, hi)) == multiset(FramesIn(s, lo, m)) + multiset(FramesIn(s, m, hi))
  {
    if s != [] {
      FramesInSplit(s[1..], lo, m, hi);
    }
  }

  lemma {:induction false} FramesInSplitLength(s: seq<Emitter>, lo: int, m: int, hi: int)
    requires lo <= m <= hi
    ensures |FramesIn(s, lo, hi)| == |FramesIn(s, lo, m)| + |FramesIn(s, m, hi)|
    ensures lo == hi ==> FramesIn(s, lo, hi) == []
  {
    if s != [] {
      FramesInSplitLength(s[1..], lo, m, hi);
    }
  }

  lemma {:induction false} AllFramesInWindowSeq(s: seq<Emitter>, lo: int, hi: int)
    requires forall i :: 0 <= i < |s| ==> lo <= s[i].frameIx < hi
    ensures FramesIn(s, lo, hi) == s
  {
    if s != [] {
      AllFramesInWindowSeq(s[1..], lo, hi);
      assert [s[0]] + s[1..] == s;
    }
  }

  /** The records of a single frame f. */
  function AtFrame(e: EmitterSet, f: int): (r: EmitterSet)
    ensures r.xyUnit == e.xyUnit && r.pxSize == e.pxSize
    ensures forall i :: 0 <= i < Len(r) ==> r.emitters[i].frameIx == f
    ensures forall x :: x in r.emitters <==> x in e.emitters && x.frameIx == f
  {
    GetSubsetFrame(e, f, f + 1)
  }

  /** One set per frame lo, lo+1, ..., hi-1; none when lo >= hi. */
  function SplitInFrames(e: EmitterSet, lo: int, hi: int): (r: seq<EmitterSet>)
    ensures |r| == if lo <= hi then hi - lo else 0
    ensures forall k :: 0 <= k < |r| ==> r[k] == AtFrame(e, lo + k)
  {
    if hi <= lo then []
    else seq(hi - lo, k requires 0 <= k < hi - lo => AtFrame(e, lo + k))
  }

  /** Concatenation of a list of record sequences. */
  function Flatten(p: seq<seq<Emitter>>): (r: seq<Emitter>)
  {
    if p == [] then [] else Flatten(p[..|p| - 1]) + p[|p| - 1]
  }

  function Records(sets: seq<EmitterSet>): seq<seq<Emitter>> {
    seq(|sets|, k requires 0 <= k < |sets| => sets[k].emitters)
  }

  function PerFrame(s: seq<Emitter>, lo: int, hi: int): seq<seq<Emitter>>
    requires lo <= hi
  {
    seq(hi - lo, k requires 0 <= k < hi - lo => FramesIn(s, lo + k, lo + k + 1))
  }

  lemma {:induction false} FlattenPerFrame(s: seq<Emitter>, lo: int, hi: int)
    requires lo <= hi
    ensures multiset(Flatten(PerFrame(s, lo, hi))) == multiset(FramesIn(s, lo, hi))
    decreases hi - lo
  {
    if lo < hi {
      var p := PerFrame(s, lo, hi);
      assert p[..|p| - 1] == PerFrame(s, lo, hi - 1);
      FlattenPerFrame(s, lo, hi - 1);
      FramesInSplit(s, lo, hi - 1, hi);
    } else {
      FramesInMembers(s, lo, hi);
    }
  }

  /** Concatenating the per-frame pieces gives back, up to order, exactly the
      records whose frame lies in [lo, hi). */
  lemma SplitCatPermutation(e: EmitterSet, lo: int, hi: int)
    requires lo <= hi
    ensures multiset(Flatten(Records(SplitInFrames(e, lo, hi)))) == multiset(GetSubsetFrame(e, lo, hi).emitters)
  {
    assert Records(SplitInFrames(e, lo, hi)) == PerFrame(e.emitters, lo, hi);
    FlattenPerFrame(e.emitters, lo, hi);
  }

  /** Frame selection through `iframe[...]`: an integer or a unit-step slice. */
  datatype FrameSelector =
    | FrameAt(i: int)
    | FrameSlice(start: int, stop: int, step: Option<int>)
    | FrameList(ixs: seq<int>)

  function IFrame(e: EmitterSet, sel: FrameSelector): (r: Result<EmitterSet>)
    ensures r.Err? <==> sel.FrameList? || (sel.FrameSlice? && sel.step.Some?)
    ensures r.Err? ==> r.error == NotImplementedError
    ensures r.Ok? && sel.FrameAt? ==> r.value == GetSubsetFrame(e, sel.i, sel.i + 1)
    ensures r.Ok? && sel.FrameSlice? ==> r.value == GetSubsetFrame(e, sel.start, sel.stop)
  {
    match sel
    case FrameAt(i) => Ok(GetSubsetFrame(e, i, i + 1))
    case FrameSlice(a, b, step) => if step.Some? then Err(NotImplementedError) else Ok(GetSubsetFrame(e, a, b))
    case FrameList(_) => Err(NotImplementedError)
  }

  // ---------------------------------------------------------------------------
  // Concatenation

  function FirstUnit(sets: seq<EmitterSet>): (u: Option<Unit>)
    ensures u.Some? ==> exists k :: 0 <= k < |sets| && sets[k].xyUnit == u
    ensures u.None? ==> forall k :: 0 <= k < |sets| ==> sets[k].xyUnit.None?
  {
    if sets == [] then None
    else if sets[0].xyUnit.Some? then sets[0].xyUnit
    else FirstUnit(sets[1..])
  }

  function FirstPxSize(sets: seq<EmitterSet>): (p: Option<PxSize>)
    ensures p.Some? ==> exists k :: 0 <= k < |sets| && sets[k].pxSize == p
    ensures p.None? ==> forall k :: 0 <= k < |sets| ==> sets[k].pxSize.None?
  {
    if sets == [] then None
    else if sets[0].pxSize.Some? then sets[0].pxSize
    else FirstPxSize(sets[1..])
  }

  function ShiftRecord(x: Emitter, d: int): Emitter {
    x.(frameIx := x.frameIx + d)
  }

  function ShiftFrames(s: seq<Emitter>, d: int): (r: seq<Emitter>)
    ensures |r| == |s|
  {
    seq(|s|, i requires 0 <= i < |s| => ShiftRecord(s[i], d))
  }

  /** The frame shift applied to the k-th input of `Cat`. */
  function ShiftOf(k: nat, remap: Option<seq<int>>, step: Option<int>): int
    requires remap.Some? ==> k < |remap.value|
  {
    if remap.Some? then remap.value[k]
    else if step.Some? then k * step.value
    else 0
  }

  function TotalLen(sets: seq<EmitterSet>): nat {
    if sets == [] then 0 else TotalLen(sets[..|sets| - 1]) + Len(sets[|sets| - 1])
  }

  /** Concatenates the sets in order, adding to every frame index of set k
      either remap[k], or k * step, or nothing; the unit and pixel size are
      those of the first set that defines them.  Giving both shift modes is
      an error. */
  function Cat(sets: seq<EmitterSet>, remap: Option<seq<int>>, step: Option<int>): (r: Result<EmitterSet>)
    ensures r.Err? <==> (remap.Some? && step.Some?) || (remap.Some? && |remap.value| < |sets|)
    ensures r.Ok? ==> r.value.xyUnit == FirstUnit(sets) && r.value.pxSize == FirstPxSize(sets)
  {
    if remap.Some? && step.Some? then
      Err(ValueError("You cannot specify remap frame ix and step frame ix at the same time."))
    else if remap.Some? && |remap.value| < |sets| then Err(IndexError)
    else
      Ok(EmitterSet(Flatten(Shifted(sets, remap, step)), FirstUnit(sets), FirstPxSize(sets)))
  }

  /** The records of every input with its frame shift applied. */
  function Shifted(sets: seq<EmitterSet>, remap: Option<seq<int>>, step: Option<int>): (p: seq<seq<Emitter>>)
    requires remap.Some? ==> |remap.value| >= |sets|
    ensures |p| == |sets|
    ensures forall k :: 0 <= k < |sets| ==> p[k] == ShiftFrames(sets[k].emitters, ShiftOf(k, remap, step))
  {
    seq(|sets|, k requires 0 <= k < |sets| => ShiftFrames(sets[k].emitters, ShiftOf(k, remap, step)))
  }

  /** The offset at which set k starts in the concatenation. */
  function Offset(sets: seq<EmitterSet>, k: nat): nat
    requires k <= |sets|
  {
    TotalLen(sets[..k])
  }

  lemma {:induction false} FlattenLength(p: seq<seq<Emitter>>, sets: seq<EmitterSet>)
    requires |p| == |sets| && forall k :: 0 <= k < |p| ==> |p[k]| == Len(sets[k])
    ensures |Flatten(p)| == TotalLen(sets)
  {
    if p != [] {
      FlattenLength(p[..|p| - 1], sets[..|sets| - 1]);
    }
  }

  lemma {:induction false} FlattenAt(p: seq<seq<Emitter>>, sets: seq<EmitterSet>, k: nat, j: nat)
    requires |p| == |sets| && forall q :: 0 <= q < |p| ==> |p[q]| == Len(sets[q])
    requires k < |p| && j < |p[k]|
    ensures Offset(sets, k) + j < |Flatten(p)|
    ensures Flatten(p)[Offset(sets, k) + j] == p[k][j]
  {
    var n := |p|;
    FlattenLength(p[..n - 1], sets[..n - 1]);
    assert sets[..n - 1] == sets[..n][..n - 1];
    if k < n - 1 {
      FlattenAt(p[..n - 1], sets[..n - 1], k, j);
      assert sets[..n - 1][..k] == sets[..k];
    } else {
      assert sets[..k] == sets[..n - 1];
    }
  }

  /** Record j of input k sits at position Offset(sets, k) + j of the
      concatenation, with its frame index shifted by that input's shift and
      every other field unchanged; the length is the sum of the lengths. */
  lemma CatAt(sets: seq<EmitterSet>, remap: Option<seq<int>>, step: Option<int>, k: nat, j: nat)
    requires Cat(sets, remap, step).Ok?
    requires k < |sets| && j < Len(sets[k])
    ensures Len(Cat(sets, remap, step).value) == TotalLen(sets)
    ensures Offset(sets, k) + j < Len(Cat(sets, remap, step).value)
    ensures Cat(sets, remap, step).value.emitters[Offset(sets, k) + j]
         == ShiftRecord(sets[k].emitters[j], ShiftOf(k, remap, step))
  {
    assert remap.Some? ==> |remap.value| >= |sets| by {
      CatRecords(sets, remap, step);
    }
    ShiftedAt(sets, remap, step, k, j);
    CatRecords(sets, remap, step);
  }

  lemma ShiftedAt(sets: seq<EmitterSet>, remap: Option<seq<int>>, step: Option<int>, k: nat, j: nat)
    requires remap.Some? ==> |remap.value| >= |sets|
    requires k < |sets| && j < Len(sets[k])
    ensures |Flatten(Shifted(sets, remap, step))| == TotalLen(sets)
    ensures Offset(sets, k) + j < |Flatten(Shifted(sets, remap, step))|
    ensures Flatten(Shifted(sets, remap, step))[Offset(sets, k) + j]
         == ShiftRecord(sets[k].emitters[j], ShiftOf(k, remap, step))
  {
    var p := Shifted(sets, remap, step);
    assert |p| == |sets| && forall q :: 0 <= q < |p| ==> |p[q]| == Len(sets[q]);
    FlattenLength(p, sets);
    FlattenAt(p, sets, k, j);
  }

  lemma CatRecords(sets: seq<EmitterSet>, remap: Option<seq<int>>, step: Option<int>)
    requires Cat(sets, remap, step).Ok?
    ensures remap.Some? ==> |remap.value| >= |sets|
    ensures Cat(sets, remap, step).value.emitters == Flatten(Shifted(sets, remap, step))
  {
  }

  /** The frame shifts of the two modes: constant c shifts set k by k * c,
      a vector s shifts set k by s[k]. */
  lemma CatShiftModes(sets: seq<EmitterSet>, c: int, s: seq<int>, k: nat, j: nat)
    requires k < |sets| && j < Len(sets[k]) && |s| >= |sets|
    ensures Cat(sets, None, Some(c)).Ok? && Cat(sets, Some(s), None).Ok?
    ensures Offset(sets, k) + j < Len(Cat(sets, None, Some(c)).value)
         && Cat(sets, None, Some(c)).value.emitters[Offset(sets, k) + j].frameIx
         == sets[k].emitters[j].frameIx + k * c
    ensures Offset(sets, k) + j < Len(Cat(sets, Some(s), None).value)
         && Cat(sets, Some(s), None).value.emitters[Offset(sets, k) + j].frameIx
         == sets[k].emitters[j].frameIx + s[k]
  {
    CatAt(sets, None, Some(c), k, j);
    CatAt(sets, Some(s), None, k, j);
  }

  /** `a + b`: concatenation without frame shift. */
  function Add(a: EmitterSet, b: EmitterSet): (r: EmitterSet)
    ensures Cat([a, b], None, None) == Ok(r)
  {
    Cat([a, b], None, None).value
  }

  /** `a + b` keeps a's records followed by b's, so its length is the sum. */
  lemma AddLength(a: EmitterSet, b: EmitterSet)
    ensures Add(a, b).emitters == a.emitters + b.emitters
    ensures Len(Add(a, b)) == Len(a) + Len(b)
  {
    var p := Shifted([a, b], None, None);
    assert ShiftFrames(a.emitters, 0) == a.emitters;
    assert ShiftFrames(b.emitters, 0) == b.emitters;
    assert p[..1][..0] == [];
    assert Flatten(p[..1]) == a.emitters;
    assert p[..2][..1] == p[..1];
    assert Add(a, b).emitters == Flatten(p);
  }

  // ---------------------------------------------------------------------------
  // Chunks

  /** Size of chunk i when n records are cut into k pieces: the first n % k
      pieces take one record more than the others. */
  function ChunkSize(n: nat, k: nat, i: nat): nat
    requires k > 0
  {
    n / k + (if i < n % k then 1 else 0)
  }

  /** Start of chunk i: the total size of the chunks before it. */
  function ChunkStart(n: nat, k: nat, i: nat): nat
    requires k > 0
  {
    if i == 0 then 0 else ChunkStart(n, k, i - 1) + ChunkSize(n, k, i - 1)
  }

  lemma {:induction false} ChunkStartClosed(n: nat, k: nat, i: nat)
    requires k > 0 && i <= k
    ensures ChunkStart(n, k, i) == i * (n / k) + (if i < n % k then i else n % k)
  {
    if i > 0 {
      ChunkStartClosed(n, k, i - 1);
      assert i * (n / k) == (i - 1) * (n / k) + n / k;
    }
  }

  lemma MulMono(a: nat, b: nat, q: nat)
    requires a <= b
    ensures a * q <= b * q
  {
  }

  lemma ChunkWithin(n: nat, k: nat, i: nat)
    requires k > 0 && i < k
    ensures ChunkStart(n, k, i) <= ChunkStart(n, k, i + 1) <= n
  {
    ChunkStartClosed(n, k, i + 1);
    MulMono(i + 1, k, n / k);
    DivMod(n, k);
  }

  lemma DivMod(n: nat, k: nat)
    requires k > 0
    ensures n == k * (n / k) + n % k && n % k < k
  {
  }

  lemma ChunkEnd(n: nat, k: nat)
    requires k > 0
    ensures ChunkStart(n, k, k) == n
  {
    ChunkStartClosed(n, k, k);
    DivMod(n, k);
  }

  /** `chunks(k)`: k contiguous pieces of the set; no piece for k <= 0. */
  function Chunks(e: EmitterSet, k: int): (r: seq<EmitterSet>)
    ensures |r| == if k > 0 then k else 0
    ensures forall i :: 0 <= i < |r| ==> r[i].xyUnit == e.xyUnit && r[i].pxSize == e.pxSize
  {
    if k <= 0 then [] else seq(k, i requires 0 <= i < k => Chunk(e, k, i))
  }

  /** Chunk i of k. */
  function Chunk(e: EmitterSet, k: nat, i: nat): (r: EmitterSet)
    requires i < k
    ensures r.xyUnit == e.xyUnit && r.pxSize == e.pxSize
  {
    ChunkWithin(Len(e), k, i);
    EmitterSet(e.emitters[ChunkStart(Len(e), k, i)..ChunkStart(Len(e), k, i + 1)], e.xyUnit, e.pxSize)
  }

  /** The chunk sizes: n / k each, plus one for the first n % k chunks, so
      a chunk is never smaller than a later one. */
  lemma ChunkSizes(e: EmitterSet, k: int, i: int, j: int)
    requires 0 <= i <= j < k
    ensures Len(Chunks(e, k)[i]) == Len(e) / k + (if i < Len(e) % k then 1 else 0)
    ensures Len(Chunks(e, k)[i]) >= Len(Chunks(e, k)[j])
  {
    ChunkWithin(Len(e), k, i);
    ChunkWithin(Len(e), k, j);
  }

  /** Seven records cut into three chunks gives sizes 3, 2, 2. */
  lemma ChunkExample(e: EmitterSet)
    requires Len(e) == 7
    ensures Len(Chunks(e, 3)[0]) == 3 && Len(Chunks(e, 3)[1]) == 2 && Len(Chunks(e, 3)[2]) == 2
  {
    ChunkSizes(e, 3, 0, 2);
    ChunkSizes(e, 3, 1, 2);
    ChunkSizes(e, 3, 2, 2);
  }

  lemma {:induction false} FlattenChunkPrefix(e: EmitterSet, k: nat, i: nat)
    requires 0 < k && i <= k
    ensures ChunkStart(Len(e), k, i) <= Len(e)
    ensures Flatten(Records(Chunks(e, k))[..i]) == e.emitters[..ChunkStart(Len(e), k, i)]
  {
    var n := Len(e);
    if i > 0 {
      FlattenChunkPrefix(e, k, i - 1);
      ChunkWithin(n, k, i - 1);
      var p := Records(Chunks(e, k))[..i];
      assert p[..i - 1] == Records(Chunks(e, k))[..i - 1];
      assert p[i - 1] == Chunk(e, k, i - 1).emitters;
      assert e.emitters[..ChunkStart(n, k, i - 1)] + e.emitters[ChunkStart(n, k, i - 1)..ChunkStart(n, k, i)]
          == e.emitters[..ChunkStart(n, k, i)];
    }
  }

  /** Concatenation without frame shift is plain concatenation of the records. */
  lemma CatUnshifted(sets: seq<EmitterSet>)
    ensures Cat(sets, None, None) == Ok(EmitterSet(Flatten(Records(sets)), FirstUnit(sets), FirstPxSize(sets)))
  {
    var p := Shifted(sets, None, None);
    forall q | 0 <= q < |sets| ensures p[q] == Records(sets)[q] {
      assert ShiftFrames(sets[q].emitters, 0) == sets[q].emitters;
    }
    assert p == Records(sets);
  }

  /** Concatenating the chunks reproduces the original set exactly, and the
      chunk lengths add up to its length. */
  lemma ChunksCatRoundTrip(e: EmitterSet, k: int)
    requires k > 0
    ensures Cat(Chunks(e, k), None, None) == Ok(e)
    ensures TotalLen(Chunks(e, k)) == Len(e)
  {
    var cs := Chunks(e, k);
    FlattenChunkPrefix(e, k, k);
    ChunkEnd(Len(e), k);
    assert Records(cs)[..k] == Records(cs);
    assert e.emitters[..Len(e)] == e.emitters;
    CatUnshifted(cs);
    FirstUnitConst(cs, e.xyUnit);
    FirstPxSizeConst(cs, e.pxSize);
    FlattenLength(Records(cs), cs);
  }

  lemma {:induction false} FirstUnitConst(sets: seq<EmitterSet>, u: Option<Unit>)
    requires |sets| > 0 && forall k :: 0 <= k < |sets| ==> sets[k].xyUnit == u
    ensures FirstUnit(sets) == u
  {
    if u.None? && |sets| > 1 {
      FirstUnitConst(sets[1..], u);
    }
  }

  lemma {:induction false} FirstPxSizeConst(sets: seq<EmitterSet>, p: Option<PxSize>)
    requires |sets| > 0 && forall k :: 0 <= k < |sets| ==> sets[k].pxSize == p
    ensures FirstPxSize(sets) == p
  {
    if p.None? && |sets| > 1 {
      FirstPxSizeConst(sets[1..], p);
    }
  }

  // ---------------------------------------------------------------------------
  // The mutable set object: columns that can be reassigned one by one

  predicate IsIntegral(r: real) {
    r == r.Floor as real
  }

  /** The records described by equally long columns. */
  function Assemble(xyz: seq<Xyz>, phot: seq<real>, frameIx: seq<real>, id: seq<int>,
                    u: Option<Unit>, p: Option<PxSize>): EmitterSet
    requires |phot| == |xyz| && |frameIx| == |xyz| && |id| == |xyz|
  {
    EmitterSet(seq(|xyz|, i requires 0 <= i < |xyz| => Emitter(xyz[i], phot[i], frameIx[i].Floor, id[i])), u, p)
  }

  function XyzColumn(e: EmitterSet): seq<Xyz> { seq(Len(e), i requires 0 <= i < Len(e) => e.emitters[i].xyz) }
  function PhotColumn(e: EmitterSet): seq<real> { seq(Len(e), i requires 0 <= i < Len(e) => e.emitters[i].phot) }
  function FrameColumn(e: EmitterSet): seq<real> { seq(Len(e), i requires 0 <= i < Len(e) => e.emitters[i].frameIx as real) }
  function IdColumn(e: EmitterSet): seq<int> { seq(Len(e), i requires 0 <= i < Len(e) => e.emitters[i].id) }

  /** Splitting a set into columns and assembling them gives the set back;
      appending the columns of e appends its records. */
  lemma AssembleColumns(xyz: seq<Xyz>, phot: seq<real>, frameIx: seq<real>, id: seq<int>, e: EmitterSet,
                        u: Option<Unit>, p: Option<PxSize>)
    requires |phot| == |xyz| && |frameIx| == |xyz| && |id| == |xyz|
    ensures Assemble(xyz + XyzColumn(e), phot + PhotColumn(e), frameIx + FrameColumn(e), id + IdColumn(e), u, p).emitters
         == Assemble(xyz, phot, frameIx, id, u, p).emitters + e.emitters
  {
  }

  /** The concatenation of an optional per-emitter column (`xyz_sig`,
      `xyz_cr`) of two sets: present when both sets carry it, and then the
      first set's rows followed by the second's. */
  function CatColumn(a: Option<seq<Xyz>>, b: Option<seq<Xyz>>): (r: Option<seq<Xyz>>)
    ensures r.Some? <==> a.Some? && b.Some?
    ensures r.Some? ==> |r.value| == |a.value| + |b.value|
                        && r.value[..|a.value|] == a.value && r.value[|a.value|..] == b.value
  {
    if a.Some? && b.Some? then Some(a.value + b.value) else None
  }

  /** An EmitterSet as an object whose columns are assigned independently
      (`em.frame_ix = ...`, `em.xyz_cr = ...`), so that they can disagree until
      the sanity check runs.  Frame indices are kept as reals because a
      caller may assign non-integral values, and the check that the frame
      index is an integer column of the right shape is modelled as every
      value being integral (a float column such as `torch.rand(42, 1)` fails
      it either way). */
  class EmitterSetObject {
    var xyz: seq<Xyz>
    var phot: seq<real>
    var frameIx: seq<real>
    var id: seq<int>
    var xyzSig: Option<seq<Xyz>>
    var xyzCr: Option<seq<Xyz>>
    var xyUnit: Option<Unit>
    var pxSize: Option<PxSize>

    /** Every column has one entry per emitter and every frame index is an integer. */
    predicate Sane()
      reads this
    {
      && |phot| == |xyz| && |frameIx| == |xyz| && |id| == |xyz|
      && (xyzSig.Some? ==> |xyzSig.value| == |xyz|)
      && (xyzCr.Some? ==> |xyzCr.value| == |xyz|)
      && forall i :: 0 <= i < |frameIx| ==> IsIntegral(frameIx[i])
    }

    /** The records the columns describe. */
    function Value(): EmitterSet
      reads this
      requires Sane()
    {
      Assemble(xyz, phot, frameIx, id, xyUnit, pxSize)
    }

    constructor (e: EmitterSet)
      ensures Sane() && Value() == e
      ensures xyzSig.None? && xyzCr.None?
    {
      xyz, phot, frameIx, id := XyzColumn(e), PhotColumn(e), FrameColumn(e), IdColumn(e);
      xyzSig := None;
      xyzCr := None;
      xyUnit := e.xyUnit;
      pxSize := e.pxSize;
      new;
      AssembleColumns([], [], [], [], e, e.xyUnit, e.pxSize);
    }

    /** Raises ValueError exactly when the columns disagree in length or a
        frame index is not integral; changes nothing. */
    method SanityCheck() returns (r: Outcome)
      ensures r.Pass? <==> Sane()
      ensures r.Fail? ==> r.error.ValueError?
    {
      if |phot| != |xyz| || |frameIx| != |xyz| || |id| != |xyz|
         || (xyzSig.Some? && |xyzSig.value| != |xyz|) || (xyzCr.Some? && |xyzCr.value| != |xyz|) {
        return Fail(ValueError("Field lengths disagree with the number of emitters."));
      }
      var i := 0;
      while i < |frameIx|
        invariant 0 <= i <= |frameIx|
        invariant forall j :: 0 <= j < i ==> IsIntegral(frameIx[j])
      {
        if !IsIntegral(frameIx[i]) {
          return Fail(ValueError("Frame index must be integer."));
        }
        i := i + 1;
      }
      return Pass;
    }

    /** Takes over every column, the unit and the pixel size of `other`. */
    method InplaceReplace(other: EmitterSetObject)
      modifies this
      ensures xyz == old(other.xyz) && phot == old(other.phot) && frameIx == old(other.frameIx)
      ensures id == old(other.id) && xyzSig == old(other.xyzSig) && xyzCr == old(other.xyzCr)
      ensures xyUnit == old(other.xyUnit) && pxSize == old(other.pxSize)
      ensures old(other.Sane()) ==> Sane() && Value() == old(other.Value())
    {
      xyz, phot, frameIx, id := other.xyz, other.phot, other.frameIx, other.id;
      xyzSig, xyzCr := other.xyzSig, other.xyzCr;
      xyUnit, pxSize := other.xyUnit, other.pxSize;
    }

    /** `self += other`: the set becomes `self + other`, the optional
        sigma and Cramer-Rao columns of `other` given alongside it; building
        the sum checks this set's columns first, so an insane set raises and
        stays as it was. */
    method AddInPlace(other: EmitterSet, otherSig: Option<seq<Xyz>>, otherCr: Option<seq<Xyz>>) returns (r: Outcome)
      requires otherSig.Some? ==> |otherSig.value| == Len(other)
      requires otherCr.Some? ==> |otherCr.value| == Len(other)
      modifies this
      ensures old(Sane()) ==> r.Pass? && Sane() && Value() == Add(old(Value()), other)
      ensures old(Sane()) ==> Len(Value()) == |old(xyz)| + Len(other)
      ensures old(Sane()) ==> xyzSig == CatColumn(old(xyzSig), otherSig) && xyzCr == CatColumn(old(xyzCr), otherCr)
      ensures !old(Sane()) ==> r.Fail? && r.error.ValueError? && unchanged(this)
    {
      r := SanityCheck();
      if r.Fail? {
        return;
      }
      var sum := Add(Value(), other);
      AddLength(Value(), other);
      AssembleColumns(xyz, phot, frameIx, id, other, sum.xyUnit, sum.pxSize);
      xyz, phot := xyz + XyzColumn(other), phot + PhotColumn(other);
      frameIx, id := frameIx + FrameColumn(other), id + IdColumn(other);
      xyzSig, xyzCr := CatColumn(xyzSig, otherSig), CatColumn(xyzCr, otherCr);
      xyUnit, pxSize := sum.xyUnit, sum.pxSize;
    }

    /** The unit-converted view `<field>_px` / `<field>_nm`: the stored
        column handed to the conversion with exponent 1 for positions and
        sigmas and 2 for the Cramer-Rao bound. */
    function Converted(q: Quantity, tar: Unit): (r: Result<seq<Xyz>>)
      reads this
      requires q == Sigma ==> xyzSig.Some?
      requires q == CramerRao ==> xyzCr.Some?
      ensures q == Position ==> r == PxNmConversion(xyz, xyUnit, tar, pxSize, 1)
      ensures q == Sigma ==> r == PxNmConversion(xyzSig.value, xyUnit, tar, pxSize, 1)
      ensures q == CramerRao ==> r == PxNmConversion(xyzCr.value, xyUnit, tar, pxSize, 2)
    {
      match q
      case Position => PxNmConversion(xyz, xyUnit, tar, pxSize, Power(q))
      case Sigma => PxNmConversion(xyzSig.value, xyUnit, tar, pxSize, Power(q))
      case CramerRao => PxNmConversion(xyzCr.value, xyUnit, tar, pxSize, Power(q))
    }
  }
}
