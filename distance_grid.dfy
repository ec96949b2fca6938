/** The greedy pairing loop of GreedyHungarianMatching.rule_out_dist_match:
    while the smallest remaining distance is below the threshold, take the
    first arg-min in row-major order, record its (output, target) pair and
    overwrite its row and its column with infinity. */
module DistanceGrid {
  import opened Wrappers

  /** A float distance: finite, or the infinity the loop writes over used
      rows and columns. */
  datatype Dist = Finite(v: real) | Inf

  predicate Le(a: Dist, b: Dist) {
    b.Inf? || (a.Finite? && a.v <= b.v)
  }

  predicate Lt(a: Dist, b: Dist) {
    a.Finite? && (b.Inf? || a.v < b.v)
  }

  /** `d < threshold` for a float threshold. */
  predicate Below(d: Dist, th: real) {
    d.Finite? && d.v < th
  }

  /** A matched (output index, target index) pair. */
  datatype IxPair = IxPair(row: nat, col: nat)

  /** Every row of `g` has `n` columns, and there is at least one cell. */
  predicate Rect(g: seq<seq<Dist>>, n: nat) {
    |g| > 0 && n > 0 && forall i :: 0 <= i < |g| ==> |g[i]| == n
  }

  /** (i', j') comes before (i, j) in row-major order. */
  predicate Before(i': int, j': int, i: int, j: int) {
    i' < i || (i' == i && j' < j)
  }

  /** (i, j) is where `argmin` of the flattened grid points: a smallest cell,
      strictly smaller than every cell before it in row-major order. */
  predicate IsFirstMin(g: seq<seq<Dist>>, n: nat, i: int, j: int)
    requires Rect(g, n)
  {
    && 0 <= i < |g| && 0 <= j < n
    && (forall r, c :: 0 <= r < |g| && 0 <= c < n ==> Le(g[i][j], g[r][c]))
    && (forall r, c :: 0 <= r < |g| && 0 <= c < n && Before(r, c, i, j) ==> Lt(g[i][j], g[r][c]))
  }

  lemma FirstMinUnique(g: seq<seq<Dist>>, n: nat, i: int, j: int, i': int, j': int)
    requires Rect(g, n) && IsFirstMin(g, n, i, j) && IsFirstMin(g, n, i', j')
    ensures i == i' && j == j'
  {
    assert Before(i', j', i, j) ==> Lt(g[i][j], g[i'][j']);
    assert Before(i, j, i', j') ==> Lt(g[i'][j'], g[i][j]);
    assert Le(g[i][j], g[i'][j']) && Le(g[i'][j'], g[i][j]);
  }

  /** Index of the first smallest entry of a row. */
  function RowFirstMin(row: seq<Dist>): (k: nat)
    requires |row| > 0
    ensures k < |row|
    ensures forall c :: 0 <= c < |row| ==> Le(row[k], row[c])
    ensures forall c :: 0 <= c < k ==> Lt(row[k], row[c])
  {
    if |row| == 1 then 0
    else
      var k := RowFirstMin(row[..|row| - 1]);
      if Lt(row[|row| - 1], row[k]) then |row| - 1 else k
  }

  /** The first arg-min of the grid in row-major order. */
  function GridFirstMin(g: seq<seq<Dist>>, n: nat): (p: IxPair)
    requires Rect(g, n)
    ensures IsFirstMin(g, n, p.row, p.col)
  {
    if |g| == 1 then IxPair(0, RowFirstMin(g[0]))
    else
      var p := GridFirstMin(g[..|g| - 1], n);
      var last := |g| - 1;
      var c := RowFirstMin(g[last]);
      if Lt(g[last][c], g[p.row][p.col]) then IxPair(last, c) else p
  }

  /** Row `i` and column `j` overwritten with infinity. */
  function KnockOut(g: seq<seq<Dist>>, n: nat, p: IxPair): (k: seq<seq<Dist>>)
    requires Rect(g, n)
    ensures Rect(k, n)
  {
    seq(|g|, r requires 0 <= r < |g| =>
      seq(n, c requires 0 <= c < n => if r == p.row || c == p.col then Inf else g[r][c]))
  }

  /** Rows that still hold a finite distance. */
  function LiveRows(g: seq<seq<Dist>>, n: nat): set<nat>
    requires Rect(g, n)
  {
    set r: nat, c: nat | r < |g| && c < n && g[r][c].Finite? :: r
  }

  lemma KnockOutShrinks(g: seq<seq<Dist>>, n: nat, p: IxPair)
    requires Rect(g, n) && p.row < |g| && p.col < n && g[p.row][p.col].Finite?
    ensures LiveRows(KnockOut(g, n, p), n) < LiveRows(g, n)
  {
    var k := KnockOut(g, n, p);
    forall r | r in LiveRows(k, n) ensures r in LiveRows(g, n) {
      var c: nat :| c < n && k[r][c].Finite?;
      assert g[r][c].Finite?;
    }
    assert p.row in LiveRows(g, n);
  }

  /** The pairs the loop commits, in order: the first arg-min while it is
      below the threshold, then the same on the grid with its row and column
      knocked out. */
  function Greedy(g: seq<seq<Dist>>, n: nat, th: real): (ms: seq<IxPair>)
    requires Rect(g, n)
    ensures forall k :: 0 <= k < |ms| ==> ms[k].row < |g| && ms[k].col < n
    decreases LiveRows(g, n)
  {
    var p := GridFirstMin(g, n);
    if !Below(g[p.row][p.col], th) then []
    else
      KnockOutShrinks(g, n, p);
      [p] + Greedy(KnockOut(g, n, p), n, th)
  }

  predicate RowUsed(ps: seq<IxPair>, r: int) {
    exists k :: 0 <= k < |ps| && ps[k].row == r
  }

  predicate ColUsed(ps: seq<IxPair>, c: int) {
    exists k :: 0 <= k < |ps| && ps[k].col == c
  }

  /** The grid with the rows and columns of all of `ps` knocked out. */
  function KnockAll(g: seq<seq<Dist>>, n: nat, ps: seq<IxPair>): (k: seq<seq<Dist>>)
    requires Rect(g, n)
    ensures Rect(k, n)
  {
    seq(|g|, r requires 0 <= r < |g| =>
      seq(n, c requires 0 <= c < n => if RowUsed(ps, r) || ColUsed(ps, c) then Inf else g[r][c]))
  }

  lemma KnockAllSnoc(g: seq<seq<Dist>>, n: nat, ps: seq<IxPair>, p: IxPair)
    requires Rect(g, n)
    ensures KnockOut(KnockAll(g, n, ps), n, p) == KnockAll(g, n, ps + [p])
  {
    var a, b := KnockOut(KnockAll(g, n, ps), n, p), KnockAll(g, n, ps + [p]);
    forall r, c | 0 <= r < |g| && 0 <= c < n ensures a[r][c] == b[r][c] {
      if p.row == r { assert (ps + [p])[|ps|] == p; }
      if p.col == c { assert (ps + [p])[|ps|] == p; }
      if RowUsed(ps, r) { var k :| 0 <= k < |ps| && ps[k].row == r; assert (ps + [p])[k] == ps[k]; }
      if ColUsed(ps, c) { var k :| 0 <= k < |ps| && ps[k].col == c; assert (ps + [p])[k] == ps[k]; }
      if RowUsed(ps + [p], r) { var k :| 0 <= k < |ps| + 1 && (ps + [p])[k].row == r; if k < |ps| { assert ps[k].row == r; } }
      if ColUsed(ps + [p], c) { var k :| 0 <= k < |ps| + 1 && (ps + [p])[k].col == c; if k < |ps| { assert ps[k].col == c; } }
    }
    assert forall r :: 0 <= r < |g| ==> a[r] == b[r];
  }

  lemma KnockAllCons(g: seq<seq<Dist>>, n: nat, p: IxPair, ps: seq<IxPair>)
    requires Rect(g, n)
    ensures KnockAll(KnockOut(g, n, p), n, ps) == KnockAll(g, n, [p] + ps)
  {
    var a, b := KnockAll(KnockOut(g, n, p), n, ps), KnockAll(g, n, [p] + ps);
    forall r, c | 0 <= r < |g| && 0 <= c < n ensures a[r][c] == b[r][c] {
      if p.row == r || p.col == c { assert ([p] + ps)[0] == p; }
      if RowUsed(ps, r) { var k :| 0 <= k < |ps| && ps[k].row == r; assert ([p] + ps)[k + 1] == ps[k]; }
      if ColUsed(ps, c) { var k :| 0 <= k < |ps| && ps[k].col == c; assert ([p] + ps)[k + 1] == ps[k]; }
      if RowUsed([p] + ps, r) { var k :| 0 <= k < |ps| + 1 && ([p] + ps)[k].row == r; if k > 0 { assert ps[k - 1].row == r; } }
      if ColUsed([p] + ps, c) { var k :| 0 <= k < |ps| + 1 && ([p] + ps)[k].col == c; if k > 0 { assert ps[k - 1].col == c; } }
    }
    assert forall r :: 0 <= r < |g| ==> a[r] == b[r];
  }

  /** Each committed pair is the row-major first arg-min of the grid left by
      the pairs before it, and its distance is below the threshold. */
  lemma {:induction false} GreedyPicksFirstMin(g: seq<seq<Dist>>, n: nat, th: real)
    requires Rect(g, n)
    ensures forall k :: 0 <= k < |Greedy(g, n, th)| ==>
      && IsFirstMin(KnockAll(g, n, Greedy(g, n, th)[..k]), n, Greedy(g, n, th)[k].row, Greedy(g, n, th)[k].col)
      && Below(KnockAll(g, n, Greedy(g, n, th)[..k])[Greedy(g, n, th)[k].row][Greedy(g, n, th)[k].col], th)
    decreases LiveRows(g, n)
  {
    var ms := Greedy(g, n, th);
    var p := GridFirstMin(g, n);
    if Below(g[p.row][p.col], th) {
      KnockOutShrinks(g, n, p);
      var kg := KnockOut(g, n, p);
      var rest := Greedy(kg, n, th);
      assert ms == [p] + rest;
      GreedyPicksFirstMin(kg, n, th);
      forall k | 0 <= k < |ms|
        ensures IsFirstMin(KnockAll(g, n, ms[..k]), n, ms[k].row, ms[k].col)
        ensures Below(KnockAll(g, n, ms[..k])[ms[k].row][ms[k].col], th)
      {
        if k == 0 {
          KnockAllNone(g, n);
          assert ms[..0] == [];
        } else {
          assert ms[..k] == [p] + rest[..k - 1];
          KnockAllCons(g, n, p, rest[..k - 1]);
        }
      }
    }
  }

  /** What the distance grid holds after the loop. */
  function Residual(g: seq<seq<Dist>>, n: nat, th: real): (k: seq<seq<Dist>>)
    requires Rect(g, n)
    ensures Rect(k, n)
  {
    KnockAll(g, n, Greedy(g, n, th))
  }

  /** The loop stops exactly when nothing below the threshold remains: every
      cell left in the grid is >= threshold (or infinite). */
  lemma {:induction false} GreedyExhausts(g: seq<seq<Dist>>, n: nat, th: real)
    requires Rect(g, n)
    ensures forall r, c :: 0 <= r < |g| && 0 <= c < n ==> !Below(Residual(g, n, th)[r][c], th)
    decreases LiveRows(g, n)
  {
    var p := GridFirstMin(g, n);
    if Below(g[p.row][p.col], th) {
      KnockOutShrinks(g, n, p);
      var kg := KnockOut(g, n, p);
      assert Greedy(g, n, th) == [p] + Greedy(kg, n, th);
      GreedyExhausts(kg, n, th);
      KnockAllCons(g, n, p, Greedy(kg, n, th));
      assert Residual(g, n, th) == Residual(kg, n, th);
    } else {
      KnockAllNone(g, n);
      forall r, c | 0 <= r < |g| && 0 <= c < n ensures !Below(g[r][c], th) {
        assert Le(g[p.row][p.col], g[r][c]);
      }
    }
  }

  lemma KnockAllNone(g: seq<seq<Dist>>, n: nat)
    requires Rect(g, n)
    ensures KnockAll(g, n, []) == g
  {
    var k := KnockAll(g, n, []);
    forall r, c | 0 <= r < |g| && 0 <= c < n ensures k[r][c] == g[r][c] {
      assert !RowUsed([], r) && !ColUsed([], c);
    }
    assert forall r :: 0 <= r < |g| ==> k[r] == g[r];
  }

  /** Every cell of a knocked-out grid is infinite or the original value. */
  lemma KnockAllKeeps(g: seq<seq<Dist>>, n: nat, ps: seq<IxPair>, r: int, c: int)
    requires Rect(g, n) && 0 <= r < |g| && 0 <= c < n
    ensures KnockAll(g, n, ps)[r][c] == Inf || KnockAll(g, n, ps)[r][c] == g[r][c]
    ensures !RowUsed(ps, r) && !ColUsed(ps, c) ==> KnockAll(g, n, ps)[r][c] == g[r][c]
  {
  }

  /** The pairs use every output row and every target column at most once,
      lie inside the grid, and pair distances that are below the threshold
      in the original matrix. */
  lemma GreedyPairsDisjoint(g: seq<seq<Dist>>, n: nat, th: real)
    requires Rect(g, n)
    ensures forall k :: 0 <= k < |Greedy(g, n, th)| ==>
      && Greedy(g, n, th)[k].row < |g| && Greedy(g, n, th)[k].col < n
      && Below(g[Greedy(g, n, th)[k].row][Greedy(g, n, th)[k].col], th)
    ensures forall a, b :: 0 <= a < b < |Greedy(g, n, th)| ==>
      Greedy(g, n, th)[a].row != Greedy(g, n, th)[b].row && Greedy(g, n, th)[a].col != Greedy(g, n, th)[b].col
  {
    var ms := Greedy(g, n, th);
    GreedyPicksFirstMin(g, n, th);
    forall k | 0 <= k < |ms|
      ensures ms[k].row < |g| && ms[k].col < n && Below(g[ms[k].row][ms[k].col], th)
    {
      KnockAllKeeps(g, n, ms[..k], ms[k].row, ms[k].col);
    }
    forall a, b | 0 <= a < b < |ms| ensures ms[a].row != ms[b].row && ms[a].col != ms[b].col {
      var before := ms[..b];
      assert before[a] == ms[a];
      assert RowUsed(before, ms[a].row) && ColUsed(before, ms[a].col);
      var kb := KnockAll(g, n, before);
      assert Below(kb[ms[b].row][ms[b].col], th);
      assert !RowUsed(before, ms[b].row) && !ColUsed(before, ms[b].col);
    }
  }

  /** No output and target that both stayed unmatched are closer than the
      threshold in the original matrix. */
  lemma GreedyMaximal(g: seq<seq<Dist>>, n: nat, th: real, r: int, c: int)
    requires Rect(g, n) && 0 <= r < |g| && 0 <= c < n
    requires !RowUsed(Greedy(g, n, th), r) && !ColUsed(Greedy(g, n, th), c)
    ensures !Below(g[r][c], th)
  {
    GreedyExhausts(g, n, th);
    KnockAllKeeps(g, n, Greedy(g, n, th), r, c);
    assert Residual(g, n, th)[r][c] == g[r][c];
  }

  // ---------------------------------------------------------------------------
  // The loop, on a mutable matrix

  /** The contents of the matrix as a grid. */
  function Grid(a: array2<Dist>): (g: seq<seq<Dist>>)
    reads a
    ensures |g| == a.Length0
    ensures forall i :: 0 <= i < a.Length0 ==> |g[i]| == a.Length1
  {
    seq(a.Length0, i requires 0 <= i < a.Length0 reads a =>
      seq(a.Length1, j requires 0 <= j < a.Length1 reads a => a[i, j]))
  }

  /** `np.unravel_index(dists.argmin(), dists.shape)`: a scan of the whole
      matrix in row-major order that keeps the first smallest entry. */
  method ArgMin(a: array2<Dist>) returns (p: IxPair)
    requires a.Length0 > 0 && a.Length1 > 0
    ensures p == GridFirstMin(Grid(a), a.Length1)
  {
    var bi, bj := 0, 0;
    var i := 0;
    while i < a.Length0
      invariant 0 <= i <= a.Length0 && bi < a.Length0 && bj < a.Length1
      invariant bi <= i && (bi == i ==> bi == 0 && bj == 0)
      invariant forall r, c :: 0 <= r < i && 0 <= c < a.Length1 ==> Le(a[bi, bj], a[r, c])
      invariant forall r, c :: 0 <= r < i && 0 <= c < a.Length1 && Before(r, c, bi, bj) ==> Lt(a[bi, bj], a[r, c])
    {
      var j := 0;
      while j < a.Length1
        invariant 0 <= j <= a.Length1 && bi < a.Length0 && bj < a.Length1
        invariant bi < i || (bi == i && (bj < j || (bi == 0 && bj == 0 && i == 0)))
        invariant forall r, c :: 0 <= r < i && 0 <= c < a.Length1 ==> Le(a[bi, bj], a[r, c])
        invariant forall c :: 0 <= c < j ==> Le(a[bi, bj], a[i, c])
        invariant forall r, c :: 0 <= r < i && 0 <= c < a.Length1 && Before(r, c, bi, bj) ==> Lt(a[bi, bj], a[r, c])
        invariant forall c :: 0 <= c < j && Before(i, c, bi, bj) ==> Lt(a[bi, bj], a[i, c])
      {
        if Lt(a[i, j], a[bi, bj]) {
          bi, bj := i, j;
        }
        j := j + 1;
      }
      i := i + 1;
    }
    var g := Grid(a);
    assert IsFirstMin(g, a.Length1, bi, bj);
    var q := GridFirstMin(g, a.Length1);
    FirstMinUnique(g, a.Length1, bi, bj, q.row, q.col);
    p := IxPair(bi, bj);
  }

  /** `dists[i] = inf; dists[:, j] = inf`. */
  method KnockOutInPlace(a: array2<Dist>, p: IxPair)
    requires a.Length0 > 0 && a.Length1 > 0 && p.row < a.Length0 && p.col < a.Length1
    modifies a
    ensures Grid(a) == KnockOut(old(Grid(a)), a.Length1, p)
  {
    ghost var g := Grid(a);
    var j := 0;
    while j < a.Length1
      invariant 0 <= j <= a.Length1
      invariant forall r, c :: 0 <= r < a.Length0 && 0 <= c < a.Length1 ==>
        a[r, c] == if (r == p.row && c < j) then Inf else g[r][c]
    {
      a[p.row, j] := Inf;
      j := j + 1;
    }
    var i := 0;
    while i < a.Length0
      invariant 0 <= i <= a.Length0
      invariant forall r, c :: 0 <= r < a.Length0 && 0 <= c < a.Length1 ==>
        a[r, c] == if r == p.row || (c == p.col && r < i) then Inf else g[r][c]
    {
      a[i, p.col] := Inf;
      i := i + 1;
    }
    assert forall r :: 0 <= r < a.Length0 ==> Grid(a)[r] == KnockOut(g, a.Length1, p)[r];
  }

  /** `rule_out_dist_match(dists, threshold)`: the committed pairs are the
      greedy sequence of the original matrix, and the matrix is left with
      their rows and columns set to infinity. An empty matrix has no
      minimum, and `min()` raises. */
  method RuleOutDistMatch(dists: array2<Dist>, th: real) returns (r: Result<seq<IxPair>>)
    modifies dists
    ensures dists.Length0 == 0 || dists.Length1 == 0 ==> r.Err? && r.error.RuntimeError?
    ensures dists.Length0 > 0 && dists.Length1 > 0 ==>
      && r == Ok(Greedy(old(Grid(dists)), dists.Length1, th))
      && Grid(dists) == Residual(old(Grid(dists)), dists.Length1, th)
  {
    if dists.Length0 == 0 || dists.Length1 == 0 {
      return Err(RuntimeError("min(): Expected reduction dim to be specified for input.numel() == 0."));
    }
    ghost var g0 := Grid(dists);
    var n := dists.Length1;
    KnockAllNone(g0, n);
    var matches: seq<IxPair> := [];
    var p := ArgMin(dists);
    while Below(dists[p.row, p.col], th)
      invariant Rect(Grid(dists), n)
      invariant Grid(dists) == KnockAll(g0, n, matches)
      invariant matches + Greedy(Grid(dists), n, th) == Greedy(g0, n, th)
      invariant p == GridFirstMin(Grid(dists), n)
      decreases LiveRows(Grid(dists), n)
    {
      GreedyStep(g0, Grid(dists), n, th, matches, p);
      KnockOutInPlace(dists, p);
      matches := matches + [p];
      p := ArgMin(dists);
    }
    GreedyStop(g0, Grid(dists), n, th, matches, p);
    return Ok(matches);
  }

  /** One round of the loop: knocking out the committed pair p keeps the
      grid equal to the original with all committed pairs knocked out, keeps
      the committed pairs a prefix of the greedy sequence, and empties a row. */
  lemma GreedyStep(g0: seq<seq<Dist>>, g: seq<seq<Dist>>, n: nat, th: real, matches: seq<IxPair>, p: IxPair)
    requires Rect(g0, n) && Rect(g, n)
    requires g == KnockAll(g0, n, matches)
    requires matches + Greedy(g, n, th) == Greedy(g0, n, th)
    requires p == GridFirstMin(g, n) && Below(g[p.row][p.col], th)
    ensures KnockOut(g, n, p) == KnockAll(g0, n, matches + [p])
    ensures (matches + [p]) + Greedy(KnockOut(g, n, p), n, th) == Greedy(g0, n, th)
    ensures LiveRows(KnockOut(g, n, p), n) < LiveRows(g, n)
  {
    KnockOutShrinks(g, n, p);
    assert Greedy(g, n, th) == [p] + Greedy(KnockOut(g, n, p), n, th);
    KnockAllSnoc(g0, n, matches, p);
  }

  /** When the smallest remaining distance is not below the threshold, the
      committed pairs are the whole greedy sequence and the grid is the
      residual. */
  lemma GreedyStop(g0: seq<seq<Dist>>, g: seq<seq<Dist>>, n: nat, th: real, matches: seq<IxPair>, p: IxPair)
    requires Rect(g0, n) && Rect(g, n)
    requires g == KnockAll(g0, n, matches)
    requires matches + Greedy(g, n, th) == Greedy(g0, n, th)
    requires p == GridFirstMin(g, n) && !Below(g[p.row][p.col], th)
    ensures matches == Greedy(g0, n, th)
    ensures g == Residual(g0, n, th)
  {
    assert Greedy(g, n, th) == [];
    assert matches + [] == matches;
  }
}
