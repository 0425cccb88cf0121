/**
 Probing a rectangular bed mesh (bed_mesh.py): the zig-zag path with substituted points, and the
 rebuilding of the matrix from the probed positions.
 */
module BedMesh {
  import opened Basics

  datatype Point = Point(x: real, y: real)

  datatype Probed = Probed(x: real, y: real, z: real)

  datatype Outcome<+T> = Ok(value: T) | Err(message: string)

  datatype ZrefMode = Disabled | InMesh | Probe

  function Abs(x: real): (r: real)
    ensures r >= 0.0 && (r == x || r == -x)
  {
    if x < 0.0 then -x else x
  }

  // isclose with its default relative tolerance
  predicate IsClose(a: real, b: real, absTol: real) {
    Abs(a - b) <= RMax(0.000000001 * RMax(Abs(a), Abs(b)), absTol)
  }

  predicate Within(p: Point, minC: Point, maxC: Point) {
    minC.x <= p.x <= maxC.x && minC.y <= p.y <= maxC.y
  }

  /* ----- The grid ----- */

  // A grid of columns by rows points, from a corner, with the distances between them.
  datatype Grid = Grid(cols: nat, rows: nat, min: Point, dx: real, dy: real)

  predicate GridOk(g: Grid) { g.cols >= 2 && g.rows >= 1 && g.dx >= 1.0 && g.dy >= 1.0 }

  // The y coordinates are small enough that rows do not count as close to each other.
  predicate RowsApart(g: Grid) {
    Abs(RowY(g, 0)) < 1000000000.0 && Abs(RowY(g, g.rows - 1)) < 1000000000.0
  }

  function RowY(g: Grid, r: int): real { g.min.y + r as real * g.dy }

  // Row r, column c of the mesh.
  function Cell(g: Grid, r: int, c: int): Point {
    Point(g.min.x + c as real * g.dx, RowY(g, r))
  }

  // The column of the j-th point on the path through row r.
  function ColumnOf(g: Grid, r: int, j: int): int { if r % 2 == 0 then j else g.cols - 1 - j }

  function Index(g: Grid, r: int, j: int): int { r * g.cols + j }

  predicate IsZigZag(g: Grid, points: seq<Point>) {
    && |points| == Index(g, g.rows, 0)
    && forall r, j :: 0 <= r < g.rows && 0 <= j < g.cols ==> PointAt(g, points, r, j)
  }

  predicate PointAt(g: Grid, points: seq<Point>, r: int, j: int) {
    0 <= Index(g, r, j) < |points| && points[Index(g, r, j)] == Cell(g, r, ColumnOf(g, r, j))
  }

  lemma IndexNext(g: Grid, r: int, j: int)
    ensures Index(g, r, j) + 1 == Index(g, r, j + 1) && Index(g, r, g.cols) == Index(g, r + 1, 0)
  {
  }

  lemma IndexBound(g: Grid, r: int, j: int)
    requires 0 <= r < g.rows && 0 <= j < g.cols
    ensures 0 <= Index(g, r, j) < Index(g, g.rows, 0)
  {
    NonNegative(g.rows - r - 1, g.cols);
    NonNegative(r, g.cols);
    assert Index(g, g.rows, 0) == Index(g, r + 1, 0) + (g.rows - r - 1) * g.cols;
  }

  lemma NonNegative(x: int, y: int)
    requires x >= 0 && y >= 0
    ensures x * y >= 0
  {
  }

  // The first column of every row and the last of the row before are the same.
  lemma Corner(g: Grid, r: int)
    ensures ColumnOf(g, r, g.cols - 1) == ColumnOf(g, r + 1, 0)
  {
  }

  function ToHundredth(d: real): real { (d * 100.0).Floor as real / 100.0 }

  // The greatest multiple of a hundredth that is not more.
  lemma ToHundredthIs(d: real, k: int)
    ensures k as real / 100.0 <= ToHundredth(d) <==> k as real / 100.0 <= d
    ensures d - 0.01 < ToHundredth(d) <= d
  {
    FloorIs(d * 100.0, k);
  }

  lemma FloorIs(x: real, k: int)
    ensures k <= x.Floor <==> k as real <= x
    ensures x - 1.0 < x.Floor as real <= x
  {
  }

  // The distances that the bounds of a mesh leave between cnt points, rounded down.
  function Spacing(lo: real, hi: real, cnt: nat): real
    requires cnt >= 2
  {
    ToHundredth((hi - lo) / (cnt - 1) as real)
  }

  // Points with that spacing stay within the bounds, and the last one misses the upper bound by less
  // than a hundredth for each distance.
  lemma SpacingIs(lo: real, hi: real, cnt: nat, k: nat, d: real)
    requires cnt >= 2 && k < cnt && d == Spacing(lo, hi, cnt) && d >= 0.0
    ensures lo <= lo + k as real * d <= hi
    ensures lo + (cnt - 1) as real * d > hi - (cnt - 1) as real * 0.01
  {
    ToHundredthIs((hi - lo) / (cnt - 1) as real, 0);
    InTotal(hi - lo, (cnt - 1) as real, d);
    hide Spacing;
    Scale(k as real, (cnt - 1) as real, d);
  }

  lemma InTotal(total: real, n: real, x: real)
    requires n > 0.0 && total / n - 0.01 < x <= total / n
    ensures total - n * 0.01 < n * x <= total
  {
    var q := total / n;
    assert n * q == total;
    Positive(n, x - (q - 0.01));
    Scale(0.0, n, q - x);
  }

  lemma Positive(n: real, x: real)
    requires n > 0.0 && x > 0.0
    ensures n * x > 0.0
  {
  }

  lemma Scale(x: real, y: real, d: real)
    requires 0.0 <= x <= y && d >= 0.0
    ensures 0.0 <= x * d <= y * d
  {
    assert (y - x) * d >= 0.0;
  }

  // All points of a grid that is laid out within bounds are within them.
  lemma GridInside(g: Grid, meshMin: Point, meshMax: Point, r: nat, c: nat)
    requires GridOk(g) && g.rows >= 2 && r < g.rows && c < g.cols && g.min == meshMin
    requires g.dx == Spacing(meshMin.x, meshMax.x, g.cols) && g.dy == Spacing(meshMin.y, meshMax.y, g.rows)
    ensures Within(Cell(g, r, c), meshMin, meshMax)
    ensures Cell(g, g.rows - 1, g.cols - 1).x > meshMax.x - (g.cols - 1) as real * 0.01
    ensures Cell(g, g.rows - 1, g.cols - 1).y > meshMax.y - (g.rows - 1) as real * 0.01
  {
    SpacingIs(meshMin.x, meshMax.x, g.cols, c, g.dx);
    SpacingIs(meshMin.y, meshMax.y, g.rows, r, g.dy);
    hide Spacing;
  }

  // The path is laid out up to, but not including, the j-th point of row i.
  ghost predicate LaidOut(g: Grid, points: seq<Point>, i: int, j: int) {
    && |points| == Index(g, i, j)
    && forall r, c :: (0 <= r < i && 0 <= c < g.cols) || (r == i && 0 <= c < j) ==> PointAt(g, points, r, c)
  }

  lemma LayNext(g: Grid, points: seq<Point>, i: int, j: int)
    requires LaidOut(g, points, i, j)
    ensures LaidOut(g, points + [Cell(g, i, ColumnOf(g, i, j))], i, j + 1)
  {
    IndexNext(g, i, j);
    hide Cell, Index, ColumnOf;
    var longer := points + [Cell(g, i, ColumnOf(g, i, j))];
    forall r, c | (0 <= r < i && 0 <= c < g.cols) || (r == i && 0 <= c < j + 1) ensures PointAt(g, longer, r, c) {
      if (0 <= r < i && 0 <= c < g.cols) || (r == i && 0 <= c < j) {
        assert PointAt(g, points, r, c);
      }
    }
  }

  lemma LayRow(g: Grid, points: seq<Point>, i: int)
    requires LaidOut(g, points, i, g.cols)
    ensures LaidOut(g, points, i + 1, 0)
  {
    IndexNext(g, i, 0);
    hide PointAt, Index;
  }

  lemma AllLaidOut(g: Grid, points: seq<Point>)
    requires LaidOut(g, points, g.rows, 0)
    ensures IsZigZag(g, points)
  {
  }

  // The point that generate_points computes, in either direction.
  lemma ZigZagCell(g: Grid, maxX: real, posY: real, i: int, j: int)
    requires maxX == g.min.x + g.dx * (g.cols - 1) as real && posY == g.min.y + i as real * g.dy
    ensures Point(if i % 2 == 0 then g.min.x + j as real * g.dx else maxX - j as real * g.dx, posY)
      == Cell(g, i, ColumnOf(g, i, j))
  {
    assert (g.cols - 1 - j) as real * g.dx == g.dx * (g.cols - 1) as real - j as real * g.dx;
  }

  // The loops of generate_points for a rectangular bed.
  method ZigZag(g: Grid, maxX: real) returns (points: seq<Point>)
    requires GridOk(g) && maxX == g.min.x + g.dx * (g.cols - 1) as real
    ensures IsZigZag(g, points)
  {
    points := [];
    var posY := g.min.y;
    var i := 0;
    assert LaidOut(g, points, 0, 0);
    hide Cell, Index, ColumnOf, LaidOut;
    while i < g.rows
      invariant 0 <= i <= g.rows && LaidOut(g, points, i, 0) && posY == g.min.y + i as real * g.dy
    {
      var j := 0;
      while j < g.cols
        invariant 0 <= j <= g.cols && LaidOut(g, points, i, j)
      {
        var posX := if i % 2 == 0 then g.min.x + j as real * g.dx else maxX - j as real * g.dx;
        ZigZagCell(g, maxX, posY, i, j);
        LayNext(g, points, i, j);
        points := points + [Point(posX, posY)];
        j := j + 1;
      }
      LayRow(g, points, i);
      assert (i + 1) as real * g.dy == i as real * g.dy + g.dy;
      posY := posY + g.dy;
      i := i + 1;
    }
    AllLaidOut(g, points);
  }

  // generate_points: the points, and what becomes of the zero reference position.
  method GeneratePoints(xCnt: nat, yCnt: nat, meshMin: Point, meshMax: Point, zeroRef: Option<Point>, isManual: bool)
    returns (r: Outcome<(Grid, seq<Point>, ZrefMode)>)
    requires xCnt >= 2 && yCnt >= 2
    ensures var dx, dy := Spacing(meshMin.x, meshMax.x, xCnt), Spacing(meshMin.y, meshMax.y, yCnt);
      && (r.Ok? <==> dx >= 1.0 && dy >= 1.0)
      && (r.Ok? ==> r.value.0 == Grid(xCnt, yCnt, meshMin, dx, dy) && IsZigZag(r.value.0, r.value.1))
    ensures r.Ok? ==> (r.value.2 == Disabled <==> zeroRef.None? || isManual)
    ensures r.Ok? && r.value.2 != Disabled ==> (r.value.2 == InMesh <==> Within(zeroRef.value, meshMin, meshMax))
  {
    var xDist := ToHundredth((meshMax.x - meshMin.x) / (xCnt - 1) as real);
    var yDist := ToHundredth((meshMax.y - meshMin.y) / (yCnt - 1) as real);
    if xDist < 1.0 || yDist < 1.0 {
      return Err("min/max points too close together");
    }
    var g := Grid(xCnt, yCnt, meshMin, xDist, yDist);
    var points := ZigZag(g, meshMin.x + xDist * (xCnt - 1) as real);
    var mode := Disabled;
    if zeroRef.Some? && !isManual {
      mode := if Within(zeroRef.value, meshMin, meshMax) then InMesh else Probe;
    }
    return Ok((g, points, mode));
  }

  // Every point lies between the first and the last row and column, so that the bounds that
  // probe_finalize takes from the points are those of the grid.
  lemma GridExtent(g: Grid, r: int, c: int)
    requires GridOk(g) && 0 <= r < g.rows && 0 <= c < g.cols
    ensures Within(Cell(g, r, c), Cell(g, 0, 0), Cell(g, g.rows - 1, g.cols - 1))
  {
    Scale(r as real, (g.rows - 1) as real, g.dy);
    Scale(c as real, (g.cols - 1) as real, g.dx);
  }

  /* ----- Substituted points ----- */

  // Each entry stands for at least one point, of an index below n.
  predicate SubstitutesOk(subs: map<nat, seq<Point>>, n: nat) {
    forall i :: i in subs ==> i < n && subs[i] != []
  }

  function Width(subs: map<nat, seq<Point>>, i: nat): nat { if i in subs then |subs[i]| else 1 }

  // Where base point i is on the path.
  function Offset(subs: map<nat, seq<Point>>, i: nat): nat {
    if i == 0 then 0 else Offset(subs, i - 1) + Width(subs, i - 1)
  }

  function Group(points: seq<Point>, subs: map<nat, seq<Point>>, i: nat): seq<Point>
    requires i < |points|
  {
    if i in subs then subs[i] else [points[i]]
  }

  // get_std_path for the first k base points.
  function PathOf(points: seq<Point>, subs: map<nat, seq<Point>>, k: nat): (path: seq<Point>)
    requires k <= |points|
    ensures |path| == Offset(subs, k)
  {
    if k == 0 then [] else PathOf(points, subs, k - 1) + Group(points, subs, k - 1)
  }

  lemma {:induction false} OffsetsGrow(subs: map<nat, seq<Point>>, i: nat, k: nat)
    requires i <= k
    ensures Offset(subs, i) <= Offset(subs, k)
  {
    if i < k {
      OffsetsGrow(subs, i, k - 1);
    }
  }

  lemma GroupWidth(points: seq<Point>, subs: map<nat, seq<Point>>, i: nat)
    requires i < |points|
    ensures |Group(points, subs, i)| == Width(subs, i)
  {
  }

  lemma SliceOfSum<T>(a: seq<T>, b: seq<T>, lo: nat, hi: nat)
    requires lo <= hi <= |a| + |b|
    ensures hi <= |a| ==> (a + b)[lo..hi] == a[lo..hi]
    ensures lo == |a| && hi == |a| + |b| ==> (a + b)[lo..hi] == b
  {
  }

  // The path visits for each base point in turn the point, or all that stand for it.
  lemma {:induction false} PathGroups(points: seq<Point>, subs: map<nat, seq<Point>>, k: nat, i: nat)
    requires i < k <= |points|
    ensures Offset(subs, i) <= Offset(subs, i + 1) <= Offset(subs, k)
    ensures PathOf(points, subs, k)[Offset(subs, i)..Offset(subs, i + 1)] == Group(points, subs, i)
  {
    hide Group, Width;
    GroupWidth(points, subs, i);
    OffsetsGrow(subs, i + 1, k);
    assert Offset(subs, i + 1) == Offset(subs, i) + Width(subs, i);
    assert PathOf(points, subs, k) == PathOf(points, subs, k - 1) + Group(points, subs, k - 1);
    SliceOfSum(PathOf(points, subs, k - 1), Group(points, subs, k - 1), Offset(subs, i), Offset(subs, i + 1));
    hide Offset, PathOf;
    if i + 1 < k {
      PathGroups(points, subs, k - 1, i);
    }
  }

  // get_std_path
  method GetStdPath(points: seq<Point>, subs: map<nat, seq<Point>>, mode: ZrefMode, zeroRef: Point)
    returns (path: seq<Point>)
    requires SubstitutesOk(subs, |points|)
    ensures path == PathOf(points, subs, |points|) + if mode == Probe then [zeroRef] else []
  {
    path := [];
    for i := 0 to |points|
      invariant path == PathOf(points, subs, i)
    {
      if i in subs {
        for k := 0 to |subs[i]|
          invariant path == PathOf(points, subs, i) + subs[i][..k]
        {
          path := path + [subs[i][k]];
        }
      } else {
        path := path + [points[i]];
      }
    }
    if mode == Probe {
      path := path + [zeroRef];
    }
  }

  function SumZ(ps: seq<Probed>): real { if ps == [] then 0.0 else SumZ(ps[..|ps| - 1]) + ps[|ps| - 1].z }

  function Mean(total: real, n: nat): real
    requires n > 0
  {
    total / n as real
  }

  lemma MeanIs(total: real, n: nat, m: real)
    requires n > 0
    ensures m == Mean(total, n) <==> m * n as real == total
  {
    var x := n as real;
    assert total / x * x == total;
    if m * x == total {
      SameQuotient(m, total / x, x);
    }
  }

  lemma SameQuotient(a: real, b: real, x: real)
    requires x > 0.0 && a * x == b * x
    ensures a == b
  {
    assert (a - b) * x == 0.0;
  }

  // A python slice.
  function Slice(s: seq<Probed>, lo: nat, hi: nat): (r: seq<Probed>)
    requires lo <= hi
    ensures |r| == IMin(hi, |s|) - IMin(lo, |s|)
  {
    s[IMin(lo, |s|)..IMin(hi, |s|)]
  }

  lemma SliceJoins(s: seq<Probed>, lo: nat, mid: nat, hi: nat)
    requires lo <= mid <= hi
    ensures Slice(s, lo, hi) == Slice(s, lo, mid) + Slice(s, mid, hi) && Slice(s, lo, lo) == []
  {
  }

  // The mean that is taken for base point i; the results may be too few for it.
  function GroupMean(positions: seq<Probed>, subs: map<nat, seq<Point>>, n: nat, i: nat): real
    requires SubstitutesOk(subs, n) && i in subs
  {
    Mean(SumZ(Slice(positions, Offset(subs, i), Offset(subs, i) + |subs[i]|)), |subs[i]|)
  }

  // The value of base point i: as probed, or the mean of what was probed in its place.
  function BaseValue(positions: seq<Probed>, subs: map<nat, seq<Point>>, n: nat, i: nat): real
    requires SubstitutesOk(subs, n) && (i in subs || Offset(subs, i) < |positions|)
  {
    if i in subs then GroupMean(positions, subs, n, i) else positions[Offset(subs, i)].z
  }

  function Heights(ps: seq<Probed>): (zs: seq<real>)
    ensures |zs| == |ps|
  {
    seq(|ps|, i requires 0 <= i < |ps| => ps[i].z)
  }

  // The corrected heights up to base point k.
  function Collapsed(positions: seq<Probed>, subs: map<nat, seq<Point>>, n: nat, k: nat): seq<real>
    requires SubstitutesOk(subs, n)
  {
    if k == 0 then []
    else
      Collapsed(positions, subs, n, k - 1) + CollapsedAt(positions, subs, n, k - 1)
  }

  // What stands for base point i: a mean, or its own result unless that is missing.
  function CollapsedAt(positions: seq<Probed>, subs: map<nat, seq<Point>>, n: nat, i: nat): seq<real>
    requires SubstitutesOk(subs, n)
  {
    if i in subs then [GroupMean(positions, subs, n, i)]
    else Heights(Slice(positions, Offset(subs, i), Offset(subs, i) + 1))
  }

  lemma CollapsedAtIs(positions: seq<Probed>, subs: map<nat, seq<Point>>, n: nat, i: nat)
    requires SubstitutesOk(subs, n)
    ensures if i in subs || Offset(subs, i) < |positions| then
              CollapsedAt(positions, subs, n, i) == [BaseValue(positions, subs, n, i)]
            else CollapsedAt(positions, subs, n, i) == []
  {
    hide GroupMean, Offset;
  }

  // No point that was not substituted is missing.
  ghost predicate NoneMissing(subs: map<nat, seq<Point>>, k: nat, length: nat) {
    forall i: nat :: i < k && i !in subs ==> Offset(subs, i) < length
  }

  // The lists of results that pass for complete: none of the points as generated is missing, though
  // results of substituted points at the end of the path may be.
  ghost predicate Accepted(subs: map<nat, seq<Point>>, n: nat, length: nat) {
    length <= Offset(subs, n) && NoneMissing(subs, n, length)
  }

  // There is one corrected height for every base point exactly when no generated point is missing.
  lemma {:induction false} CollapsedIs(positions: seq<Probed>, subs: map<nat, seq<Point>>, n: nat, k: nat)
    requires SubstitutesOk(subs, n)
    ensures |Collapsed(positions, subs, n, k)| <= k
    ensures |Collapsed(positions, subs, n, k)| == k <==> NoneMissing(subs, k, |positions|)
    ensures NoneMissing(subs, k, |positions|) ==>
      forall i: nat :: i < k ==> Collapsed(positions, subs, n, k)[i] == BaseValue(positions, subs, n, i)
  {
    hide BaseValue, Offset, CollapsedAt;
    if k > 0 {
      CollapsedIs(positions, subs, n, k - 1);
      CollapsedAtIs(positions, subs, n, k - 1);
    }
  }

  lemma CollapsedNext(positions: seq<Probed>, subs: map<nat, seq<Point>>, n: nat, i: nat)
    requires SubstitutesOk(subs, n)
    ensures Offset(subs, i + 1) == Offset(subs, i) + Width(subs, i)
    ensures Collapsed(positions, subs, n, i + 1)
      == Collapsed(positions, subs, n, i) + CollapsedAt(positions, subs, n, i)
  {
  }

  // A list that is too short passes only when the last point was substituted, whose mean then counts
  // the missing results as 0.
  lemma ShortLastGroup(positions: seq<Probed>, subs: map<nat, seq<Point>>, n: nat)
    requires SubstitutesOk(subs, n) && Accepted(subs, n, |positions|) && |positions| < Offset(subs, n)
    ensures n > 0 && n - 1 in subs
    ensures var lo := IMin(Offset(subs, n - 1), |positions|);
      && |positions[lo..]| < |subs[n-1]|
      && BaseValue(positions, subs, n, n - 1) == Mean(SumZ(positions[lo..]), |subs[n-1]|)
  {
    CollapsedNext(positions, subs, n, n - 1);
    var lo := IMin(Offset(subs, n - 1), |positions|);
    assert positions[lo..] == Slice(positions, Offset(subs, n - 1), Offset(subs, n));
  }

  method SumOfZ(ps: seq<Probed>) returns (s: real)
    ensures s == SumZ(ps)
  {
    s := 0.0;
    for i := 0 to |ps|
      invariant s == SumZ(ps[..i])
    {
      assert ps[..i+1][..i] == ps[..i];
      s := s + ps[i].z;
    }
    assert ps[..|ps|] == ps;
  }

  // The part of probe_finalize that undoes the substitution, for a list of results of any length.
  method CollapseSubstitutes(positions: seq<Probed>, points: seq<Point>, subs: map<nat, seq<Point>>, offset: Point)
    returns (out: seq<Probed>)
    requires SubstitutesOk(subs, |points|)
    ensures |out| == |points| <==> Accepted(subs, |points|, |positions|)
    ensures |out| == |points| ==> forall i: nat :: i < |points| ==> out[i].z == BaseValue(positions, subs, |points|, i)
  {
    hide Offset, GroupMean, Mean, SumZ, Collapsed, NoneMissing, BaseValue, Heights, SubstitutesOk;
    out := [];
    var n := |points|;
    var idxOffset: int, startIdx: nat := 0, 0;
    NothingCollapsed(positions, subs, n);
    for i := 0 to n
      invariant startIdx <= Offset(subs, i) == i + idxOffset
      invariant Collapsed(positions, subs, n, i) == Heights(out + Slice(positions, startIdx, Offset(subs, i)))
    {
      if i in subs {
        var fpt := Point(points[i].x - offset.x, points[i].y - offset.y);
        var idx := i + idxOffset;
        GroupMeanIs(positions, subs, n, i);
        var avgZ := MeanOfZ(Slice(positions, idx, idx + |subs[i]|), |subs[i]|);
        var p := Probed(fpt.x, fpt.y, avgZ);
        SubstitutedStep(out, positions, subs, n, startIdx, i, p);
        out := out + Slice(positions, startIdx, idx);
        idxOffset := idxOffset + |subs[i]| - 1;
        startIdx := idx + |subs[i]|;
        out := out + [p];
      } else {
        PlainStep(out, positions, subs, n, startIdx, i);
      }
    }
    LastStep(out, positions, subs, n, startIdx);
    out := out + if startIdx <= |positions| then positions[startIdx..] else [];
  }

  // A point that was not substituted joins those still to be copied.
  lemma PlainStep(out: seq<Probed>, positions: seq<Probed>, subs: map<nat, seq<Point>>, n: nat, start: nat, i: nat)
    requires SubstitutesOk(subs, n) && start <= Offset(subs, i) && i !in subs
    requires Collapsed(positions, subs, n, i) == Heights(out + Slice(positions, start, Offset(subs, i)))
    ensures Offset(subs, i + 1) == Offset(subs, i) + 1
    ensures Collapsed(positions, subs, n, i + 1) == Heights(out + Slice(positions, start, Offset(subs, i + 1)))
  {
    hide Offset, Collapsed, Slice;
    var o := Offset(subs, i);
    CollapsedNext(positions, subs, n, i);
    SliceJoins(positions, start, o, o + 1);
    HeightsAppend(out + Slice(positions, start, o), Slice(positions, o, o + 1));
    assert out + Slice(positions, start, o + 1) == out + Slice(positions, start, o) + Slice(positions, o, o + 1);
  }

  // A mean follows what was copied.
  lemma SubstitutedStep(out: seq<Probed>, positions: seq<Probed>, subs: map<nat, seq<Point>>, n: nat, start: nat,
                        i: nat, p: Probed)
    requires SubstitutesOk(subs, n) && start <= Offset(subs, i) && i in subs && p.z == GroupMean(positions, subs, n, i)
    requires Collapsed(positions, subs, n, i) == Heights(out + Slice(positions, start, Offset(subs, i)))
    ensures Offset(subs, i + 1) == Offset(subs, i) + |subs[i]|
    ensures var o := Offset(subs, i + 1);
      Collapsed(positions, subs, n, i + 1)
        == Heights(out + Slice(positions, start, Offset(subs, i)) + [p] + Slice(positions, o, o))
  {
    hide Offset, Collapsed, Slice, GroupMean;
    var o := Offset(subs, i + 1);
    CollapsedNext(positions, subs, n, i);
    SliceJoins(positions, o, o, o);
    var longer := out + Slice(positions, start, Offset(subs, i)) + [p];
    HeightsAppend(out + Slice(positions, start, Offset(subs, i)), [p]);
    assert longer + Slice(positions, o, o) == longer && Heights([p]) == [p.z];
  }

  // The rest of the results is copied, even beyond the path.
  lemma LastStep(out: seq<Probed>, positions: seq<Probed>, subs: map<nat, seq<Point>>, n: nat, start: nat)
    requires SubstitutesOk(subs, n) && start <= Offset(subs, n)
    requires Collapsed(positions, subs, n, n) == Heights(out + Slice(positions, start, Offset(subs, n)))
    ensures var all := out + if start <= |positions| then positions[start..] else [];
      && (|all| == n <==> Accepted(subs, n, |positions|))
      && (|all| == n ==> forall i: nat :: i < n ==> all[i].z == BaseValue(positions, subs, n, i))
  {
    hide Offset, Collapsed, BaseValue, NoneMissing;
    var most := out + Slice(positions, start, Offset(subs, n));
    var all := out + if start <= |positions| then positions[start..] else [];
    CollapsedIs(positions, subs, n, n);
    assert |Heights(most)| == |most|;
    if |positions| > Offset(subs, n) {
      AllReached(subs, n, |positions|);
    } else {
      assert all == most;
      assert forall i: nat :: i < |most| ==> Heights(most)[i] == most[i].z;
    }
  }

  lemma NothingCollapsed(positions: seq<Probed>, subs: map<nat, seq<Point>>, n: nat)
    requires SubstitutesOk(subs, n)
    ensures Offset(subs, 0) == 0 && Collapsed(positions, subs, n, 0) == Heights([] + Slice(positions, 0, 0))
  {
  }

  lemma GroupMeanIs(positions: seq<Probed>, subs: map<nat, seq<Point>>, n: nat, i: nat)
    requires SubstitutesOk(subs, n) && i in subs
    ensures |subs[i]| > 0
    ensures GroupMean(positions, subs, n, i)
      == Mean(SumZ(Slice(positions, Offset(subs, i), Offset(subs, i) + |subs[i]|)), |subs[i]|)
  {
  }

  lemma HeightsAppend(a: seq<Probed>, b: seq<Probed>)
    ensures Heights(a + b) == Heights(a) + Heights(b)
  {
  }

  // A list that goes beyond the path misses nothing.
  lemma AllReached(subs: map<nat, seq<Point>>, n: nat, length: nat)
    requires Offset(subs, n) < length
    ensures NoneMissing(subs, n, length)
  {
    forall i: nat | i < n ensures Offset(subs, i) < length {
      OffsetsGrow(subs, i, n);
    }
  }

  method MeanOfZ(ps: seq<Probed>, n: nat) returns (z: real)
    requires n > 0
    ensures z == Mean(SumZ(ps), n)
  {
    var total := SumOfZ(ps);
    z := Mean(total, n);
  }

  /* ----- Rebuilding the matrix ----- */

  // Points next to each other on the path through row r.
  lemma SameRow(g: Grid, r: int, j: int)
    requires GridOk(g)
    ensures var p, q := Cell(g, r, ColumnOf(g, r, j)), Cell(g, r, ColumnOf(g, r, j + 1));
      IsClose(q.y, p.y, 0.1) && (q.x > p.x <==> r % 2 == 0)
  {
    var a := ColumnOf(g, r, j);
    assert (a + 1) as real * g.dx == a as real * g.dx + g.dx;
    assert (a - 1) as real * g.dx == a as real * g.dx - g.dx;
  }

  lemma RowBetween(g: Grid, r: int)
    requires GridOk(g) && 0 <= r < g.rows
    ensures RowY(g, 0) <= RowY(g, r) <= RowY(g, g.rows - 1) && RowY(g, r + 1) == RowY(g, r) + g.dy
  {
    Scale(r as real, (g.rows - 1) as real, g.dy);
    assert (r + 1) as real * g.dy == r as real * g.dy + g.dy;
  }

  // The last point of a row and the first of the next.
  lemma NextRow(g: Grid, r: int)
    requires GridOk(g) && RowsApart(g) && 0 <= r < r + 1 < g.rows
    ensures var p, q := Cell(g, r, ColumnOf(g, r, g.cols - 1)), Cell(g, r + 1, ColumnOf(g, r + 1, 0));
      !IsClose(q.y, p.y, 0.1) && q.x == p.x
  {
    hide RowY, ColumnOf, IsClose;
    Corner(g, r);
    RowBetween(g, r);
    RowBetween(g, r + 1);
    NotClose(RowY(g, r), RowY(g, r + 1));
  }

  lemma NotClose(a: real, b: real)
    requires b - a >= 1.0 && Abs(a) < 1000000000.0 && Abs(b) < 1000000000.0
    ensures !IsClose(b, a, 0.1)
  {
  }

  // The first j values of row r in the order of the columns.
  ghost predicate IsRow(g: Grid, zs: seq<real>, r: int, j: int, row: seq<real>) {
    && |row| == j
    && forall c :: 0 <= c < j ==> RowValue(g, zs, r, if r % 2 == 0 then c else j - 1 - c, row[c])
  }

  predicate RowValue(g: Grid, zs: seq<real>, r: int, j: int, z: real) {
    0 <= Index(g, r, j) < |zs| && zs[Index(g, r, j)] == z
  }

  lemma RowGrows(g: Grid, zs: seq<real>, r: int, j: int, row: seq<real>, z: real)
    requires IsRow(g, zs, r, j, row) && RowValue(g, zs, r, j, z)
    ensures IsRow(g, zs, r, j + 1, if r % 2 == 0 then row + [z] else [z] + row)
    ensures j == 0 ==> [z] + row == [z] == row + [z]
  {
    hide RowValue;
    var longer := if r % 2 == 0 then row + [z] else [z] + row;
    forall c | 0 <= c < j + 1 ensures RowValue(g, zs, r, if r % 2 == 0 then c else j + 1 - 1 - c, longer[c]) {
      if r % 2 == 0 {
        assert c < j ==> RowValue(g, zs, r, c, row[c]);
      } else {
        assert c > 0 ==> RowValue(g, zs, r, j - 1 - (c - 1), row[c-1]);
      }
    }
  }

  // All rows below r are complete.
  ghost predicate AreRows(g: Grid, zs: seq<real>, r: int, rows: seq<seq<real>>) {
    |rows| == r && forall q :: 0 <= q < r ==> IsRow(g, zs, q, g.cols, rows[q])
  }

  lemma RowDone(g: Grid, zs: seq<real>, r: int, rows: seq<seq<real>>, row: seq<real>)
    requires AreRows(g, zs, r, rows) && IsRow(g, zs, r, g.cols, row)
    ensures AreRows(g, zs, r + 1, rows + [row]) && IsRow(g, zs, r + 1, 0, [])
  {
    hide RowValue;
  }

  lemma NoRows(g: Grid, zs: seq<real>)
    ensures AreRows(g, zs, 0, []) && IsRow(g, zs, 0, 0, [])
  {
  }

  // The position in the zig-zag: the next point is the j-th of row r, or the path has just left row r.
  ghost predicate AtPoint(g: Grid, k: int, r: int, j: int) {
    && k == Index(g, r, j) && 0 <= r < g.rows && 0 <= j <= g.cols
    && (j == 0 ==> r == 0)
  }

  // What the loop sees at point k: whether a new row begins, and in which direction it moves.
  lemma AtNext(g: Grid, points: seq<Point>, k: int, r: int, j: int, prev: Point)
    requires GridOk(g) && RowsApart(g) && IsZigZag(g, points) && AtPoint(g, k, r, j) && 0 <= k < |points|
    requires prev == if k == 0 then points[0] else points[k-1]
    ensures IsClose(points[k].y, prev.y, 0.1) <==> j < g.cols
    ensures j < g.cols ==> AtPoint(g, k + 1, r, j + 1)
    ensures j == g.cols ==> r + 1 < g.rows && AtPoint(g, k + 1, r + 1, 1) && k == Index(g, r + 1, 0)
    ensures 0 < j < g.cols ==> (points[k].x > prev.x <==> r % 2 == 0)
    ensures j == 0 || j == g.cols ==> points[k].x == prev.x
  {
    IndexNext(g, r, j);
    IndexNext(g, r, j - 1);
    IndexNext(g, r + 1, 0);
    hide Cell, ColumnOf, RowsApart;
    if j < g.cols {
      assert PointAt(g, points, r, j);
      if j == 0 {
        assert k == 0;
      } else {
        assert PointAt(g, points, r, j - 1);
        SameRow(g, r, j - 1);
      }
    } else {
      assert r + 1 == g.rows ==> k == |points|;
      if r + 1 < g.rows {
        assert PointAt(g, points, r, g.cols - 1) && PointAt(g, points, r + 1, 0);
        NextRow(g, r);
      }
    }
  }

  // The heights above a reference.
  function Relative(positions: seq<Probed>, zOffset: real): (zs: seq<real>)
    ensures |zs| == |positions|
  {
    seq(|positions|, i requires 0 <= i < |positions| => positions[i].z - zOffset)
  }

  // The loop of probe_finalize that rebuilds the matrix.
  method RebuildMatrix(ghost g: Grid, points: seq<Point>, positions: seq<Probed>, zOffset: real)
    returns (matrix: seq<seq<real>>)
    requires GridOk(g) && RowsApart(g) && IsZigZag(g, points) && |positions| == |points|
    ensures AreRows(g, Relative(positions, zOffset), g.rows, matrix)
  {
    ghost var zs := Relative(positions, zOffset);
    assert Index(g, 0, 0) == 0 && |points| > 0 by {
      IndexBound(g, 0, 0);
    }
    ghost var r, j := 0, 0;
    matrix := [];
    var row: seq<real> := [];
    var prev := points[0];
    NoRows(g, zs);
    hide Index, GridOk, RowsApart, IsZigZag, IsClose, AreRows, IsRow, RowValue;
    for k := 0 to |points|
      invariant AtPoint(g, k, r, j) && prev == if k == 0 then points[0] else points[k-1]
      invariant AreRows(g, zs, r, matrix) && IsRow(g, zs, r, j, row)
    {
      var pos, z := points[k], positions[k].z - zOffset;
      assert z == zs[k];
      AtNext(g, points, k, r, j, prev);
      if !IsClose(pos.y, prev.y, 0.1) {
        RowDone(g, zs, r, matrix, row);
        matrix := matrix + [row];
        row := [];
        r, j := r + 1, 0;
      }
      RowGrows(g, zs, r, j, row, z);
      row := if pos.x > prev.x then row + [z] else [z] + row;
      prev := pos;
      j := j + 1;
    }
    LastPoint(g, points, r, j);
    RowDone(g, zs, r, matrix, row);
    matrix := matrix + [row];
  }

  lemma LastPoint(g: Grid, points: seq<Point>, r: int, j: int)
    requires GridOk(g) && IsZigZag(g, points) && AtPoint(g, |points|, r, j)
    ensures r + 1 == g.rows && j == g.cols
  {
    if j < g.cols {
      IndexBound(g, r, j);
    } else if r + 1 < g.rows {
      IndexNext(g, r, j);
      IndexBound(g, r + 1, 0);
    }
  }

  /* ----- The mesh ----- */

  // Row r, column c of the matrix holds the value of the base point at that place of the mesh.
  ghost predicate CellIs(g: Grid, points: seq<Point>, subs: map<nat, seq<Point>>, positions: seq<Probed>, zRef: real,
                         matrix: seq<seq<real>>, r: int, c: int)
    requires SubstitutesOk(subs, |points|) && Accepted(subs, |points|, |positions|)
  {
    var i := Index(g, r, ColumnOf(g, r, c));
    && 0 <= r < |matrix| && 0 <= c < |matrix[r]| && 0 <= i < |points|
    && points[i] == Cell(g, r, c) && matrix[r][c] == BaseValue(positions, subs, |points|, i) - zRef
  }

  ghost predicate IsMesh(g: Grid, points: seq<Point>, subs: map<nat, seq<Point>>, positions: seq<Probed>, zRef: real,
                         matrix: seq<seq<real>>)
    requires SubstitutesOk(subs, |points|) && Accepted(subs, |points|, |positions|)
  {
    && |matrix| == g.rows && (forall r :: 0 <= r < g.rows ==> |matrix[r]| == g.cols)
    && forall r, c :: 0 <= r < g.rows && 0 <= c < g.cols ==> CellIs(g, points, subs, positions, zRef, matrix, r, c)
  }

  lemma RowsAreMesh(g: Grid, points: seq<Point>, subs: map<nat, seq<Point>>, positions: seq<Probed>, zRef: real,
                    out: seq<Probed>, matrix: seq<seq<real>>)
    requires IsZigZag(g, points) && SubstitutesOk(subs, |points|) && Accepted(subs, |points|, |positions|)
    requires |out| == |points| && forall i: nat :: i < |points| ==> out[i].z == BaseValue(positions, subs, |points|, i)
    requires AreRows(g, Relative(out, zRef), g.rows, matrix)
    ensures IsMesh(g, points, subs, positions, zRef, matrix)
  {
    hide Index, Cell, BaseValue, Offset;
    var zs := Relative(out, zRef);
    forall r, c | 0 <= r < g.rows && 0 <= c < g.cols ensures CellIs(g, points, subs, positions, zRef, matrix, r, c) {
      var j := ColumnOf(g, r, c);
      assert ColumnOf(g, r, j) == c && 0 <= j < g.cols;
      assert PointAt(g, points, r, j);
      assert IsRow(g, zs, r, g.cols, matrix[r]);
      assert RowValue(g, zs, r, j, matrix[r][c]);
    }
  }

  lemma {:induction false} NoSubstitutes(subs: map<nat, seq<Point>>, k: nat)
    requires subs == map[]
    ensures Offset(subs, k) == k
  {
    if k > 0 {
      NoSubstitutes(subs, k - 1);
    }
  }

  // A mesh of three by three points, the last of them faulty and replaced by two.
  const SMALL := Grid(3, 3, Point(0.0, 0.0), 10.0, 10.0)
  const LAST_TWICE := map[8 := [Point(19.0, 20.0), Point(20.0, 19.0)]]

  function SmallPoints(): (points: seq<Point>)
    ensures |points| == 9
  {
    seq(9, k requires 0 <= k < 9 => Cell(SMALL, k / 3, ColumnOf(SMALL, k / 3, k % 3)))
  }

  lemma SmallIsZigZag()
    ensures GridOk(SMALL) && RowsApart(SMALL) && IsZigZag(SMALL, SmallPoints())
  {
    hide Cell;
    forall r, j | 0 <= r < 3 && 0 <= j < 3 ensures PointAt(SMALL, SmallPoints(), r, j) {
      assert Index(SMALL, r, j) / 3 == r && Index(SMALL, r, j) % 3 == j;
    }
  }

  function Level(n: nat): (probed: seq<Probed>)
    ensures |probed| == n && forall k :: 0 <= k < n ==> probed[k].z == 1.0
  {
    seq(n, _ => Probed(0.0, 0.0, 1.0))
  }

  lemma {:induction false} OffsetsOfLast(i: nat)
    requires i <= 8
    ensures Offset(LAST_TWICE, i) == i
    ensures i == 8 ==> Offset(LAST_TWICE, 9) == 10
  {
    if i > 0 {
      OffsetsOfLast(i - 1);
    }
  }

  lemma ShortValues(i: nat)
    requires i <= 8
    ensures SubstitutesOk(LAST_TWICE, 9) && Offset(LAST_TWICE, i) == i
    ensures BaseValue(Level(9), LAST_TWICE, 9, i) == if i == 8 then 0.5 else 1.0
  {
    OffsetsOfLast(i);
    hide Offset;
    if i == 8 {
      var last := Slice(Level(9), 8, 10);
      assert |last| == 1 && last[0].z == 1.0 && last[..0] == [];
      assert SumZ(last) == 1.0;
    }
  }

  // On a level bed of height 1 a list with one of the ten results missing is accepted for this mesh,
  // and gives a matrix that is 0.5 in its last corner.
  lemma ShortMeshIsWrong(matrix: seq<seq<real>>)
    ensures GridOk(SMALL) && RowsApart(SMALL) && IsZigZag(SMALL, SmallPoints())
    ensures SubstitutesOk(LAST_TWICE, 9) && Accepted(LAST_TWICE, 9, |Level(9)|) && Offset(LAST_TWICE, 9) == 10
    ensures IsMesh(SMALL, SmallPoints(), LAST_TWICE, Level(9), 0.0, matrix) ==>
      && |matrix| == 3 && (forall r :: 0 <= r < 3 ==> |matrix[r]| == 3)
      && forall r, c :: 0 <= r < 3 && 0 <= c < 3 ==> matrix[r][c] == if r == 2 && c == 2 then 0.5 else 1.0
  {
    SmallIsZigZag();
    OffsetsOfLast(8);
    forall i: nat | i < 9 ensures i !in LAST_TWICE ==> Offset(LAST_TWICE, i) < 9 {
      OffsetsOfLast(i);
    }
    hide Offset, BaseValue, Cell, IsZigZag, Accepted;
    if IsMesh(SMALL, SmallPoints(), LAST_TWICE, Level(9), 0.0, matrix) {
      forall r, c | 0 <= r < 3 && 0 <= c < 3 ensures matrix[r][c] == if r == 2 && c == 2 then 0.5 else 1.0 {
        ShortCell(matrix, r, c);
      }
    }
  }

  lemma ShortCell(matrix: seq<seq<real>>, r: int, c: int)
    requires SubstitutesOk(LAST_TWICE, 9) && Accepted(LAST_TWICE, 9, 9) && 0 <= r < 3 && 0 <= c < 3
    requires IsMesh(SMALL, SmallPoints(), LAST_TWICE, Level(9), 0.0, matrix)
    ensures matrix[r][c] == if r == 2 && c == 2 then 0.5 else 1.0
  {
    hide Offset, BaseValue, Cell, SmallPoints, Level, Accepted, SubstitutesOk;
    assert CellIs(SMALL, SmallPoints(), LAST_TWICE, Level(9), 0.0, matrix, r, c);
    var i := Index(SMALL, r, ColumnOf(SMALL, r, c));
    assert i == 8 <==> r == 2 && c == 2;
    ShortValues(i);
  }

  // The results for the base points: without that of the zero reference, when it was probed.
  function ForPoints(probed: seq<Probed>, mode: ZrefMode): seq<Probed> {
    if mode == Probe && probed != [] then probed[..|probed| - 1] else probed
  }

  // probe_finalize up to the mesh that is built from the matrix, for a list of results of any length.
  method ProbeFinalize(ghost g: Grid, points: seq<Point>, subs: map<nat, seq<Point>>, mode: ZrefMode, offset: Point,
                       zOffset: real, probed: seq<Probed>, xCnt: nat, yCnt: nat)
    returns (res: Outcome<seq<seq<real>>>)
    requires GridOk(g) && RowsApart(g) && IsZigZag(g, points) && SubstitutesOk(subs, |points|)
    ensures var positions := ForPoints(probed, mode);
      && (res.Ok? <==> (mode == Probe ==> probed != []) && Accepted(subs, |points|, |positions|)
                       && xCnt == g.cols && yCnt == g.rows)
      && (res.Ok? ==>
            IsMesh(g, points, subs, positions, if mode == Probe then probed[|probed| - 1].z else zOffset, res.value))
  {
    hide Index, Cell, BaseValue, Offset, AreRows, IsRow, IsZigZag, Relative, CellIs, SubstitutesOk, RowsApart, GridOk;
    var positions, zRef := probed, zOffset;
    if mode == Probe {
      if positions == [] {
        return Err("pop from empty list");
      }
      zRef := positions[|positions| - 1].z;
      positions := positions[..|positions| - 1];
    }
    var out := positions;
    if subs != map[] {
      out := CollapseSubstitutes(positions, points, subs, offset);
    } else {
      UncorrectedIs(positions, subs, |points|);
    }
    if |points| != |out| {
      return Err("invalid position list size");
    }
    var matrix := RebuildMatrix(g, points, out, zRef);
    RowsAreMesh(g, points, subs, positions, zRef, out, matrix);
    if |matrix| != yCnt {
      return Err("invalid y-axis table length");
    }
    HasRows(g);
    for r := 0 to |matrix|
      invariant r > 0 ==> xCnt == g.cols
    {
      if |matrix[r]| != xCnt {
        return Err("invalid x-axis table length");
      }
    }
    res := Ok(matrix);
  }

  lemma HasRows(g: Grid)
    requires GridOk(g)
    ensures g.rows > 0
  {
  }

  lemma UncorrectedIs(positions: seq<Probed>, subs: map<nat, seq<Point>>, n: nat)
    requires subs == map[]
    ensures Accepted(subs, n, |positions|) <==> |positions| == n
    ensures |positions| == n ==> forall i: nat :: i < n ==> positions[i].z == BaseValue(positions, subs, n, i)
  {
    forall i: nat | i <= n ensures Offset(subs, i) == i {
      NoSubstitutes(subs, i);
    }
  }

  lemma FullIsAccepted(subs: map<nat, seq<Point>>, n: nat)
    ensures Accepted(subs, n, Offset(subs, n))
  {
    forall i: nat | i < n && i !in subs ensures Offset(subs, i) < Offset(subs, n) {
      OffsetsGrow(subs, i + 1, n);
    }
  }

  function SumHeights(height: Point -> real, ps: seq<Point>): real {
    if ps == [] then 0.0 else SumHeights(height, ps[..|ps| - 1]) + height(ps[|ps| - 1])
  }

  lemma {:induction false} SameSum(height: Point -> real, ps: seq<Point>, probed: seq<Probed>)
    requires |ps| == |probed| && forall k :: 0 <= k < |ps| ==> probed[k].z == height(ps[k])
    ensures SumZ(probed) == SumHeights(height, ps)
  {
    if ps != [] {
      SameSum(height, ps[..|ps| - 1], probed[..|ps| - 1]);
    }
  }

  // Every result is the height at its point of the path.
  predicate Probes(points: seq<Point>, subs: map<nat, seq<Point>>, probed: seq<Probed>, height: Point -> real) {
    var path := PathOf(points, subs, |points|);
    |probed| == |path| && forall k :: 0 <= k < |path| ==> probed[k].z == height(path[k])
  }

  // What was probed for base point i is what the bed has at its points.
  lemma ProbedGroup(points: seq<Point>, subs: map<nat, seq<Point>>, probed: seq<Probed>, height: Point -> real, i: nat)
    requires i < |points| && Probes(points, subs, probed, height)
    ensures Offset(subs, i + 1) == Offset(subs, i) + |Group(points, subs, i)| <= |probed|
    ensures forall k :: 0 <= k < |Group(points, subs, i)| ==>
      probed[Offset(subs, i) + k].z == height(Group(points, subs, i)[k])
  {
    var path, lo := PathOf(points, subs, |points|), Offset(subs, i);
    PathGroups(points, subs, |points|, i);
    GroupWidth(points, subs, i);
    assert Offset(subs, i + 1) == lo + Width(subs, i);
    hide PathOf, Offset, Group, Width;
    forall k | 0 <= k < |Group(points, subs, i)| ensures probed[lo + k].z == height(Group(points, subs, i)[k]) {
      assert path[lo..lo + |Group(points, subs, i)|][k] == path[lo + k];
    }
  }

  lemma SubstitutedHeight(points: seq<Point>, subs: map<nat, seq<Point>>, probed: seq<Probed>, height: Point -> real,
                          i: nat)
    requires SubstitutesOk(subs, |points|) && i < |points| && i in subs && Probes(points, subs, probed, height)
    ensures GroupMean(probed, subs, |points|, i) == Mean(SumHeights(height, subs[i]), |subs[i]|)
  {
    ProbedGroup(points, subs, probed, height, i);
    hide Probes, Offset, Mean, SumHeights, SumZ;
    var lo := Offset(subs, i);
    var part := Slice(probed, lo, lo + |subs[i]|);
    assert forall k :: 0 <= k < |subs[i]| ==> part[k] == probed[lo + k];
    SameSum(height, subs[i], part);
  }

  // The height that belongs to a base point.
  function PointHeight(height: Point -> real, points: seq<Point>, subs: map<nat, seq<Point>>, i: nat): real
    requires SubstitutesOk(subs, |points|) && i < |points|
  {
    if i in subs then Mean(SumHeights(height, subs[i]), |subs[i]|) else height(points[i])
  }

  // Main theorem: when the bed has a height at every point and each point of the path is probed
  // there, the value of a base point is the height at that point; of a substituted point, the mean
  // of the heights at the points in its place.
  lemma ValueIsHeight(points: seq<Point>, subs: map<nat, seq<Point>>, probed: seq<Probed>, height: Point -> real,
                      i: nat)
    requires SubstitutesOk(subs, |points|) && i < |points| && Probes(points, subs, probed, height)
    ensures Accepted(subs, |points|, |probed|)
    ensures i !in subs ==> Offset(subs, i) < |probed|
    ensures BaseValue(probed, subs, |points|, i) == PointHeight(height, points, subs, i)
  {
    FullIsAccepted(subs, |points|);
    if i in subs {
      SubstitutedHeight(points, subs, probed, height, i);
    } else {
      ProbedGroup(points, subs, probed, height, i);
      hide Offset, Probes;
      assert Group(points, subs, i)[0] == points[i];
      assert probed[Offset(subs, i) + 0].z == height(points[i]);
    }
  }

  // Main theorem from the path to the matrix: when every point of the path, the zero reference included, is
  // probed on a bed with a height at each point, the results are accepted, and row r, column c of any
  // mesh that comes of them is the height that belongs there, above that of the zero reference if it was
  // probed.
  lemma MeshIsBed(g: Grid, points: seq<Point>, subs: map<nat, seq<Point>>, mode: ZrefMode, zeroRef: Point,
                  path: seq<Point>, probed: seq<Probed>, height: Point -> real)
    requires SubstitutesOk(subs, |points|)
    requires path == PathOf(points, subs, |points|) + if mode == Probe then [zeroRef] else []
    requires |probed| == |path| && forall k :: 0 <= k < |path| ==> probed[k].z == height(path[k])
    ensures Accepted(subs, |points|, |ForPoints(probed, mode)|)
    ensures mode == Probe ==> probed != [] && probed[|probed| - 1].z == height(zeroRef)
    ensures forall zRef, matrix, r, c ::
      IsMesh(g, points, subs, ForPoints(probed, mode), zRef, matrix) && 0 <= r < g.rows && 0 <= c < g.cols ==>
        MeshHeight(g, points, subs, height, zRef, matrix, r, c)
  {
    var positions := ForPoints(probed, mode);
    PathProbed(points, subs, mode, zeroRef, path, probed, height);
    ProbesAccepted(points, subs, positions, height);
    forall zRef, matrix, r, c
      | IsMesh(g, points, subs, positions, zRef, matrix) && 0 <= r < g.rows && 0 <= c < g.cols
      ensures MeshHeight(g, points, subs, height, zRef, matrix, r, c)
    {
      CellHeight(g, points, subs, positions, height, zRef, matrix, r, c);
    }
  }

  ghost predicate MeshHeight(g: Grid, points: seq<Point>, subs: map<nat, seq<Point>>, height: Point -> real, zRef: real,
                             matrix: seq<seq<real>>, r: int, c: int)
    requires SubstitutesOk(subs, |points|)
  {
    var i := Index(g, r, ColumnOf(g, r, c));
    && 0 <= r < |matrix| && 0 <= c < |matrix[r]| && 0 <= i < |points| && points[i] == Cell(g, r, c)
    && matrix[r][c] == PointHeight(height, points, subs, i) - zRef
  }

  lemma CellHeight(g: Grid, points: seq<Point>, subs: map<nat, seq<Point>>, positions: seq<Probed>,
                   height: Point -> real, zRef: real, matrix: seq<seq<real>>, r: int, c: int)
    requires SubstitutesOk(subs, |points|) && Probes(points, subs, positions, height)
    requires Accepted(subs, |points|, |positions|) && IsMesh(g, points, subs, positions, zRef, matrix)
    requires 0 <= r < g.rows && 0 <= c < g.cols
    ensures MeshHeight(g, points, subs, height, zRef, matrix, r, c)
  {
    hide Probes, Accepted, SubstitutesOk, Index, Cell, BaseValue, Mean, SumHeights;
    assert CellIs(g, points, subs, positions, zRef, matrix, r, c);
    ValueIsHeight(points, subs, positions, height, Index(g, r, ColumnOf(g, r, c)));
  }

  lemma PathProbed(points: seq<Point>, subs: map<nat, seq<Point>>, mode: ZrefMode, zeroRef: Point, path: seq<Point>,
                   probed: seq<Probed>, height: Point -> real)
    requires path == PathOf(points, subs, |points|) + if mode == Probe then [zeroRef] else []
    requires |probed| == |path| && forall k :: 0 <= k < |path| ==> probed[k].z == height(path[k])
    ensures Probes(points, subs, ForPoints(probed, mode), height)
    ensures mode == Probe ==> probed != [] && probed[|probed| - 1].z == height(zeroRef)
  {
    hide PathOf;
    var n := |PathOf(points, subs, |points|)|;
    assert mode == Probe ==> probed[n].z == height(path[n]);
    forall k | 0 <= k < n ensures ForPoints(probed, mode)[k].z == height(PathOf(points, subs, |points|)[k]) {
      assert path[k] == PathOf(points, subs, |points|)[k];
    }
  }

  lemma ProbesAccepted(points: seq<Point>, subs: map<nat, seq<Point>>, positions: seq<Probed>, height: Point -> real)
    requires SubstitutesOk(subs, |points|) && Probes(points, subs, positions, height)
    ensures Accepted(subs, |points|, |positions|)
  {
    hide Accepted;
    FullIsAccepted(subs, |points|);
  }
}
