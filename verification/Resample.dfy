/** Resampling a drawn path to equally spaced points: one pointer over the samples, one over the
    segments.  Lengths are exact reals; the distance is any function that is zero only between equal
    points. */
module Resample {

  datatype Point = Point(x: int, y: int)
  datatype Spot = Spot(x: real, y: real)

  type Distance = (Point, Point) -> real

  ghost predicate IsDistance(d: Distance) {
    forall a, b :: d(a, b) >= 0.0 && (d(a, b) == 0.0 <==> a == b)
  }

  // Rounds half away from zero, as math.Round.
  function Round(x: real): int {
    if x >= 0.0 then (x + 0.5).Floor else -((-x + 0.5).Floor)
  }

  // Never more than a half away, and a half only away from zero.
  lemma RoundIsNearest(x: real)
    ensures var off := Round(x) as real - x;
            && -0.5 <= off <= 0.5
            && (off == 0.5 ==> x > 0.0) && (off == -0.5 ==> x < 0.0)
  {
  }

  function Nearest(s: Spot): Point { Point(Round(s.x), Round(s.y)) }

  function Between(a: Point, b: Point, t: real): Spot {
    Spot(a.x as real + (b.x - a.x) as real * t, a.y as real + (b.y - a.y) as real * t)
  }

  // ----- Arc length -----

  // The length of the first k segments.
  function Along(points: seq<Point>, d: Distance, k: nat): real
    requires k < |points|
  {
    if k == 0 then 0.0 else Along(points, d, k - 1) + d(points[k - 1], points[k])
  }

  function PathLength(points: seq<Point>, d: Distance): real {
    if points == [] then 0.0 else Along(points, d, |points| - 1)
  }

  method PointPathLength(points: seq<Point>, d: Distance) returns (total: real)
    ensures total == PathLength(points, d)
  {
    total := 0.0;
    var i := 1;
    while i < |points|
      invariant 1 <= i
      invariant points != [] ==> i <= |points| && total == Along(points, d, i - 1)
      invariant points == [] ==> total == 0.0
    {
      total := total + d(points[i - 1], points[i]);
      i := i + 1;
    }
  }

  lemma {:induction false} AlongGrows(points: seq<Point>, d: Distance, j: nat, k: nat)
    requires IsDistance(d) && j <= k < |points|
    ensures 0.0 <= Along(points, d, j) <= Along(points, d, k)
    decreases k
  {
    if j < k { AlongGrows(points, d, j, k - 1); }
    else if 0 < j { AlongGrows(points, d, j - 1, k - 1); }
  }

  // No length between two points of the path: they are the same point.
  lemma {:induction false} NoLengthNoMove(points: seq<Point>, d: Distance, j: nat, k: nat)
    requires IsDistance(d) && j <= k < |points| && Along(points, d, j) == Along(points, d, k)
    ensures points[j] == points[k]
    decreases k
  {
    if j < k {
      AlongGrows(points, d, j, k - 1);
      NoLengthNoMove(points, d, j, k - 1);
    }
  }

  // ----- Places on the path -----

  function Part(len: real, t: real): real { len * t }

  // The spot a fraction t into segment k, the one that ends at point k.
  ghost predicate At(points: seq<Point>, d: Distance, k: nat, t: real, length: real) {
    && 1 <= k < |points| && 0.0 <= t <= 1.0
    && Along(points, d, k - 1) + Part(d(points[k - 1], points[k]), t) == length
  }

  lemma Product(a: real, b: real)
    requires a >= 0.0 && b >= 0.0
    ensures a * b >= 0.0 && (a * b == 0.0 <==> a == 0.0 || b == 0.0)
  {
  }

  lemma PartOfSegment(len: real, t: real)
    requires len >= 0.0 && 0.0 <= t <= 1.0
    ensures 0.0 <= Part(len, t) <= len
    ensures Part(len, t) == len ==> len == 0.0 || t == 1.0
    ensures Part(len, t) == 0.0 ==> len == 0.0 || t == 0.0
  {
    assert len * t + len * (1.0 - t) == len;
    Product(len, t);
    Product(len, 1.0 - t);
  }

  lemma SegmentEnds(points: seq<Point>, d: Distance, k: nat, t: real)
    requires IsDistance(d) && 1 <= k < |points| && 0.0 <= t <= 1.0
    ensures var a, b, part := points[k - 1], points[k], Part(d(points[k - 1], points[k]), t);
            && (part == 0.0 ==> Between(a, b, t) == Between(a, a, 0.0))
            && (part == d(a, b) ==> Between(a, b, t) == Between(b, b, 0.0))
  {
    PartOfSegment(d(points[k - 1], points[k]), t);
  }

  lemma SamePart(len: real, s: real, t: real)
    requires len != 0.0 && Part(len, s) == Part(len, t)
    ensures s == t
  {
    assert len * (s - t) == 0.0;
  }

  // The length along the path determines the place: it does not matter in which segment it is looked up.
  lemma LengthDeterminesPlace(points: seq<Point>, d: Distance, length: real, j: nat, s: real, k: nat, t: real)
    requires IsDistance(d) && At(points, d, j, s, length) && At(points, d, k, t, length) && j <= k
    ensures Between(points[j - 1], points[j], s) == Between(points[k - 1], points[k], t)
  {
    hide Between, Part;
    var len := d(points[j - 1], points[j]);
    var part, part' := Part(len, s), Part(d(points[k - 1], points[k]), t);
    PartOfSegment(len, s);
    PartOfSegment(d(points[k - 1], points[k]), t);
    if j == k && len != 0.0 {
      SamePart(len, s, t);
    } else {
      assert Along(points, d, j) == Along(points, d, j - 1) + len;
      if j < k {
        AlongGrows(points, d, j, k - 1);
        assert part == len && part' == 0.0 && Along(points, d, j) == Along(points, d, k - 1);
        NoLengthNoMove(points, d, j, k - 1);
      } else {
        assert part == 0.0 && part' == 0.0;
      }
      SegmentEnds(points, d, j, s);
      SegmentEnds(points, d, k, t);
    }
  }

  // ----- One sample, from scratch -----

  // The first segment, from k on, that reaches the length; the last one if none does.
  function Scan(points: seq<Point>, d: Distance, length: real, k: nat): (r: nat)
    requires 1 <= k < |points|
    ensures k <= r < |points|
    ensures forall j :: k <= j < r ==> Along(points, d, j) < length
    ensures r < |points| - 1 ==> Along(points, d, r) >= length
    decreases |points| - k
  {
    if k < |points| - 1 && Along(points, d, k) < length then Scan(points, d, length, k + 1) else k
  }

  function Fraction(points: seq<Point>, d: Distance, length: real, k: nat): real
    requires 1 <= k < |points|
  {
    var len := d(points[k - 1], points[k]);
    if len > 0.0 then (length - Along(points, d, k - 1)) / len else 0.0
  }

  function SampleAt(points: seq<Point>, d: Distance, length: real): Spot
    requires |points| >= 2
  {
    var k := Scan(points, d, length, 1);
    Between(points[k - 1], points[k], Fraction(points, d, length, k))
  }

  // Starting the scan later, but not past segments that reach the length, makes no difference.
  lemma {:induction false} ScanResumes(points: seq<Point>, d: Distance, length: real, k: nat, k': nat)
    requires 1 <= k <= k' < |points|
    requires forall j :: k <= j < k' ==> Along(points, d, j) < length
    ensures Scan(points, d, length, k) == Scan(points, d, length, k')
    decreases k' - k
  {
    if k < k' { ScanResumes(points, d, length, k + 1, k'); }
  }

  lemma QuotientBounds(num: real, den: real)
    requires den > 0.0 && 0.0 <= num <= den
    ensures 0.0 <= num / den <= 1.0 && den * (num / den) == num
  {
    assert den * (num / den) == num;
  }

  // The scan finds the place at the given length, by a fraction between 0 and 1.
  lemma ScanFindsPlace(points: seq<Point>, d: Distance, length: real)
    requires IsDistance(d) && |points| >= 2 && 0.0 <= length <= PathLength(points, d)
    ensures var k := Scan(points, d, length, 1); At(points, d, k, Fraction(points, d, length, k), length)
  {
    var k := Scan(points, d, length, 1);
    hide Scan;
    var len, before := d(points[k - 1], points[k]), Along(points, d, k - 1);
    assert Along(points, d, k) == before + len;
    assert k == 1 ==> before == 0.0;
    assert before <= length <= before + len;
    if len > 0.0 { QuotientBounds(length - before, len); }
  }

  // ----- The whole path -----

  function Target(total: real, i: nat, count: nat): real
    requires count >= 2
  {
    total * i as real / (count - 1) as real
  }

  lemma TargetsInRange(total: real, i: nat, count: nat)
    requires total >= 0.0 && i < count && count >= 2
    ensures 0.0 <= Target(total, i, count) <= total
    ensures i + 1 < count ==> Target(total, i, count) <= Target(total, i + 1, count)
    ensures i == 0 ==> Target(total, i, count) == 0.0
    ensures i == count - 1 ==> Target(total, i, count) == total
  {
    var den := (count - 1) as real;
    var share := i as real / den;
    QuotientBounds(i as real, den);
    assert Target(total, i, count) == total * share;
    PartOfSegment(total, share);
    if i + 1 < count {
      assert (i + 1) as real / den == share + 1.0 / den;
      assert 1.0 / den >= 0.0;
      assert Target(total, i + 1, count) == total * (share + 1.0 / den);
      assert total * (1.0 / den) >= 0.0;
    }
  }

  function Clamp(t: real): real {
    var low := if t < 1.0 then t else 1.0;
    if low > 0.0 then low else 0.0
  }

  lemma InRange(points: seq<Point>, d: Distance, k: nat, t: real, length: real)
    requires At(points, d, k, t, length)
    ensures Clamp(t) == t
  {
  }

  // The inner loop: move to the first segment that reaches the target.
  method Advance(points: seq<Point>, d: Distance, target: real, from: nat, before: real) returns (k: nat, start: real)
    requires 1 <= from < |points| && before == Along(points, d, from - 1)
    requires forall j :: 1 <= j < from ==> Along(points, d, j) < target
    ensures 1 <= k < |points| && start == Along(points, d, k - 1) && k == Scan(points, d, target, 1)
  {
    k, start := from, before;
    while k < |points| - 1
      invariant 1 <= k < |points| && start == Along(points, d, k - 1)
      invariant forall j :: 1 <= j < k ==> Along(points, d, j) < target
    {
      var len := d(points[k - 1], points[k]);
      if start + len >= target { break; }
      start, k := start + len, k + 1;
    }
    ScanResumes(points, d, target, 1, k);
  }

  // The two-pointer scan gives each sample the place a scan from scratch would give it.
  method Walk(points: seq<Point>, count: nat, d: Distance, total: real) returns (resampled: seq<Point>)
    requires IsDistance(d) && |points| >= 2 && count >= 2 && total == PathLength(points, d) >= 0.0
    ensures |resampled| == count
    ensures forall i :: 0 <= i < count ==> resampled[i] == Nearest(SampleAt(points, d, Target(total, i, count)))
  {
    hide Between, Round, At, IsDistance, Target, Scan;
    resampled := [];
    var k, start := 1, 0.0;
    for i := 0 to count
      invariant 1 <= k < |points| && start == Along(points, d, k - 1) && |resampled| == i
      invariant i < count ==> forall j :: 1 <= j < k ==> Along(points, d, j) < Target(total, i, count)
      invariant forall j :: 0 <= j < i ==> resampled[j] == Nearest(SampleAt(points, d, Target(total, j, count)))
    {
      var target := Target(total, i, count);
      k, start := Advance(points, d, target, k, start);
      TargetsInRange(total, i, count);
      ScanFindsPlace(points, d, target);
      var a, b := points[k - 1], points[k];
      var len := d(a, b);
      var t := if len > 0.0 then (target - start) / len else 0.0;
      InRange(points, d, k, t, target);
      var spot := Between(a, b, Clamp(t));
      resampled := resampled + [Point(Round(spot.x), Round(spot.y))];
    }
  }

  method ResamplePath(points: seq<Point>, count: int, d: Distance) returns (resampled: seq<Point>)
    requires IsDistance(d)
    ensures |resampled| == if count <= 0 then 0 else count
    ensures points == [] ==> forall i :: 0 <= i < count ==> resampled[i] == Point(0, 0)
    ensures points != [] && (PathLength(points, d) == 0.0 || count == 1) ==>
              forall i :: 0 <= i < count ==> resampled[i] == points[0]
    ensures PathLength(points, d) > 0.0 ==> |points| >= 2
    ensures count > 1 && PathLength(points, d) > 0.0 ==>
              forall i :: 0 <= i < count ==>
                resampled[i] == Nearest(SampleAt(points, d, Target(PathLength(points, d), i, count)))
  {
    hide Nearest, SampleAt, Target, IsDistance;
    if count <= 0 { return []; }
    if points == [] { return seq(count, i => Point(0, 0)); }
    if |points| == 1 { return seq(count, i => points[0]); }
    var total := PointPathLength(points, d);
    AlongGrows(points, d, 0, |points| - 1);
    if total == 0.0 { return seq(count, i => points[0]); }
    if count == 1 { return [points[0]]; }
    resampled := Walk(points, count, d, total);
  }

  // ----- What the samples are -----

  // Sample i lies at i/(count-1) of the length, wherever on the path that is.
  lemma SamplesAreEquallySpaced(points: seq<Point>, d: Distance, i: nat, count: nat, k: nat, t: real)
    requires IsDistance(d) && |points| >= 2 && i < count && count >= 2
    requires At(points, d, k, t, Target(PathLength(points, d), i, count))
    ensures SampleAt(points, d, Target(PathLength(points, d), i, count)) == Between(points[k - 1], points[k], t)
  {
    var target := Target(PathLength(points, d), i, count);
    AlongGrows(points, d, 0, |points| - 1);
    TargetsInRange(PathLength(points, d), i, count);
    ScanFindsPlace(points, d, target);
    var j := Scan(points, d, target, 1);
    if j <= k {
      LengthDeterminesPlace(points, d, target, j, Fraction(points, d, target, j), k, t);
    } else {
      LengthDeterminesPlace(points, d, target, k, t, j, Fraction(points, d, target, j));
    }
  }

  // The first and the last sample are the ends of the path.
  lemma EndsAreKept(points: seq<Point>, d: Distance, count: nat)
    requires IsDistance(d) && |points| >= 2 && count >= 2
    ensures var total, n := PathLength(points, d), |points|;
            && Nearest(SampleAt(points, d, Target(total, 0, count))) == points[0]
            && Nearest(SampleAt(points, d, Target(total, count - 1, count))) == points[n - 1]
  {
    var total, n := PathLength(points, d), |points|;
    AlongGrows(points, d, 0, n - 1);
    TargetsInRange(total, 0, count);
    TargetsInRange(total, count - 1, count);
    SamplesAreEquallySpaced(points, d, 0, count, 1, 0.0);
    SamplesAreEquallySpaced(points, d, count - 1, count, n - 1, 1.0);
  }


  // On a straight line the samples are evenly spaced from one end to the other.
  lemma StraightLineIsEven(a: Point, b: Point, d: Distance, i: nat, count: nat)
    requires IsDistance(d) && a != b && i < count && count >= 2
    ensures var share := i as real / (count - 1) as real;
            SampleAt([a, b], d, Target(PathLength([a, b], d), i, count))
            == Spot(a.x as real + (b.x - a.x) as real * share, a.y as real + (b.y - a.y) as real * share)
  {
    var share := i as real / (count - 1) as real;
    assert [a, b][0] == a && [a, b][1] == b;
    assert Along([a, b], d, 0) == 0.0 && Along([a, b], d, 1) == d(a, b);
    TargetIsShare(d(a, b), i, count);
    QuotientBounds(i as real, (count - 1) as real);
    assert PathLength([a, b], d) == d(a, b);
    assert At([a, b], d, 1, share, Target(PathLength([a, b], d), i, count)) by { hide Target, Part; }
    hide Target, Along, IsDistance, SampleAt, PathLength, Part, At;
    SamplesAreEquallySpaced([a, b], d, i, count, 1, share);
  }

  lemma TargetIsShare(total: real, i: nat, count: nat)
    requires count >= 2
    ensures Target(total, i, count) == Part(total, i as real / (count - 1) as real)
  {
  }
}
