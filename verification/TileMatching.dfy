/** Click answers on tiles (jigsaw swaps and image grids): each submitted point takes the first expected
    tile it lies in that no earlier point has taken. */
module TileMatching {
  import opened Text
  import opened Jigsaw
  import opened Tiles

  const CLICK_TOLERANCE := 28

  function Abs(v: int): int { if v < 0 then -v else v }

  // Without a tile size, a point counts within a fixed distance of the centre.
  predicate InTile(p: Point, center: Point, width: int, height: int) {
    var dx, dy := p.x - center.x, p.y - center.y;
    if width <= 0 || height <= 0 then dx * dx + dy * dy <= CLICK_TOLERANCE * CLICK_TOLERANCE
    else Abs(dx) <= width / 2 && Abs(dy) <= height / 2
  }

  // A way to assign the submitted points to the expected tiles, one each.
  ghost predicate Assigns(assignment: seq<int>, actual: seq<Point>, expected: seq<Point>, width: int, height: int) {
    && |actual| == |expected| && IsOrder(assignment, |expected|)
    && forall i :: 0 <= i < |actual| ==> InTile(actual[i], expected[assignment[i]], width, height)
  }

  // No submitted point lies in two of the expected tiles.
  ghost predicate Unambiguous(actual: seq<Point>, expected: seq<Point>, width: int, height: int) {
    forall i, j, k :: 0 <= i < |actual| && 0 <= j < k < |expected| ==>
      !(InTile(actual[i], expected[j], width, height) && InTile(actual[i], expected[k], width, height))
  }

  // The first free tile a point lies in, from tile k on.
  function FirstFree(p: Point, expected: seq<Point>, taken: seq<int>, k: nat, width: int, height: int): Option<nat>
    requires k <= |expected|
    decreases |expected| - k
  {
    if k == |expected| then None
    else if k !in taken && InTile(p, expected[k], width, height) then Some(k)
    else FirstFree(p, expected, taken, k + 1, width, height)
  }

  // The tiles taken by the first n points, if each finds one.
  function Taken(actual: seq<Point>, expected: seq<Point>, n: nat, width: int, height: int): Option<seq<int>>
    requires n <= |actual|
  {
    if n == 0 then Some([])
    else
      match Taken(actual, expected, n - 1, width, height)
      case None => None
      case Some(taken) =>
        match FirstFree(actual[n - 1], expected, taken, 0, width, height)
        case None => None
        case Some(k) => Some(taken + [k])
  }

  lemma {:induction false} FirstFreeIs(p: Point, expected: seq<Point>, taken: seq<int>, k: nat, width: int, height: int)
    requires k <= |expected|
    ensures var r := FirstFree(p, expected, taken, k, width, height);
            if r.Some? then
              && k <= r.value < |expected| && r.value !in taken && InTile(p, expected[r.value], width, height)
              && forall j :: k <= j < r.value ==> j in taken || !InTile(p, expected[j], width, height)
            else forall j :: k <= j < |expected| ==> j in taken || !InTile(p, expected[j], width, height)
    decreases |expected| - k
  {
    hide InTile;
    if k < |expected| && !(k !in taken && InTile(p, expected[k], width, height)) {
      FirstFreeIs(p, expected, taken, k + 1, width, height);
    }
  }

  // The loop over the submitted points, with its array of tiles already taken.
  method VerifySelection(actual: seq<Point>, expected: seq<Point>, width: int, height: int) returns (verdict: Verdict)
    ensures verdict == if |actual| != |expected| then AnswerMissing
                       else if Taken(actual, expected, |actual|, width, height).Some? then Ok
                       else AnswerMismatch
  {
    hide InTile;
    if |actual| != |expected| { return AnswerMissing; }
    var matched := new bool[|expected|](i => false);
    ghost var taken: seq<int> := [];
    for n := 0 to |actual|
      invariant Taken(actual, expected, n, width, height) == Some(taken)
      invariant forall j :: 0 <= j < |expected| ==> (matched[j] <==> j in taken)
    {
      var i, found := 0, false;
      while i < |expected| && !found
        invariant i <= |expected|
        invariant FirstFree(actual[n], expected, taken, 0, width, height)
                  == if found then Some(i) else FirstFree(actual[n], expected, taken, i, width, height)
        invariant found ==> i < |expected|
        decreases |expected| - i, !found
      {
        if !matched[i] && InTile(actual[n], expected[i], width, height) {
          found := true;
        } else {
          i := i + 1;
        }
      }
      if !found {
        TakenStops(actual, expected, n + 1, width, height);
        return AnswerMismatch;
      }
      matched[i] := true;
      taken := taken + [i];
    }
    return Ok;
  }

  // Once a point finds no tile, the rest does not matter.
  lemma TakenStops(actual: seq<Point>, expected: seq<Point>, n: nat, width: int, height: int)
    requires n <= |actual| && Taken(actual, expected, n, width, height).None?
    ensures Taken(actual, expected, |actual|, width, height).None?
    decreases |actual| - n
  {
    if n < |actual| { TakenStops(actual, expected, n + 1, width, height); }
  }

  // ----- Acceptance and assignments -----

  lemma {:induction false} TakenIsPartial(actual: seq<Point>, expected: seq<Point>, n: nat, width: int, height: int)
    requires n <= |actual| && Taken(actual, expected, n, width, height).Some?
    ensures var taken := Taken(actual, expected, n, width, height).value;
            && |taken| == n && InRange(taken, |expected|) && Distinct(taken)
            && forall i :: 0 <= i < n ==> InTile(actual[i], expected[taken[i]], width, height)
  {
    hide InTile, FirstFree;
    if n > 0 {
      TakenIsPartial(actual, expected, n - 1, width, height);
      FirstFreeIs(actual[n - 1], expected, Taken(actual, expected, n - 1, width, height).value, 0, width, height);
    }
  }

  // An accepted answer always pairs the points with the tiles, each point inside its own.
  lemma AcceptedIsAssignable(actual: seq<Point>, expected: seq<Point>, width: int, height: int)
    requires |actual| == |expected| && Taken(actual, expected, |actual|, width, height).Some?
    ensures exists assignment :: Assigns(assignment, actual, expected, width, height)
  {
    TakenIsPartial(actual, expected, |actual|, width, height);
    assert Assigns(Taken(actual, expected, |actual|, width, height).value, actual, expected, width, height);
  }

  lemma {:induction false} GreedyFollows(actual: seq<Point>, expected: seq<Point>, assignment: seq<int>, n: nat,
                                         width: int, height: int)
    requires Assigns(assignment, actual, expected, width, height) && Unambiguous(actual, expected, width, height)
    requires n <= |actual|
    ensures Taken(actual, expected, n, width, height) == Some(assignment[..n])
  {
    hide InTile, FirstFree;
    if n > 0 {
      GreedyFollows(actual, expected, assignment, n - 1, width, height);
      var taken, k := assignment[..n - 1], assignment[n - 1];
      assert InTile(actual[n - 1], expected[k], width, height);
      FirstFreeIs(actual[n - 1], expected, taken, 0, width, height);
      var r := FirstFree(actual[n - 1], expected, taken, 0, width, height);
      assert k !in taken;
      assert assignment[..n] == taken + [k];
    }
  }

  // When no point lies in two expected tiles, the greedy loop accepts exactly the answers that can be
  // assigned.
  lemma GreedyIsComplete(actual: seq<Point>, expected: seq<Point>, width: int, height: int)
    requires |actual| == |expected| && Unambiguous(actual, expected, width, height)
    ensures Taken(actual, expected, |actual|, width, height).Some?
            <==> exists assignment :: Assigns(assignment, actual, expected, width, height)
  {
    if Taken(actual, expected, |actual|, width, height).Some? {
      AcceptedIsAssignable(actual, expected, width, height);
    }
    if assignment :| Assigns(assignment, actual, expected, width, height) {
      GreedyFollows(actual, expected, assignment, |actual|, width, height);
    }
  }

  // Known before any click: no two tiles of the given size touch.
  ghost predicate TilesApart(expected: seq<Point>, width: int, height: int) {
    forall j, k :: 0 <= j < k < |expected| ==>
      Abs(expected[j].x - expected[k].x) > 2 * (width / 2) || Abs(expected[j].y - expected[k].y) > 2 * (height / 2)
  }

  lemma SharedPoint(a: Point, b: Point, width: int, height: int) returns (p: Point)
    requires width > 0 && height > 0
    requires Abs(a.x - b.x) <= 2 * (width / 2) && Abs(a.y - b.y) <= 2 * (height / 2)
    ensures InTile(p, a, width, height) && InTile(p, b, width, height)
  {
    p := Point((a.x + b.x) / 2, (a.y + b.y) / 2);
  }

  // Tiles with a size: every answer is unambiguous exactly when the tiles are apart.
  lemma ApartIsUnambiguous(expected: seq<Point>, width: int, height: int)
    requires width > 0 && height > 0
    ensures TilesApart(expected, width, height) <==> forall actual :: Unambiguous(actual, expected, width, height)
  {
    if !TilesApart(expected, width, height) {
      var j, k :| 0 <= j < k < |expected| && Abs(expected[j].x - expected[k].x) <= 2 * (width / 2)
                  && Abs(expected[j].y - expected[k].y) <= 2 * (height / 2);
      var p := SharedPoint(expected[j], expected[k], width, height);
      assert [p][0] == p && !Unambiguous([p], expected, width, height);
    }
  }

  // So for tiles apart, exactly the assignable answers are accepted, of any number of tiles.
  lemma GreedyIsCompleteApart(actual: seq<Point>, expected: seq<Point>, width: int, height: int)
    requires |actual| == |expected| && width > 0 && height > 0 && TilesApart(expected, width, height)
    ensures Taken(actual, expected, |actual|, width, height).Some?
            <==> exists assignment :: Assigns(assignment, actual, expected, width, height)
  {
    ApartIsUnambiguous(expected, width, height);
    GreedyIsComplete(actual, expected, width, height);
  }

  // A point of one tile outside another.
  lemma PointOutside(a: Point, b: Point, width: int, height: int) returns (p: Point)
    requires width > 0 && height > 0 && a != b
    ensures InTile(p, a, width, height) && !InTile(p, b, width, height)
  {
    if a.x < b.x {
      p := Point(a.x - width / 2, a.y);
    } else if a.x > b.x {
      p := Point(a.x + width / 2, a.y);
    } else if a.y < b.y {
      p := Point(a.x, a.y - height / 2);
    } else {
      p := Point(a.x, a.y + height / 2);
    }
  }

  // A point in every tile of the list up to n, outside tile k unless it is tile k's own.
  lemma {:induction false} PointsOutside(expected: seq<Point>, k: nat, n: nat, width: int, height: int)
    returns (points: seq<Point>)
    requires width > 0 && height > 0 && Distinct(expected) && k < |expected| && n <= |expected|
    ensures |points| == n
    ensures forall l :: 0 <= l < n ==> InTile(points[l], expected[l], width, height)
    ensures forall l :: 0 <= l < n && l != k ==> !InTile(points[l], expected[k], width, height)
  {
    hide InTile;
    if n == 0 { return []; }
    points := PointsOutside(expected, k, n - 1, width, height);
    var p: Point;
    if n - 1 == k {
      p := expected[k];
      CenterInTile(p, width, height);
    } else {
      p := PointOutside(expected[n - 1], expected[k], width, height);
    }
    points := points + [p];
  }

  lemma CenterInTile(p: Point, width: int, height: int)
    ensures InTile(p, p, width, height)
  {
  }

  // A point takes the lowest tile that holds it when it comes first.
  lemma LowestTile(p: Point, expected: seq<Point>, j: nat, width: int, height: int) returns (m: nat)
    requires j < |expected| && InTile(p, expected[j], width, height)
    ensures m <= j && InTile(p, expected[m], width, height)
    ensures FirstFree(p, expected, [], 0, width, height) == Some(m)
  {
    hide InTile;
    FirstFreeIs(p, expected, [], 0, width, height);
    m := FirstFree(p, expected, [], 0, width, height).value;
  }

  // An answer whose first point takes another tile than k, and no other point of which lies in k, is refused.
  lemma NobodyTakes(actual: seq<Point>, expected: seq<Point>, k: nat, width: int, height: int)
    requires |actual| == |expected| && k < |expected|
    requires FirstFree(actual[0], expected, [], 0, width, height) != Some(k)
    requires forall i :: 0 < i < |actual| ==> !InTile(actual[i], expected[k], width, height)
    ensures Taken(actual, expected, |actual|, width, height).None?
  {
    hide InTile;
    if Taken(actual, expected, |actual|, width, height).Some? {
      var taken := Taken(actual, expected, |actual|, width, height).value;
      TakenIsPartial(actual, expected, |actual|, width, height);
      FirstTaken(actual, expected, |actual|, width, height);
      EveryValueOccurs(taken, |expected|, k);
    }
  }

  lemma {:induction false} FirstTaken(actual: seq<Point>, expected: seq<Point>, n: nat, width: int, height: int)
    requires 0 < n <= |actual| && Taken(actual, expected, n, width, height).Some?
    ensures var taken := Taken(actual, expected, n, width, height).value;
            taken != [] && FirstFree(actual[0], expected, [], 0, width, height) == Some(taken[0])
  {
    hide FirstFree;
    if n > 1 { FirstTaken(actual, expected, n - 1, width, height); }
  }

  // An answer that can be assigned to the tiles and is refused.
  ghost predicate RefusedWrongly(actual: seq<Point>, expected: seq<Point>, width: int, height: int) {
    && |actual| == |expected| && Taken(actual, expected, |actual|, width, height).None?
    && exists assignment :: Assigns(assignment, actual, expected, width, height)
  }

  // Two tiles that touch, among any number: there is one.
  lemma TouchingTilesRefuse(expected: seq<Point>, width: int, height: int)
    requires width > 0 && height > 0 && Distinct(expected) && !TilesApart(expected, width, height)
    ensures exists actual :: RefusedWrongly(actual, expected, width, height)
  {
    var j, l :| 0 <= j < l < |expected| && Abs(expected[j].x - expected[l].x) <= 2 * (width / 2)
                && Abs(expected[j].y - expected[l].y) <= 2 * (height / 2);
    hide TilesApart, InTile, Abs;
    var p := SharedPoint(expected[j], expected[l], width, height);
    var m := LowestTile(p, expected, j, width, height);
    SharedFirst(p, expected, l, width, height);
    var actual, assignment :| FirstFor(actual, assignment, p, expected, l, width, height);
    NobodyTakes(actual, expected, l, width, height);
    assert RefusedWrongly(actual, expected, width, height);
  }

  // An assignable answer with the point p first and none of the other points in tile k.
  ghost predicate FirstFor(actual: seq<Point>, assignment: seq<int>, p: Point, expected: seq<Point>, k: nat,
                           width: int, height: int) {
    && k < |expected| == |actual| && actual[0] == p && Assigns(assignment, actual, expected, width, height)
    && forall i :: 0 < i < |actual| ==> !InTile(actual[i], expected[k], width, height)
  }

  // The point stands for tile k; the point of tile 0 comes where that of tile k would.
  lemma SharedFirst(p: Point, expected: seq<Point>, k: nat, width: int, height: int)
    requires width > 0 && height > 0 && Distinct(expected) && k < |expected| && InTile(p, expected[k], width, height)
    ensures exists actual, assignment :: FirstFor(actual, assignment, p, expected, k, width, height)
  {
    hide InTile;
    var n := |expected|;
    var own := PointsOutside(expected, k, n, width, height);
    var assignment := Swapped(n, 0, k);
    SwapIsItsOwnInverse(n, 0, k);
    var actual := seq(n, i requires 0 <= i < n => if i == 0 then p else own[assignment[i]]);
    assert FirstFor(actual, assignment, p, expected, k, width, height);
  }

  // For tiles of a given size, at different places, of any number: exactly the assignable answers are accepted
  // if and only if no two tiles touch.
  lemma GreedyIsCompleteExactly(expected: seq<Point>, width: int, height: int)
    requires width > 0 && height > 0 && Distinct(expected)
    ensures TilesApart(expected, width, height) <==>
              forall actual :: |actual| == |expected| ==>
                (Taken(actual, expected, |actual|, width, height).Some? <==>
                   exists assignment :: Assigns(assignment, actual, expected, width, height))
  {
    hide InTile, Assigns, Taken;
    if TilesApart(expected, width, height) {
      hide TilesApart;
      forall actual | |actual| == |expected|
        ensures Taken(actual, expected, |actual|, width, height).Some?
                <==> exists assignment :: Assigns(assignment, actual, expected, width, height)
      {
        GreedyIsCompleteApart(actual, expected, width, height);
      }
    } else {
      hide TilesApart;
      TouchingTilesRefuse(expected, width, height);
      var actual :| RefusedWrongly(actual, expected, width, height);
    }
  }

  lemma FirstFreeOfTwo(p: Point, expected: seq<Point>, taken: seq<int>, width: int, height: int)
    requires |expected| == 2
    ensures FirstFree(p, expected, taken, 0, width, height)
            == if 0 !in taken && InTile(p, expected[0], width, height) then Some(0)
               else if 1 !in taken && InTile(p, expected[1], width, height) then Some(1)
               else None
  {
    hide InTile;
    assert FirstFree(p, expected, taken, 2, width, height).None?;
  }

  // For the two tiles of a swap: an assignable answer is refused exactly when the first point lies in both
  // tiles and the second only in the tile the first has taken.
  lemma TwoTilesExactly(actual: seq<Point>, expected: seq<Point>, width: int, height: int)
    requires |actual| == |expected| == 2
    ensures var a, b := InTile(actual[0], expected[0], width, height), InTile(actual[0], expected[1], width, height);
            var c, d := InTile(actual[1], expected[0], width, height), InTile(actual[1], expected[1], width, height);
            Taken(actual, expected, 2, width, height).Some?
            <==> (exists assignment :: Assigns(assignment, actual, expected, width, height)) && !(a && b && c && !d)
  {
    hide InTile;
    var a, b := InTile(actual[0], expected[0], width, height), InTile(actual[0], expected[1], width, height);
    var c, d := InTile(actual[1], expected[0], width, height), InTile(actual[1], expected[1], width, height);
    var first := Taken(actual, expected, 1, width, height);
    assert Taken(actual, expected, 0, width, height) == Some([]);
    FirstFreeOfTwo(actual[0], expected, [], width, height);
    assert first == if a then Some([] + [0]) else if b then Some([] + [1]) else None;
    if first.Some? {
      FirstFreeOfTwo(actual[1], expected, first.value, width, height);
      assert Taken(actual, expected, 2, width, height).Some? <==> if a then d else c;
    }
    if a && d { assert Assigns([0, 1], actual, expected, width, height); }
    if b && c { assert Assigns([1, 0], actual, expected, width, height); }
    if assignment :| Assigns(assignment, actual, expected, width, height) {
      assert assignment[0] != assignment[1];
    }
  }

  // A point on the border two neighbouring tiles share: the order of the clicks decides.
  lemma BorderClickIsRefused()
    ensures var expected, actual := [Point(50, 50), Point(150, 50)], [Point(100, 50), Point(50, 50)];
            && Taken(actual, expected, 2, 100, 100).None?
            && Assigns([1, 0], actual, expected, 100, 100)
            && Taken([actual[1], actual[0]], expected, 2, 100, 100).Some?
  {
    var expected, actual := [Point(50, 50), Point(150, 50)], [Point(100, 50), Point(50, 50)];
    TwoTilesExactly(actual, expected, 100, 100);
    assert Assigns([0, 1], [actual[1], actual[0]], expected, 100, 100);
    TwoTilesExactly([actual[1], actual[0]], expected, 100, 100);
  }
}
