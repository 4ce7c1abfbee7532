/** Tile geometry: floor-division tile rectangles, their centres, and the tile a point falls in. */
module Tiles {
  import opened Jigsaw

  datatype Point = Point(x: int, y: int)
  datatype Rect = Rect(left: int, top: int, right: int, bottom: int)

  function Min(a: int, b: int): int { if a < b then a else b }
  function Max(a: int, b: int): int { if a < b then b else a }
  function Clamp(value: int, lower: int, upper: int): int { Min(upper, Max(lower, value)) }

  // Where tile column c of n starts on a side of the given size.
  function Edge(c: nat, n: nat, size: nat): nat
    requires n > 0
  {
    c * size / n
  }

  function TileRect(index: int, cols: int, rows: int, width: nat, height: nat): Rect {
    var cols, rows := Max(1, cols), Max(1, rows);
    var i := Clamp(index, 0, cols * rows - 1);
    assert i >= 0 by { ProductPositive(cols, rows); }
    var col, row := i % cols, i / cols;
    Rect(Edge(col, cols, width), Edge(row, rows, height), Edge(col + 1, cols, width), Edge(row + 1, rows, height))
  }

  function TileCenter(index: int, cols: int, rows: int, width: nat, height: nat): Point {
    var r := TileRect(index, cols, rows, width, height);
    Point((r.left + r.right) / 2, (r.top + r.bottom) / 2)
  }

  function PointToIndex(p: Point, cols: int, rows: int, width: int, height: int): int {
    if cols <= 0 || rows <= 0 || width <= 0 || height <= 0 then -1
    else
      var x, y := Clamp(p.x, 0, width - 1), Clamp(p.y, 0, height - 1);
      var col, row := Clamp(x * cols / width, 0, cols - 1), Clamp(y * rows / height, 0, rows - 1);
      row * cols + col
  }

  lemma ProductPositive(a: int, b: int)
    requires a >= 1 && b >= 1
    ensures a * b >= 1
  {
  }

  lemma MulLe(n: int, a: int, b: int)
    requires n >= 0 && a <= b
    ensures n * a <= n * b
  {
  }

  lemma LessOf(n: int, a: int, b: int)
    requires n > 0 && n * a < n * b
    ensures a < b
  {
  }

  // ----- One side -----

  // The defining inequalities of a floor division.
  lemma Floor(a: int, b: int)
    requires b > 0
    ensures b * (a / b) <= a < b * (a / b) + b
  {
  }

  lemma FloorIs(a: int, b: int, q: int)
    requires b > 0 && b * q <= a < b * q + b
    ensures a / b == q
  {
    Floor(a, b);
    LessOf(b, a / b, q + 1);
    LessOf(b, q, a / b + 1);
  }

  lemma EdgeBounds(c: nat, n: nat, size: nat)
    requires n > 0
    ensures n * Edge(c, n, size) <= c * size < n * Edge(c, n, size) + n
  {
    Floor(c * size, n);
  }

  lemma EdgesGrow(b: nat, c: nat, n: nat, size: nat)
    requires n > 0 && b <= c
    ensures Edge(b, n, size) <= Edge(c, n, size)
  {
    EdgeBounds(b, n, size);
    EdgeBounds(c, n, size);
    MulLe(size, b, c);
    LessOf(n, Edge(b, n, size), Edge(c, n, size) + 1);
  }

  lemma EdgeEnds(n: nat, size: nat)
    requires n > 0
    ensures Edge(0, n, size) == 0 && Edge(n, n, size) == size
  {
    FloorIs(n * size, n, size);
  }

  // The column among the first c that holds x.
  lemma {:induction false} ColumnOf(x: nat, c: nat, n: nat, size: nat) returns (k: nat)
    requires n > 0 && x < Edge(c, n, size)
    ensures k < c && Edge(k, n, size) <= x < Edge(k + 1, n, size)
  {
    EdgeEnds(n, size);
    assert c > 0;
    if Edge(c - 1, n, size) <= x { k := c - 1; } else { k := ColumnOf(x, c - 1, n, size); }
  }

  // ----- The tiles partition the view -----

  ghost predicate Inside(p: Point, r: Rect) {
    r.left <= p.x < r.right && r.top <= p.y < r.bottom
  }

  lemma IndexParts(row: nat, col: nat, cols: nat)
    requires col < cols
    ensures (row * cols + col) % cols == col && (row * cols + col) / cols == row
  {
    FloorIs(row * cols + col, cols, row);
  }

  lemma IndexBound(row: nat, col: nat, cols: nat, rows: nat)
    requires col < cols && row < rows
    ensures row * cols + col < cols * rows
  {
    assert (row + 1) * cols <= rows * cols;
  }

  lemma RectOf(row: nat, col: nat, cols: nat, rows: nat, width: nat, height: nat)
    requires col < cols && row < rows
    ensures TileRect(row * cols + col, cols, rows, width, height)
            == Rect(Edge(col, cols, width), Edge(row, rows, height), Edge(col + 1, cols, width),
                Edge(row + 1, rows, height))
  {
    IndexParts(row, col, cols);
    IndexBound(row, col, cols, rows);
  }

  lemma SplitIndex(i: nat, cols: nat, rows: nat) returns (row: nat, col: nat)
    requires i < cols * rows
    ensures col < cols && row < rows && i == row * cols + col
  {
    row, col := i / cols, i % cols;
    LessOf(cols, row, rows);
  }

  // Every pixel of the view lies in exactly one tile; a grid of no columns or rows counts as one of one.
  lemma TilesPartitionTheView(p: Point, cols: int, rows: int, width: nat, height: nat) returns (index: nat)
    requires 0 <= p.x < width && 0 <= p.y < height
    ensures index < Max(1, cols) * Max(1, rows) && Inside(p, TileRect(index, cols, rows, width, height))
    ensures forall i: nat :: i < Max(1, cols) * Max(1, rows) && Inside(p, TileRect(i, cols, rows, width, height))
              ==> i == index
  {
    var cols', rows' := Max(1, cols), Max(1, rows);
    assert forall i: nat :: TileRect(i, cols, rows, width, height) == TileRect(i, cols', rows', width, height);
    index := TileOf(p, cols', rows', width, height);
  }

  lemma TileOf(p: Point, cols: nat, rows: nat, width: nat, height: nat) returns (index: nat)
    requires cols > 0 && rows > 0 && 0 <= p.x < width && 0 <= p.y < height
    ensures index < cols * rows && Inside(p, TileRect(index, cols, rows, width, height))
    ensures forall i: nat :: i < cols * rows && Inside(p, TileRect(i, cols, rows, width, height)) ==> i == index
  {
    hide TileRect, Edge;
    EdgeEnds(cols, width);
    EdgeEnds(rows, height);
    var col := ColumnOf(p.x, cols, cols, width);
    var row := ColumnOf(p.y, rows, rows, height);
    index := row * cols + col;
    RectOf(row, col, cols, rows, width, height);
    IndexBound(row, col, cols, rows);
    forall i: nat | i < cols * rows && Inside(p, TileRect(i, cols, rows, width, height)) ensures i == index {
      OneTile(p, i, row, col, cols, rows, width, height);
    }
  }

  lemma OneTile(p: Point, i: nat, row: nat, col: nat, cols: nat, rows: nat, width: nat, height: nat)
    requires i < cols * rows
    ensures cols > 0 && rows > 0
    ensures Inside(p, TileRect(i, cols, rows, width, height))
            && Edge(col, cols, width) <= p.x < Edge(col + 1, cols, width)
            && Edge(row, rows, height) <= p.y < Edge(row + 1, rows, height)
            ==> i == row * cols + col
  {
    hide TileRect, Edge;
    var row', col' := SplitIndex(i, cols, rows);
    RectOf(row', col', cols, rows, width, height);
    if Edge(col, cols, width) <= p.x < Edge(col + 1, cols, width)
       && Edge(col', cols, width) <= p.x < Edge(col' + 1, cols, width) {
      OneColumn(p.x, col, col', cols, width);
    }
    if Edge(row, rows, height) <= p.y < Edge(row + 1, rows, height)
       && Edge(row', rows, height) <= p.y < Edge(row' + 1, rows, height) {
      OneColumn(p.y, row, row', rows, height);
    }
  }

  lemma OneColumn(x: int, b: nat, c: nat, n: nat, size: nat)
    requires n > 0 && Edge(b, n, size) <= x < Edge(b + 1, n, size) && Edge(c, n, size) <= x < Edge(c + 1, n, size)
    ensures b == c
  {
    if b < c { EdgesGrow(b + 1, c, n, size); }
    if c < b { EdgesGrow(c + 1, b, n, size); }
  }

  // No tile reaches out of the view, and none is inside out.
  lemma TilesStayInTheView(index: nat, cols: nat, rows: nat, width: nat, height: nat)
    requires cols > 0 && rows > 0 && index < cols * rows
    ensures var r := TileRect(index, cols, rows, width, height);
            0 <= r.left <= r.right <= width && 0 <= r.top <= r.bottom <= height
  {
    var row, col := SplitIndex(index, cols, rows);
    RectOf(row, col, cols, rows, width, height);
    EdgesGrow(col, col + 1, cols, width);
    EdgesGrow(col + 1, cols, cols, width);
    EdgesGrow(row, row + 1, rows, height);
    EdgesGrow(row + 1, rows, rows, height);
    EdgeEnds(cols, width);
    EdgeEnds(rows, height);
  }

  // ----- From a tile to its centre and back -----

  function Middle(c: nat, n: nat, size: nat): nat
    requires n > 0
  {
    (Edge(c, n, size) + Edge(c + 1, n, size)) / 2
  }

  // A middle is looked up in its own column exactly when the column is two pixels wide or starts on a
  // whole pixel.
  ghost predicate Found(c: nat, n: nat, size: nat)
    requires n > 0
  {
    Edge(c + 1, n, size) - Edge(c, n, size) >= 2 || c * size % n == 0
  }

  lemma MiddleBounds(c: nat, n: nat, size: nat)
    requires n > 0 && size > 0 && c < n
    ensures Middle(c, n, size) < size
    ensures Edge(c, n, size) <= Middle(c, n, size) && n * Middle(c, n, size) < c * size + size
    ensures Edge(c + 1, n, size) - Edge(c, n, size) >= 2 ==> Middle(c, n, size) > Edge(c, n, size)
    ensures Edge(c + 1, n, size) - Edge(c, n, size) < 2 ==> Middle(c, n, size) == Edge(c, n, size)
  {
    EdgesGrow(c, c + 1, n, size);
    EdgesGrow(c + 1, n, n, size);
    EdgeEnds(n, size);
    EdgeBounds(c, n, size);
    EdgeBounds(c + 1, n, size);
    assert (c + 1) * size == c * size + size;
    BelowProduct(c, n, size);
    var e, f, p := Edge(c, n, size), Edge(c + 1, n, size), c * size;
    assert Middle(c, n, size) == (e + f) / 2;
    hide *;
    MiddleArithmetic(e, f, n, p, size);
  }

  lemma MiddleArithmetic(e: int, f: int, n: int, p: int, size: int)
    requires 0 <= e <= f <= size && n > 0 && size > 0
    requires n * e <= p < n * size && n * f <= p + size
    ensures e <= (e + f) / 2 < size && n * ((e + f) / 2) < p + size
    ensures if f - e >= 2 then (e + f) / 2 > e else (e + f) / 2 == e
  {
    var m := (e + f) / 2;
    if e == f {
      LessOf(n, e, size);
    } else {
      MulLe(n, m + 1, f);
    }
  }

  lemma BelowProduct(c: nat, n: nat, size: nat)
    requires size > 0 && c < n
    ensures c * size < n * size
  {
  }

  lemma MiddleIsFound(c: nat, n: nat, size: nat)
    requires n > 0 && size > 0 && c < n
    ensures Middle(c, n, size) * n / size == c <==> Found(c, n, size)
  {
    MiddleBounds(c, n, size);
    EdgeBounds(c, n, size);
    var e, m := Edge(c, n, size), Middle(c, n, size);
    Exactly(c * size, n, e);
    FoundArithmetic(c, n, size, e, m);
    assert Found(c, n, size) <==> m > e || n * e == c * size;
    assert m * n == n * m;
  }

  lemma FoundArithmetic(c: nat, n: int, size: int, e: int, m: int)
    requires n > 0 && size > 0 && n * e <= c * size < n * e + n && e <= m && n * m < c * size + size
    ensures n * m / size == c <==> m > e || n * e == c * size
  {
    Floor(n * m, size);
    if m > e { MulLe(n, e + 1, m); }
    if m > e || n * e == c * size {
      FloorIs(n * m, size, c);
    } else {
      assert n * m < size * c;
      LessOf(size, n * m / size, c);
    }
  }

  lemma Exactly(a: int, n: int, q: int)
    requires n > 0 && n * q <= a < n * q + n
    ensures a % n == 0 <==> a == n * q
  {
    FloorIs(a, n, q);
  }

  // The centre of a tile is looked up as that tile exactly when this is so on both sides.
  lemma CenterRoundTrip(row: nat, col: nat, cols: nat, rows: nat, width: nat, height: nat)
    requires col < cols && row < rows && width > 0 && height > 0
    ensures var i := row * cols + col;
            PointToIndex(TileCenter(i, cols, rows, width, height), cols, rows, width, height) == i
            <==> Found(col, cols, width) && Found(row, rows, height)
  {
    RectOf(row, col, cols, rows, width, height);
    LookedUp(col, cols, width);
    LookedUp(row, rows, height);
    MiddleIsFound(col, cols, width);
    MiddleIsFound(row, rows, height);
    var x, y := Middle(col, cols, width), Middle(row, rows, height);
    hide TileRect, Edge, Found;
    var col', row' := x * cols / width, y * rows / height;
    if row' * cols + col' == row * cols + col {
      IndexParts(row, col, cols);
      IndexParts(row', col', cols);
    }
  }

  // Neither clamp acts on a middle, and it is never looked up further on.
  lemma LookedUp(c: nat, n: nat, size: nat)
    requires n > 0 && size > 0 && c < n
    ensures var m := Middle(c, n, size);
            Clamp(m, 0, size - 1) == m && 0 <= m * n / size <= c && Clamp(m * n / size, 0, n - 1) == m * n / size
  {
    MiddleBounds(c, n, size);
    var m := Middle(c, n, size);
    hide Middle, Edge;
    Floor(n * m, size);
    LessOf(size, n * m / size, c + 1);
    QuotientNat(n * m, size);
  }

  lemma QuotientNat(a: nat, b: nat)
    requires b > 0
    ensures a / b >= 0
  {
  }

  // Two pixels a tile are enough.
  lemma WideTilesAreFound(c: nat, n: nat, size: nat)
    requires n > 0 && size >= 2 * n
    ensures Found(c, n, size)
  {
    EdgeBounds(c, n, size);
    EdgeBounds(c + 1, n, size);
    var e, f := Edge(c, n, size), Edge(c + 1, n, size);
    assert (c + 1) * size == c * size + size;
    hide Edge;
    LessOf(n, e + 1, f);
  }

  lemma CenterRoundTripWide(i: nat, cols: nat, rows: nat, width: nat, height: nat)
    requires i < cols * rows && width >= 2 * cols && height >= 2 * rows
    ensures PointToIndex(TileCenter(i, cols, rows, width, height), cols, rows, width, height) == i
  {
    var row, col := SplitIndex(i, cols, rows);
    WideTilesAreFound(col, cols, width);
    WideTilesAreFound(row, rows, height);
    CenterRoundTrip(row, col, cols, rows, width, height);
  }

  // ----- The order rebuilt from points -----

  // The centres of the tiles that moved, in index order.
  method ChangedTilePoints(order: seq<int>, cols: int, rows: int, width: nat, height: nat) returns (points: seq<Point>)
    ensures points == ChangedPoints(order, |order|, cols, rows, width, height)
  {
    points := [];
    for i := 0 to |order|
      invariant points == ChangedPoints(order, i, cols, rows, width, height)
    {
      if i != order[i] { points := points + [TileCenter(i, cols, rows, width, height)]; }
    }
  }

  function ChangedPoints(order: seq<int>, n: nat, cols: int, rows: int, width: nat, height: nat): seq<Point>
    requires n <= |order|
  {
    if n == 0 then []
    else
      ChangedPoints(order, n - 1, cols, rows, width, height)
      + if order[n - 1] != n - 1 then [TileCenter(n - 1, cols, rows, width, height)] else []
  }

  function TileCount(cols: int, rows: int): nat { Max(1, cols * rows) }

  lemma IndexInView(p: Point, cols: int, rows: int, width: int, height: int)
    ensures -1 <= PointToIndex(p, cols, rows, width, height) < TileCount(cols, rows)
  {
    if cols > 0 && rows > 0 && width > 0 && height > 0 {
      var x, y := Clamp(p.x, 0, width - 1), Clamp(p.y, 0, height - 1);
      IndexBound(Clamp(y * rows / height, 0, rows - 1), Clamp(x * cols / width, 0, cols - 1), cols, rows);
    }
  }

  // The order two points stand for: their tiles exchanged, or nothing moved.
  function OrderOfPoints(points: seq<Point>, cols: int, rows: int, width: int, height: int): seq<int> {
    var count := TileCount(cols, rows);
    if |points| < 2 then Identity(count)
    else
      var first := PointToIndex(points[0], cols, rows, width, height);
      var second := PointToIndex(points[1], cols, rows, width, height);
      IndexInView(points[0], cols, rows, width, height);
      IndexInView(points[1], cols, rows, width, height);
      if first < 0 || second < 0 then Identity(count) else Swapped(count, first, second)
  }

  method ExpectedOrderFromPoints(points: seq<Point>, cols: int, rows: int, width: int, height: int)
    returns (order: seq<int>)
    ensures order == OrderOfPoints(points, cols, rows, width, height)
  {
    hide PointToIndex, TileCount;
    order := Identity(TileCount(cols, rows));
    if |points| < 2 { return; }
    var first := PointToIndex(points[0], cols, rows, width, height);
    var second := PointToIndex(points[1], cols, rows, width, height);
    IndexInView(points[0], cols, rows, width, height);
    IndexInView(points[1], cols, rows, width, height);
    if first >= 0 && second >= 0 && first != second {
      order := order[first := order[second]][second := order[first]];
    }
  }

  // ----- The points of a scramble stand for its expected order -----

  lemma {:induction false} ChangedPointsOfSwap(a: nat, b: nat, n: nat, cols: nat, rows: nat, width: nat, height: nat)
    requires a < b < cols * rows && n <= cols * rows
    ensures ChangedPoints(Swapped(cols * rows, a, b), n, cols, rows, width, height)
            == (if a < n then [TileCenter(a, cols, rows, width, height)] else [])
               + (if b < n then [TileCenter(b, cols, rows, width, height)] else [])
  {
    hide TileCenter;
    if n > 0 { ChangedPointsOfSwap(a, b, n - 1, cols, rows, width, height); }
  }

  // A tile whose centre is looked up as the tile itself.
  ghost predicate TileFound(i: nat, cols: nat, rows: nat, width: nat, height: nat)
    requires i < cols * rows
  {
    var row, col := i / cols, i % cols;
    SplitIndexIs(i, cols, rows);
    Found(col, cols, width) && Found(row, rows, height)
  }

  lemma SplitIndexIs(i: nat, cols: nat, rows: nat)
    requires i < cols * rows
    ensures cols > 0 && rows > 0 && i % cols < cols && i / cols < rows && i == (i / cols) * cols + i % cols
  {
    LessOf(cols, i / cols, rows);
  }

  // The column in which a middle is looked up.
  function Lookup(c: nat, n: nat, size: nat): (r: int)
    requires n > 0 && size > 0 && c < n
    ensures 0 <= r <= c
  {
    LookedUp(c, n, size);
    Middle(c, n, size) * n / size
  }

  lemma CenterLookup(row: nat, col: nat, cols: nat, rows: nat, width: nat, height: nat)
    requires col < cols && row < rows && width > 0 && height > 0
    ensures PointToIndex(TileCenter(row * cols + col, cols, rows, width, height), cols, rows, width, height)
            == Lookup(row, rows, height) * cols + Lookup(col, cols, width)
  {
    RectOf(row, col, cols, rows, width, height);
    LookedUp(col, cols, width);
    LookedUp(row, rows, height);
    var x, y := Middle(col, cols, width), Middle(row, rows, height);
    assert TileCenter(row * cols + col, cols, rows, width, height) == Point(x, y);
    hide TileRect, Edge, Middle, TileCenter;
  }

  lemma IndexGoesBack(row: nat, col: nat, row': nat, col': nat, cols: nat)
    requires row' <= row && col' <= col
    ensures 0 <= row' * cols + col' <= row * cols + col
  {
    MulLe(cols, row', row);
  }

  // A centre is never looked up as a later tile.
  lemma LookupGoesBack(i: nat, cols: nat, rows: nat, width: nat, height: nat)
    requires i < cols * rows && width > 0 && height > 0
    ensures var l := PointToIndex(TileCenter(i, cols, rows, width, height), cols, rows, width, height);
            0 <= l <= i && (l == i <==> TileFound(i, cols, rows, width, height))
  {
    SplitIndexIs(i, cols, rows);
    var row, col := i / cols, i % cols;
    CenterRoundTrip(row, col, cols, rows, width, height);
    CenterLookup(row, col, cols, rows, width, height);
    IndexGoesBack(row, col, Lookup(row, rows, height), Lookup(col, cols, width), cols);
    hide Lookup, Found, PointToIndex, TileCenter;
  }

  lemma SwapsDiffer(count: nat, a: nat, b: nat, c: nat, d: nat)
    requires a < b < count && c <= a && d <= b
    ensures Swapped(count, c, d) == Swapped(count, a, b) <==> c == a && d == b
  {
    if Swapped(count, c, d) == Swapped(count, a, b) {
      assert Swapped(count, c, d)[a] == b && Swapped(count, c, d)[b] == a;
    }
  }

  // Every single swap, on every view: the order rebuilt from the moved tiles' centres is the expected order
  // the token would have given if and only if both centres are looked up as their own tiles.
  lemma PointsFallbackExactly(first: nat, second: nat, cols: nat, rows: nat, width: nat, height: nat)
    requires first < cols * rows && second < cols * rows && first != second && width > 0 && height > 0
    ensures var source := Swapped(cols * rows, first, second);
            OrderOfPoints(ChangedPoints(source, cols * rows, cols, rows, width, height), cols, rows, width, height)
              == Inverse(source)
            <==> TileFound(first, cols, rows, width, height) && TileFound(second, cols, rows, width, height)
  {
    var count, a, b := cols * rows, Min(first, second), Max(first, second);
    var source := Swapped(count, first, second);
    assert source == Swapped(count, a, b);
    SwapIsItsOwnInverse(count, first, second);
    ChangedPointsOfSwap(a, b, count, cols, rows, width, height);
    LookupGoesBack(a, cols, rows, width, height);
    LookupGoesBack(b, cols, rows, width, height);
    hide PointToIndex, TileCenter, TileFound, Swapped;
    var points := ChangedPoints(source, count, cols, rows, width, height);
    assert points == [TileCenter(a, cols, rows, width, height), TileCenter(b, cols, rows, width, height)];
    assert TileCount(cols, rows) == count;
    SwapsDiffer(count, a, b, PointToIndex(points[0], cols, rows, width, height),
        PointToIndex(points[1], cols, rows, width, height));
  }

  // In particular whenever tiles are two pixels or more each way.
  lemma PointsFallbackAgrees(first: nat, second: nat, cols: nat, rows: nat, width: nat, height: nat)
    requires first < cols * rows && second < cols * rows && first != second
    requires width >= 2 * cols && height >= 2 * rows
    ensures var source := Swapped(cols * rows, first, second);
            OrderOfPoints(ChangedPoints(source, cols * rows, cols, rows, width, height), cols, rows, width, height)
              == Inverse(source)
  {
    hide *;
    WideTileIsFound(first, cols, rows, width, height);
    WideTileIsFound(second, cols, rows, width, height);
    SplitIndexIs(first, cols, rows);
    PointsFallbackExactly(first, second, cols, rows, width, height);
  }

  lemma WideTileIsFound(i: nat, cols: nat, rows: nat, width: nat, height: nat)
    requires i < cols * rows && width >= 2 * cols && height >= 2 * rows
    ensures TileFound(i, cols, rows, width, height)
  {
    SplitIndexIs(i, cols, rows);
    hide Found, Edge;
    WideTilesAreFound(i % cols, cols, width);
    WideTilesAreFound(i / cols, rows, height);
  }
}
