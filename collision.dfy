/** The broad-phase collision grid of collision.go and its overlap-resolution
    driver. The grid keeps a one-cell border on every side; bodies are placed in
    the interior by clamping, and only the cells 1..Rows-1 x 1..Cols-1 are
    scanned as centres against their 3x3 neighbourhood.

    The pure functions below are the specification: `Bucket` is what a cell holds
    after UpdateCells, `Scan` is the list of pairs one pass records (in recording
    order), `ApplyAll` is the effect of rearranging them in that order, and
    `Relaxed`/`Passes` are the outcome of the whole bounded relaxation. The class
    methods are proved against them. */
module Collision {
  import opened Geometry
  import opened Bodies

  datatype Shape = Shape(cols: int, rows: int, cellWidth: int, cellHeight: int) {
    predicate Valid() {
      cols > 0 && rows > 0 && cellWidth > 0 && cellHeight > 0
    }
  }

  // ---------------------------------------------------------------------------
  // Cell assignment

  /** One grid coordinate of position `p`: truncated towards zero, clamped into
      0..count-1, then shifted past the border. Off-grid positions land in the
      nearest edge cell; nothing wraps round. */
  function CellCoord(p: real, cellSize: int, count: int): (g: int)
    requires cellSize > 0 && count > 0
    ensures 1 <= g <= count
  {
    var raw := Truncate(p / cellSize as real);
    (if raw < 0 then 0 else if raw >= count then count - 1 else raw) + 1
  }

  /** Where CellCoord puts a position: below the grid into the first cell, beyond
      it into the last, and otherwise into the cell whose span contains it. */
  lemma CellCoordLocates(p: real, cellSize: int, count: int)
    requires cellSize > 0 && count > 0
    ensures p < 0.0 ==> CellCoord(p, cellSize, count) == 1
    ensures (count * cellSize) as real <= p ==> CellCoord(p, cellSize, count) == count
    ensures 0.0 <= p < (count * cellSize) as real ==>
              ((CellCoord(p, cellSize, count) - 1) * cellSize) as real <= p < (CellCoord(p, cellSize, count) * cellSize) as real
  {
    if p < 0.0 {
      ScaleBounds(p, cellSize as real, 0);
    } else if (count * cellSize) as real <= p {
      CellCoordBeyond(p, cellSize, count);
    } else {
      CellCoordWithin(p, cellSize, count);
    }
  }

  lemma CellCoordBeyond(p: real, cellSize: int, count: int)
    requires cellSize > 0 && count > 0 && (count * cellSize) as real <= p
    ensures CellCoord(p, cellSize, count) == count
  {
    ScaleBounds(p, cellSize as real, count);
    MulAsReal(count, cellSize);
  }

  lemma CellCoordWithin(p: real, cellSize: int, count: int)
    requires cellSize > 0 && count > 0 && 0.0 <= p < (count * cellSize) as real
    ensures ((CellCoord(p, cellSize, count) - 1) * cellSize) as real <= p < (CellCoord(p, cellSize, count) * cellSize) as real
  {
    var c := cellSize as real;
    var g := CellCoord(p, cellSize, count);
    var raw := Truncate(p / c);
    QuotientInRange(p, cellSize, count);
    assert g == raw + 1;
    CellBracket(p, c, raw);
    MulAsReal(raw, cellSize);
    MulAsReal(raw + 1, cellSize);
    assert (g - 1) * cellSize == raw * cellSize;
    assert g * cellSize == (raw + 1) * cellSize;
  }

  /** A position inside the grid has a quotient in `[0, count)`. */
  lemma QuotientInRange(p: real, cellSize: int, count: int)
    requires cellSize > 0 && count > 0 && 0.0 <= p < (count * cellSize) as real
    ensures 0.0 <= p / cellSize as real < count as real
  {
    ScaleBounds(p, cellSize as real, 0);
    ScaleBounds(p, cellSize as real, count);
    MulAsReal(count, cellSize);
  }

  /** A quotient truncated to `raw` brackets `p` between `raw` and `raw + 1` cells. */
  lemma CellBracket(p: real, c: real, raw: int)
    requires c > 0.0 && raw as real <= p / c < raw as real + 1.0
    ensures (raw as real) * c <= p < ((raw + 1) as real) * c
  {
    ScaleBounds(p, c, raw);
    ScaleBounds(p, c, raw + 1);
  }

  lemma MulAsReal(a: int, b: int)
    ensures (a * b) as real == (a as real) * (b as real)
  {
  }

  lemma ScaleBounds(p: real, c: real, k: int)
    requires c > 0.0
    ensures (k as real <= p / c) <==> ((k as real) * c <= p)
    ensures (p / c < k as real) <==> (p < (k as real) * c)
  {
    assert (p / c) * c == p;
    if k as real <= p / c {
      assert (k as real) * c <= (p / c) * c;
    }
    if (k as real) * c <= p {
      assert (k as real) * c / c <= p / c;
    }
  }

  /** (row, column) of the bucket that receives body `b`. */
  function CellOf(b: Body, s: Shape): (int, int)
    requires s.Valid()
  {
    (CellCoord(Position(b).y, s.cellHeight, s.rows), CellCoord(Position(b).x, s.cellWidth, s.cols))
  }

  /** The cell of every body, in list order. */
  function Where(bodies: seq<Body>, s: Shape): (where: seq<(int, int)>)
    requires s.Valid()
    ensures |where| == |bodies|
    decreases |bodies|
  {
    if bodies == [] then []
    else Where(bodies[..|bodies| - 1], s) + [CellOf(bodies[|bodies| - 1], s)]
  }

  lemma {:induction false} WhereIsCellOf(bodies: seq<Body>, s: Shape, i: int)
    requires s.Valid() && 0 <= i < |bodies|
    ensures Where(bodies, s)[i] == CellOf(bodies[i], s)
    decreases |bodies|
  {
    if i < |bodies| - 1 {
      WhereIsCellOf(bodies[..|bodies| - 1], s, i);
    }
  }

  // ---------------------------------------------------------------------------
  // Buckets

  predicate IndicesIn(bodies: seq<Body>, ids: seq<nat>)
  {
    forall k :: 0 <= k < |ids| ==> ids[k] < |bodies|
  }

  /** The indices among the first `n` bodies whose cell is (y, x), in list order. */
  function BucketUpTo(where: seq<(int, int)>, n: nat, y: int, x: int): (r: seq<nat>)
    requires n <= |where|
  {
    if n == 0 then []
    else if where[n - 1] == (y, x) then BucketUpTo(where, n - 1, y, x) + [n - 1]
    else BucketUpTo(where, n - 1, y, x)
  }

  /** What cell (y, x) holds after UpdateCells(bodies). */
  function Bucket(bodies: seq<Body>, s: Shape, y: int, x: int): (r: seq<nat>)
    requires s.Valid()
  {
    BucketUpTo(Where(bodies, s), |bodies|, y, x)
  }

  /** A bucket only lists bodies that were placed. */
  lemma {:induction false} BucketUpToBelow(where: seq<(int, int)>, n: nat, y: int, x: int)
    requires n <= |where|
    ensures forall k :: 0 <= k < |BucketUpTo(where, n, y, x)| ==> BucketUpTo(where, n, y, x)[k] < n
  {
    if n > 0 {
      BucketUpToBelow(where, n - 1, y, x);
    }
  }

  lemma {:induction false} BucketUpToMembers(where: seq<(int, int)>, n: nat, y: int, x: int, i: int)
    requires n <= |where|
    ensures i in BucketUpTo(where, n, y, x) <==> 0 <= i < n && where[i] == (y, x)
  {
    if n > 0 {
      BucketUpToMembers(where, n - 1, y, x, i);
    }
  }

  lemma {:induction false} BucketUpToIncreasing(where: seq<(int, int)>, n: nat, y: int, x: int)
    requires n <= |where|
    ensures forall a, c :: 0 <= a < c < |BucketUpTo(where, n, y, x)| ==>
              BucketUpTo(where, n, y, x)[a] < BucketUpTo(where, n, y, x)[c]
  {
    if n > 0 {
      BucketUpToIncreasing(where, n - 1, y, x);
      BucketUpToBelow(where, n - 1, y, x);
    }
  }

  /** Every body index is in the bucket of its own cell and in no other one. */
  lemma EachBodyInItsOwnBucket(bodies: seq<Body>, s: Shape, i: nat, y: int, x: int)
    requires s.Valid() && i < |bodies|
    ensures i in Bucket(bodies, s, y, x) <==> CellOf(bodies[i], s) == (y, x)
  {
    BucketUpToMembers(Where(bodies, s), |bodies|, y, x, i);
    WhereIsCellOf(bodies, s, i);
  }

  /** Within a bucket, indices are strictly increasing: list order, no repeats. */
  lemma BucketInListOrder(bodies: seq<Body>, s: Shape, y: int, x: int)
    requires s.Valid()
    ensures forall a, c :: 0 <= a < c < |Bucket(bodies, s, y, x)| ==>
              Bucket(bodies, s, y, x)[a] < Bucket(bodies, s, y, x)[c]
  {
    BucketUpToIncreasing(Where(bodies, s), |bodies|, y, x);
  }

  /** The border ring is never occupied. */
  lemma BorderStaysEmpty(bodies: seq<Body>, s: Shape, y: int, x: int)
    requires s.Valid()
    requires y < 1 || s.rows < y || x < 1 || s.cols < x
    ensures Bucket(bodies, s, y, x) == []
  {
    if Bucket(bodies, s, y, x) != [] {
      var i := Bucket(bodies, s, y, x)[0];
      BucketUpToBelow(Where(bodies, s), |bodies|, y, x);
      EachBodyInItsOwnBucket(bodies, s, i, y, x);
      assert false;
    }
  }

  // Total occupancy: the lengths of all (Rows+2) x (Cols+2) buckets add up to |bodies|.

  function RowLoad(where: seq<(int, int)>, n: nat, y: int, w: int): nat
    requires n <= |where|
    decreases w
  {
    if w <= 0 then 0 else RowLoad(where, n, y, w - 1) + |BucketUpTo(where, n, y, w - 1)|
  }

  function GridLoad(where: seq<(int, int)>, s: Shape, n: nat, h: int): nat
    requires n <= |where|
    decreases h
  {
    if h <= 0 then 0 else GridLoad(where, s, n, h - 1) + RowLoad(where, n, h - 1, s.cols + 2)
  }

  lemma {:induction false} RowLoadStep(where: seq<(int, int)>, n: nat, y: int, w: int)
    requires n < |where|
    ensures RowLoad(where, n + 1, y, w) == RowLoad(where, n, y, w) +
              (if where[n].0 == y && 0 <= where[n].1 < w then 1 else 0)
    decreases w
  {
    if w > 0 {
      RowLoadStep(where, n, y, w - 1);
    }
  }

  lemma {:induction false} GridLoadStep(where: seq<(int, int)>, s: Shape, n: nat, h: int)
    requires n < |where|
    ensures GridLoad(where, s, n + 1, h) == GridLoad(where, s, n, h) +
              (if 0 <= where[n].0 < h && 0 <= where[n].1 < s.cols + 2 then 1 else 0)
    decreases h
  {
    if h > 0 {
      GridLoadStep(where, s, n, h - 1);
      RowLoadStep(where, n, h - 1, s.cols + 2);
    }
  }

  lemma {:induction false} RowLoadEmpty(where: seq<(int, int)>, y: int, w: int)
    ensures RowLoad(where, 0, y, w) == 0
    decreases w
  {
    if w > 0 {
      RowLoadEmpty(where, y, w - 1);
    }
  }

  lemma {:induction false} GridLoadEmpty(where: seq<(int, int)>, s: Shape, h: int)
    ensures GridLoad(where, s, 0, h) == 0
    decreases h
  {
    if h > 0 {
      GridLoadEmpty(where, s, h - 1);
      RowLoadEmpty(where, h - 1, s.cols + 2);
    }
  }

  lemma {:induction false} GridLoadCounts(where: seq<(int, int)>, s: Shape, n: nat)
    requires n <= |where|
    requires forall i :: 0 <= i < |where| ==> InGrid(s, where[i].0, where[i].1)
    ensures GridLoad(where, s, n, s.rows + 2) == n
  {
    if n == 0 {
      GridLoadEmpty(where, s, s.rows + 2);
    } else {
      GridLoadCounts(where, s, n - 1);
      GridLoadStep(where, s, n - 1, s.rows + 2);
    }
  }

  /** All buckets together hold exactly |bodies| entries. */
  lemma TotalOccupancy(bodies: seq<Body>, s: Shape)
    requires s.Valid()
    ensures GridLoad(Where(bodies, s), s, |bodies|, s.rows + 2) == |bodies|
  {
    var where := Where(bodies, s);
    forall i | 0 <= i < |where| ensures InGrid(s, where[i].0, where[i].1) {
      WhereIsCellOf(bodies, s, i);
    }
    GridLoadCounts(where, s, |bodies|);
  }

  // ---------------------------------------------------------------------------
  // One scan: the pairs recorded, in recording order

  predicate PairsIn(bodies: seq<Body>, ps: seq<Pair>)
  {
    forall k :: 0 <= k < |ps| ==> ps[k].first < |bodies| && ps[k].second < |bodies|
  }

  /** Central body `e` against each body of a neighbour bucket, skipping itself; every
      hit is appended to `acc`, the pairs recorded before. */
  function PairsWith(bodies: seq<Body>, rules: EnemyRules, acc: seq<Pair>, e: nat, around: seq<nat>): seq<Pair>
    decreases |around|
  {
    if around == [] then acc
    else
      var p := Pair(e, around[|around| - 1]);
      if Hit(bodies, rules, p) then PairsWith(bodies, rules, acc, e, around[..|around| - 1]) + [p]
      else PairsWith(bodies, rules, acc, e, around[..|around| - 1])
  }

  /** Every body of the central bucket against the neighbour bucket. */
  function CrossPairs(bodies: seq<Body>, rules: EnemyRules, acc: seq<Pair>, central: seq<nat>, around: seq<nat>): seq<Pair>
    decreases |central|
  {
    if central == [] then acc
    else PairsWith(bodies, rules, CrossPairs(bodies, rules, acc, central[..|central| - 1], around), central[|central| - 1], around)
  }

  /** Grid contents: one bucket of body indices per cell of the padded grid. */
  type Cells = seq<seq<seq<nat>>>

  /** (y, x) is a cell of the padded grid. */
  predicate InGrid(s: Shape, y: int, x: int)
  {
    0 <= y < s.rows + 2 && 0 <= x < s.cols + 2
  }

  /** `cells` has the padded grid's shape. */
  predicate Shaped(s: Shape, cells: Cells)
  {
    |cells| == s.rows + 2 && forall y :: 0 <= y < |cells| ==> |cells[y]| == s.cols + 2
  }

  /** `cells` has the padded grid's shape and holds only indices into `bodies`. */
  predicate Indexed(bodies: seq<Body>, s: Shape, cells: Cells)
  {
    Shaped(s, cells) &&
    forall y, x, k :: 0 <= y < s.rows + 2 && 0 <= x < s.cols + 2 && 0 <= k < |cells[y][x]| ==> cells[y][x][k] < |bodies|
  }

  /** The grid contents UpdateCells produces for `bodies`. */
  function Layout(bodies: seq<Body>, s: Shape): (cells: Cells)
    requires s.Valid()
    ensures Shaped(s, cells)
  {
    seq(s.rows + 2, y => seq(s.cols + 2, x => Bucket(bodies, s, y, x)))
  }

  /** The layout holds only indices into `bodies`. */
  lemma LayoutIndexed(bodies: seq<Body>, s: Shape)
    requires s.Valid()
    ensures Indexed(bodies, s, Layout(bodies, s))
  {
    forall y, x | 0 <= y < s.rows + 2 && 0 <= x < s.cols + 2
      ensures IndicesIn(bodies, Layout(bodies, s)[y][x])
    {
      BucketUpToBelow(Where(bodies, s), |bodies|, y, x);
    }
  }

  /** Central cell (y, x) against cell (yy, xx); cells outside the padded grid are skipped. */
  function CellPairs(bodies: seq<Body>, s: Shape, rules: EnemyRules, acc: seq<Pair>, cells: Cells, y: int, x: int, yy: int, xx: int): seq<Pair>
    requires Shaped(s, cells) && InGrid(s, y, x)
  {
    if yy < 0 || yy >= |cells| || xx < 0 || xx >= |cells[yy]| then acc
    else CrossPairs(bodies, rules, acc, cells[y][x], cells[yy][xx])
  }

  /** Neighbours (yy, x-1) .. (yy, xxEnd-1) of central cell (y, x). */
  function NeighbourRow(bodies: seq<Body>, s: Shape, rules: EnemyRules, acc: seq<Pair>, cells: Cells, y: int, x: int, yy: int, xxEnd: int): seq<Pair>
    requires Shaped(s, cells) && InGrid(s, y, x)
    decreases xxEnd - x + 1
  {
    if xxEnd <= x - 1 then acc
    else CellPairs(bodies, s, rules, NeighbourRow(bodies, s, rules, acc, cells, y, x, yy, xxEnd - 1), cells, y, x, yy, xxEnd - 1)
  }

  /** Neighbour rows y-1 .. yyEnd-1 of central cell (y, x), each from column x-1 to x+1. */
  function Neighbourhood(bodies: seq<Body>, s: Shape, rules: EnemyRules, acc: seq<Pair>, cells: Cells, y: int, x: int, yyEnd: int): seq<Pair>
    requires Shaped(s, cells) && InGrid(s, y, x)
    decreases yyEnd - y + 1
  {
    if yyEnd <= y - 1 then acc
    else NeighbourRow(bodies, s, rules, Neighbourhood(bodies, s, rules, acc, cells, y, x, yyEnd - 1), cells, y, x, yyEnd - 1, x + 2)
  }

  /** Central cells (y, 1) .. (y, xEnd-1). */
  function ScanRow(bodies: seq<Body>, s: Shape, rules: EnemyRules, acc: seq<Pair>, cells: Cells, y: int, xEnd: int): seq<Pair>
    requires Shaped(s, cells) && 0 <= y < s.rows + 2 && xEnd <= s.cols + 2
    decreases xEnd
  {
    if xEnd <= 1 then acc
    else Neighbourhood(bodies, s, rules, ScanRow(bodies, s, rules, acc, cells, y, xEnd - 1), cells, y, xEnd - 1, y + 2)
  }

  /** Central rows 1 .. yEnd-1, each over columns 1 .. xEnd-1. */
  function ScanRows(bodies: seq<Body>, s: Shape, rules: EnemyRules, acc: seq<Pair>, cells: Cells, yEnd: int, xEnd: int): seq<Pair>
    requires Shaped(s, cells) && yEnd <= s.rows + 2 && xEnd <= s.cols + 2
    decreases yEnd
  {
    if yEnd <= 1 then acc
    else ScanRow(bodies, s, rules, ScanRows(bodies, s, rules, acc, cells, yEnd - 1, xEnd), cells, yEnd - 1, xEnd)
  }

  /** The pairs one pass of RearrangeBodies records, in recording order: central cells
      row-major, then neighbour cells row-major, then central-bucket order, then
      neighbour-bucket order. */
  function Scan(bodies: seq<Body>, s: Shape, rules: EnemyRules): (r: seq<Pair>)
    requires s.Valid()
    ensures PairsIn(bodies, r)
  {
    ScanRowsPairsIn(bodies, s, rules);
    ScanRows(bodies, s, rules, [], Layout(bodies, s), s.rows, s.cols)
  }

  /** Every pair the scan of a layout records names two bodies of the list. */
  lemma ScanRowsPairsIn(bodies: seq<Body>, s: Shape, rules: EnemyRules)
    requires s.Valid()
    ensures PairsIn(bodies, ScanRows(bodies, s, rules, [], Layout(bodies, s), s.rows, s.cols))
  {
    var cells := Layout(bodies, s);
    var r := ScanRows(bodies, s, rules, [], cells, s.rows, s.cols);
    LayoutIsSorted(bodies, s);
    forall k | 0 <= k < |r| ensures r[k].first < |bodies| && r[k].second < |bodies| {
      ScanRowsMembers(bodies, s, rules, [], cells, Where(bodies, s), s.rows, s.cols, r[k]);
    }
  }

  /** Two distinct bodies, the first of which reports a collision with the second. */
  predicate Hit(bodies: seq<Body>, rules: EnemyRules, p: Pair)
  {
    p.first < |bodies| && p.second < |bodies| && p.first != p.second &&
    CheckCollision(bodies[p.first], bodies[p.second], rules)
  }

  /** A pair a scan records: a hit whose first body sits in a central cell and whose
      second body sits in that cell's 3x3 neighbourhood. */
  predicate Recordable(bodies: seq<Body>, s: Shape, rules: EnemyRules, p: Pair)
    requires s.Valid()
  {
    Hit(bodies, rules, p) &&
    var c := CellOf(bodies[p.first], s);
    1 <= c.0 < s.rows && 1 <= c.1 < s.cols && Adjacent(c, CellOf(bodies[p.second], s))
  }

  lemma {:induction false} PairsWithMembers(bodies: seq<Body>, rules: EnemyRules, acc: seq<Pair>, e: nat, around: seq<nat>, p: Pair)
    ensures p in PairsWith(bodies, rules, acc, e, around) <==>
              p in acc || (p.first == e && p.second in around && Hit(bodies, rules, p))
    decreases |around|
  {
    if around != [] {
      PairsWithMembers(bodies, rules, acc, e, around[..|around| - 1], p);
      PairsWithStep(bodies, rules, acc, e, around, p);
    }
  }

  /** One step of PairsWith: the last body of the neighbour bucket. */
  lemma PairsWithStep(bodies: seq<Body>, rules: EnemyRules, acc: seq<Pair>, e: nat, around: seq<nat>, p: Pair)
    requires around != []
    ensures p in PairsWith(bodies, rules, acc, e, around) <==>
              p in PairsWith(bodies, rules, acc, e, around[..|around| - 1]) ||
              (p == Pair(e, around[|around| - 1]) && Hit(bodies, rules, p))
    ensures p.second in around <==> p.second in around[..|around| - 1] || p.second == around[|around| - 1]
  {
    assert around == around[..|around| - 1] + [around[|around| - 1]];
  }

  lemma {:induction false} CrossPairsMembers(bodies: seq<Body>, rules: EnemyRules, acc: seq<Pair>, central: seq<nat>, around: seq<nat>, p: Pair)
    ensures p in CrossPairs(bodies, rules, acc, central, around) <==>
              p in acc || (p.first in central && p.second in around && Hit(bodies, rules, p))
    decreases |central|
  {
    if central != [] {
      var front := central[..|central| - 1];
      CrossPairsMembers(bodies, rules, acc, front, around, p);
      PairsWithMembers(bodies, rules, CrossPairs(bodies, rules, acc, front, around), central[|central| - 1], around, p);
      assert central == front + [central[|central| - 1]];
    }
  }

  /** Body i sits in cell where[i], inside the grid, and a bucket lists exactly the
      bodies of its cell. */
  ghost predicate Sorted(s: Shape, where: seq<(int, int)>, cells: Cells)
    requires Shaped(s, cells)
  {
    (forall i :: 0 <= i < |where| ==> InGrid(s, where[i].0, where[i].1)) &&
    (forall y, x, i {:trigger i in cells[y][x]} :: 0 <= y < s.rows + 2 && 0 <= x < s.cols + 2 && 0 <= i < |where| ==>
       (i in cells[y][x] <==> where[i] == (y, x)))
  }

  lemma LayoutIsSorted(bodies: seq<Body>, s: Shape)
    requires s.Valid()
    ensures Sorted(s, Where(bodies, s), Layout(bodies, s))
  {
    var where := Where(bodies, s);
    var cells := Layout(bodies, s);
    forall i | 0 <= i < |where|
      ensures InGrid(s, where[i].0, where[i].1)
    {
      WhereIsCellOf(bodies, s, i);
    }
    forall y, x, i | 0 <= y < s.rows + 2 && 0 <= x < s.cols + 2 && 0 <= i < |where|
      ensures i in cells[y][x] <==> where[i] == (y, x)
    {
      BucketUpToMembers(where, |bodies|, y, x, i);
    }
  }

  lemma CellPairsMembers(bodies: seq<Body>, s: Shape, rules: EnemyRules, acc: seq<Pair>, cells: Cells, where: seq<(int, int)>,
                         y: int, x: int, yy: int, xx: int, p: Pair)
    requires Shaped(s, cells) && |where| == |bodies| && Sorted(s, where, cells) && InGrid(s, y, x)
    ensures p in CellPairs(bodies, s, rules, acc, cells, y, x, yy, xx) <==>
              p in acc || (Hit(bodies, rules, p) && where[p.first] == (y, x) && where[p.second] == (yy, xx))
  {
    if InGrid(s, yy, xx) {
      CrossPairsMembers(bodies, rules, acc, cells[y][x], cells[yy][xx], p);
    } else if Hit(bodies, rules, p) && where[p.second] == (yy, xx) {
      assert false;
    }
  }

  lemma {:induction false} NeighbourRowMembers(bodies: seq<Body>, s: Shape, rules: EnemyRules, acc: seq<Pair>, cells: Cells,
                                               where: seq<(int, int)>, y: int, x: int, yy: int, xxEnd: int, p: Pair)
    requires Shaped(s, cells) && |where| == |bodies| && Sorted(s, where, cells) && InGrid(s, y, x)
    ensures p in NeighbourRow(bodies, s, rules, acc, cells, y, x, yy, xxEnd) <==>
              p in acc ||
              (Hit(bodies, rules, p) && where[p.first] == (y, x) &&
               where[p.second].0 == yy && x - 1 <= where[p.second].1 < xxEnd)
    decreases xxEnd - x + 1
  {
    if xxEnd > x - 1 {
      var front := NeighbourRow(bodies, s, rules, acc, cells, y, x, yy, xxEnd - 1);
      NeighbourRowMembers(bodies, s, rules, acc, cells, where, y, x, yy, xxEnd - 1, p);
      CellPairsMembers(bodies, s, rules, front, cells, where, y, x, yy, xxEnd - 1, p);
    }
  }

  lemma {:induction false} NeighbourhoodMembers(bodies: seq<Body>, s: Shape, rules: EnemyRules, acc: seq<Pair>, cells: Cells,
                                                where: seq<(int, int)>, y: int, x: int, yyEnd: int, p: Pair)
    requires Shaped(s, cells) && |where| == |bodies| && Sorted(s, where, cells) && InGrid(s, y, x)
    ensures p in Neighbourhood(bodies, s, rules, acc, cells, y, x, yyEnd) <==>
              p in acc ||
              (Hit(bodies, rules, p) && where[p.first] == (y, x) &&
               y - 1 <= where[p.second].0 < yyEnd && x - 1 <= where[p.second].1 <= x + 1)
    decreases yyEnd - y + 1
  {
    if yyEnd > y - 1 {
      var front := Neighbourhood(bodies, s, rules, acc, cells, y, x, yyEnd - 1);
      NeighbourhoodMembers(bodies, s, rules, acc, cells, where, y, x, yyEnd - 1, p);
      NeighbourRowMembers(bodies, s, rules, front, cells, where, y, x, yyEnd - 1, x + 2, p);
    }
  }

  /** The central cell c and neighbour cell n are at most one row and one column apart. */
  predicate Adjacent(c: (int, int), n: (int, int))
  {
    c.0 - 1 <= n.0 <= c.0 + 1 && c.1 - 1 <= n.1 <= c.1 + 1
  }

  lemma {:induction false} ScanRowMembers(bodies: seq<Body>, s: Shape, rules: EnemyRules, acc: seq<Pair>, cells: Cells,
                                          where: seq<(int, int)>, y: int, xEnd: int, p: Pair)
    requires Shaped(s, cells) && |where| == |bodies| && Sorted(s, where, cells)
    requires 0 <= y < s.rows + 2 && xEnd <= s.cols + 2
    ensures p in ScanRow(bodies, s, rules, acc, cells, y, xEnd) <==>
              p in acc ||
              (Hit(bodies, rules, p) && where[p.first].0 == y && 1 <= where[p.first].1 < xEnd &&
               Adjacent(where[p.first], where[p.second]))
    decreases xEnd
  {
    if xEnd > 1 {
      var front := ScanRow(bodies, s, rules, acc, cells, y, xEnd - 1);
      ScanRowMembers(bodies, s, rules, acc, cells, where, y, xEnd - 1, p);
      NeighbourhoodMembers(bodies, s, rules, front, cells, where, y, xEnd - 1, y + 2, p);
      var hit := Hit(bodies, rules, p);
      AppendRowCell(hit, if hit then where[p.first] else (0, 0), if hit then where[p.second] else (0, 0), y, xEnd,
                    p in acc, p in front, p in ScanRow(bodies, s, rules, acc, cells, y, xEnd));
    }
  }

  lemma {:induction false} ScanRowsMembers(bodies: seq<Body>, s: Shape, rules: EnemyRules, acc: seq<Pair>, cells: Cells,
                                           where: seq<(int, int)>, yEnd: int, xEnd: int, p: Pair)
    requires Shaped(s, cells) && |where| == |bodies| && Sorted(s, where, cells) && yEnd <= s.rows + 2 && xEnd <= s.cols + 2
    ensures p in ScanRows(bodies, s, rules, acc, cells, yEnd, xEnd) <==>
              p in acc ||
              (Hit(bodies, rules, p) && 1 <= where[p.first].0 < yEnd && 1 <= where[p.first].1 < xEnd &&
               Adjacent(where[p.first], where[p.second]))
    decreases yEnd
  {
    if yEnd > 1 {
      var front := ScanRows(bodies, s, rules, acc, cells, yEnd - 1, xEnd);
      ScanRowsMembers(bodies, s, rules, acc, cells, where, yEnd - 1, xEnd, p);
      ScanRowMembers(bodies, s, rules, front, cells, where, yEnd - 1, xEnd, p);
      var hit := Hit(bodies, rules, p);
      AppendRow(hit, if hit then where[p.first] else (0, 0), if hit then where[p.second] else (0, 0), xEnd, yEnd,
                p in acc, p in front, p in ScanRows(bodies, s, rules, acc, cells, yEnd, xEnd));
    }
  }

  /** Extending a row of central cells by the cell (y, xEnd-1). */
  lemma AppendRowCell(hit: bool, c: (int, int), n: (int, int), y: int, xEnd: int, inAcc: bool, inFront: bool, inAll: bool)
    requires xEnd > 1
    requires inFront <==> inAcc || (hit && c.0 == y && 1 <= c.1 < xEnd - 1 && Adjacent(c, n))
    requires inAll <==> inFront || (hit && c == (y, xEnd - 1) && y - 1 <= n.0 < y + 2 && xEnd - 2 <= n.1 <= xEnd)
    ensures inAll <==> inAcc || (hit && c.0 == y && 1 <= c.1 < xEnd && Adjacent(c, n))
  {
  }

  /** Extending the scanned central rows by row yEnd-1. */
  lemma AppendRow(hit: bool, c: (int, int), n: (int, int), cols: int, yEnd: int, inAcc: bool, inFront: bool, inAll: bool)
    requires yEnd > 1
    requires inFront <==> inAcc || (hit && 1 <= c.0 < yEnd - 1 && 1 <= c.1 < cols && Adjacent(c, n))
    requires inAll <==> inFront || (hit && c.0 == yEnd - 1 && 1 <= c.1 < cols && Adjacent(c, n))
    ensures inAll <==> inAcc || (hit && 1 <= c.0 < yEnd && 1 <= c.1 < cols && Adjacent(c, n))
  {
  }

  /** A scan records exactly the hits between a body in a central cell and a body in
      that cell's 3x3 neighbourhood. */
  lemma ScanRecordsExactlyNeighbourHits(bodies: seq<Body>, s: Shape, rules: EnemyRules, p: Pair)
    requires s.Valid()
    ensures p in Scan(bodies, s, rules) <==> Recordable(bodies, s, rules, p)
  {
    LayoutIsSorted(bodies, s);
    ScanRowsMembers(bodies, s, rules, [], Layout(bodies, s), Where(bodies, s), s.rows, s.cols, p);
    if Hit(bodies, rules, p) {
      WhereIsCellOf(bodies, s, p.first);
      WhereIsCellOf(bodies, s, p.second);
    }
  }

  /** A body in the last bucket row or column is only ever the second of a pair. */
  lemma RimBodiesAreOnlyNeighbours(bodies: seq<Body>, s: Shape, rules: EnemyRules, p: Pair)
    requires s.Valid()
    requires p in Scan(bodies, s, rules)
    ensures CellOf(bodies[p.first], s).0 != s.rows && CellOf(bodies[p.first], s).1 != s.cols
  {
    ScanRecordsExactlyNeighbourHits(bodies, s, rules, p);
  }

  /** Two bodies that both sit in the last bucket row, or both in the last bucket
      column, are never tested against each other in either order, wherever they
      are within that row or column and however much they overlap. */
  lemma RimPairsNeverRecorded(bodies: seq<Body>, s: Shape, rules: EnemyRules, i: nat, j: nat)
    requires s.Valid() && i < |bodies| && j < |bodies|
    requires (CellOf(bodies[i], s).0 == s.rows && CellOf(bodies[j], s).0 == s.rows) ||
             (CellOf(bodies[i], s).1 == s.cols && CellOf(bodies[j], s).1 == s.cols)
    ensures Pair(i, j) !in Scan(bodies, s, rules) && Pair(j, i) !in Scan(bodies, s, rules)
  {
    ScanRecordsExactlyNeighbourHits(bodies, s, rules, Pair(i, j));
    ScanRecordsExactlyNeighbourHits(bodies, s, rules, Pair(j, i));
  }

  /** The scan with every interior cell as a central cell: rows 1 .. Rows and
      columns 1 .. Cols. This is the corrected scan of the finding about the
      central-cell bounds; RearrangeBodies keeps the bounds the code has. */
  function FullScan(bodies: seq<Body>, s: Shape, rules: EnemyRules): (r: seq<Pair>)
    requires s.Valid()
  {
    ScanRows(bodies, s, rules, [], Layout(bodies, s), s.rows + 1, s.cols + 1)
  }

  /** The corrected scan records exactly the colliding pairs of distinct bodies in
      neighbouring cells, wherever on the grid they are. */
  lemma FullScanRecordsEveryNeighbourHit(bodies: seq<Body>, s: Shape, rules: EnemyRules, p: Pair)
    requires s.Valid()
    ensures p in FullScan(bodies, s, rules) <==>
              Hit(bodies, rules, p) && Adjacent(CellOf(bodies[p.first], s), CellOf(bodies[p.second], s))
  {
    LayoutIsSorted(bodies, s);
    ScanRowsMembers(bodies, s, rules, [], Layout(bodies, s), Where(bodies, s), s.rows + 1, s.cols + 1, p);
    if Hit(bodies, rules, p) {
      WhereIsCellOf(bodies, s, p.first);
      WhereIsCellOf(bodies, s, p.second);
    }
  }

  /** The scan as written misses a collision the corrected scan records: two
      colliding bodies in the same cell of the last bucket row. */
  lemma RimCollisionMissed(bodies: seq<Body>, s: Shape, rules: EnemyRules, i: nat, j: nat)
    requires s.Valid() && Hit(bodies, rules, Pair(i, j))
    requires CellOf(bodies[i], s) == CellOf(bodies[j], s) && CellOf(bodies[i], s).0 == s.rows
    ensures Pair(i, j) !in Scan(bodies, s, rules)
    ensures Pair(i, j) in FullScan(bodies, s, rules)
  {
    RimPairsNeverRecorded(bodies, s, rules, i, j);
    FullScanRecordsEveryNeighbourHit(bodies, s, rules, Pair(i, j));
  }

  /** Skipping an empty central bucket loses nothing. */
  lemma {:induction false} EmptyCellPairsVanish(bodies: seq<Body>, s: Shape, rules: EnemyRules, acc: seq<Pair>, cells: Cells,
                                                y: int, x: int, yyEnd: int)
    requires Shaped(s, cells) && InGrid(s, y, x) && cells[y][x] == []
    ensures Neighbourhood(bodies, s, rules, acc, cells, y, x, yyEnd) == acc
    decreases yyEnd - y + 1
  {
    if yyEnd > y - 1 {
      EmptyCellPairsVanish(bodies, s, rules, acc, cells, y, x, yyEnd - 1);
      EmptyNeighbourRow(bodies, s, rules, acc, cells, y, x, yyEnd - 1, x + 2);
    }
  }

  lemma {:induction false} EmptyNeighbourRow(bodies: seq<Body>, s: Shape, rules: EnemyRules, acc: seq<Pair>, cells: Cells,
                                             y: int, x: int, yy: int, xxEnd: int)
    requires Shaped(s, cells) && InGrid(s, y, x) && cells[y][x] == []
    ensures NeighbourRow(bodies, s, rules, acc, cells, y, x, yy, xxEnd) == acc
    decreases xxEnd - x + 1
  {
    if xxEnd > x - 1 {
      EmptyNeighbourRow(bodies, s, rules, acc, cells, y, x, yy, xxEnd - 1);
    }
  }

  /** Skipping an empty neighbour bucket loses nothing. */
  lemma {:induction false} NoNeighboursNoPairs(bodies: seq<Body>, rules: EnemyRules, acc: seq<Pair>, central: seq<nat>)
    ensures CrossPairs(bodies, rules, acc, central, []) == acc
    decreases |central|
  {
    if central != [] {
      NoNeighboursNoPairs(bodies, rules, acc, central[..|central| - 1]);
    }
  }
  // ---------------------------------------------------------------------------
  // Rearranging the recorded pairs, and the whole relaxation

  /** `first.Rearrange(second)` for every recorded pair, in recording order. */
  function ApplyAll(bodies: seq<Body>, ps: seq<Pair>, rules: EnemyRules): (r: seq<Body>)
    requires PairsIn(bodies, ps)
    ensures |r| == |bodies|
    decreases |ps|
  {
    if ps == [] then bodies
    else Rearrange(ApplyAll(bodies, ps[..|ps| - 1], rules), ps[|ps| - 1], rules)
  }

  /** Applying the recorded pairs only moves bodies. */
  lemma {:induction false} ApplyAllOnlyMoves(bodies: seq<Body>, ps: seq<Pair>, rules: EnemyRules)
    requires PairsIn(bodies, ps)
    ensures forall k :: 0 <= k < |bodies| ==> SameButPosition(bodies[k], ApplyAll(bodies, ps, rules)[k])
    decreases |ps|
  {
    if ps != [] {
      var before := ApplyAll(bodies, ps[..|ps| - 1], rules);
      var after := ApplyAll(bodies, ps, rules);
      ApplyAllOnlyMoves(bodies, ps[..|ps| - 1], rules);
      RearrangeOnlyMoves(before, ps[|ps| - 1], rules);
      forall k | 0 <= k < |bodies| ensures SameButPosition(bodies[k], after[k]) {
        MoveToTwice(bodies[k], Position(before[k]), Position(after[k]));
      }
    }
  }

  lemma MoveToTwice(b: Body, p: Vec, q: Vec)
    ensures MoveTo(MoveTo(b, p), q) == MoveTo(b, q)
  {
  }

  /** Bodies after a bounded relaxation with `budget` passes left: each pass rescans,
      stops when it records nothing, and otherwise rearranges every recorded pair. */
  function Relaxed(bodies: seq<Body>, s: Shape, rules: EnemyRules, budget: int): (r: seq<Body>)
    requires s.Valid()
    ensures |r| == |bodies|
    decreases budget
  {
    if budget <= 0 then bodies
    else
      var ps := Scan(bodies, s, rules);
      if ps == [] then bodies
      else Relaxed(ApplyAll(bodies, ps, rules), s, rules, budget - 1)
  }

  /** How many passes (refresh callbacks) that relaxation performs: none without a
      budget, otherwise between one and the budget. */
  function Passes(bodies: seq<Body>, s: Shape, rules: EnemyRules, budget: int): (r: nat)
    requires s.Valid()
    ensures budget <= 0 ==> r == 0
    ensures 0 < budget ==> 1 <= r <= budget
    decreases budget
  {
    if budget <= 0 then 0
    else
      var ps := Scan(bodies, s, rules);
      if ps == [] then 1
      else 1 + Passes(ApplyAll(bodies, ps, rules), s, rules, budget - 1)
  }

  /** One pass of the relaxation with budget left: stop after a quiet scan, otherwise
      rearrange and go on with one pass less. */
  lemma RelaxStep(bodies: seq<Body>, s: Shape, rules: EnemyRules, budget: int)
    requires s.Valid() && budget > 0
    ensures Scan(bodies, s, rules) == [] ==>
              Relaxed(bodies, s, rules, budget) == bodies && Passes(bodies, s, rules, budget) == 1
    ensures Scan(bodies, s, rules) != [] ==>
              Relaxed(bodies, s, rules, budget) ==
                Relaxed(ApplyAll(bodies, Scan(bodies, s, rules), rules), s, rules, budget - 1) &&
              Passes(bodies, s, rules, budget) ==
                1 + Passes(ApplyAll(bodies, Scan(bodies, s, rules), rules), s, rules, budget - 1)
  {
  }

  /** What finishing a relaxation gives from a state of RearrangeBodies' loop: the
      bodies `current` after `iters` passes, `budget` passes still allowed, and
      `going` telling whether the last pass recorded a pair. The result is the
      final bodies and the total number of passes. */
  function Finish(s: Shape, rules: EnemyRules, budget: int, current: seq<Body>, going: bool, iters: nat): (r: (seq<Body>, nat))
    requires s.Valid()
    ensures |r.0| == |current| && iters <= r.1
    decreases budget
  {
    if going && 0 < budget then
      var ps := Scan(current, s, rules);
      Finish(s, rules, budget - 1, ApplyAll(current, ps, rules), ps != [], iters + 1)
    else (current, iters)
  }

  /** Finishing from the start is the relaxation: its final bodies are Relaxed and
      its pass count is Passes. */
  lemma {:induction false} FinishIsRelaxed(s: Shape, rules: EnemyRules, budget: int, current: seq<Body>, iters: nat)
    requires s.Valid()
    ensures Finish(s, rules, budget, current, true, iters)
         == (Relaxed(current, s, rules, budget), iters + Passes(current, s, rules, budget))
    decreases budget
  {
    if 0 < budget {
      var ps := Scan(current, s, rules);
      if ps == [] {
        assert ApplyAll(current, ps, rules) == current;
      } else {
        FinishIsRelaxed(s, rules, budget - 1, ApplyAll(current, ps, rules), iters + 1);
      }
    }
  }

  /** Relaxation only ever moves bodies: every variant and all non-position data survive. */
  lemma {:induction false} RelaxedOnlyMoves(bodies: seq<Body>, s: Shape, rules: EnemyRules, budget: int)
    requires s.Valid()
    ensures forall k :: 0 <= k < |bodies| ==> SameButPosition(bodies[k], Relaxed(bodies, s, rules, budget)[k])
    decreases budget
  {
    if budget > 0 {
      var ps := Scan(bodies, s, rules);
      if ps != [] {
        var next := ApplyAll(bodies, ps, rules);
        ApplyAllOnlyMoves(bodies, ps, rules);
        RelaxedOnlyMoves(next, s, rules, budget - 1);
        forall k | 0 <= k < |bodies|
          ensures SameButPosition(bodies[k], Relaxed(bodies, s, rules, budget)[k])
        {
          MoveToTwice(bodies[k], Position(next[k]), Position(Relaxed(next, s, rules, budget - 1)[k]));
        }
      }
    }
  }

  /** When no body reports a collision with another, one pass finds nothing and
      nothing moves. */
  lemma QuietBodiesStayPut(bodies: seq<Body>, s: Shape, rules: EnemyRules, budget: int)
    requires s.Valid()
    requires forall i, j :: 0 <= i < |bodies| && 0 <= j < |bodies| && i != j ==> !CheckCollision(bodies[i], bodies[j], rules)
    ensures Scan(bodies, s, rules) == []
    ensures Relaxed(bodies, s, rules, budget) == bodies
    ensures Passes(bodies, s, rules, budget) == if budget >= 1 then 1 else 0
  {
    var ps := Scan(bodies, s, rules);
    if ps != [] {
      ScanRecordsExactlyNeighbourHits(bodies, s, rules, ps[0]);
      assert false;
    }
  }

  /** With no enemy in the list (only the player, loot, ammo, grenade pickups and
      grenades) the relaxation runs exactly one pass and moves nothing. */
  lemma NoEnemiesNoMotion(bodies: seq<Body>, s: Shape, rules: EnemyRules, budget: int)
    requires s.Valid()
    requires forall i :: 0 <= i < |bodies| ==> !bodies[i].EnemyBody?
    ensures Relaxed(bodies, s, rules, budget) == bodies
    ensures Passes(bodies, s, rules, budget) == if budget >= 1 then 1 else 0
  {
    QuietBodiesStayPut(bodies, s, rules, budget);
  }

  // ---------------------------------------------------------------------------
  // The grid object

  /** CollisionSpace: the bucket grid with its fixed dimensions. */
  class CollisionSpace {
    const grid: array2<seq<nat>>
    const Cols: int
    const Rows: int
    const CellWidth: int
    const CellHeight: int

    function GridShape(): Shape
    {
      Shape(Cols, Rows, CellWidth, CellHeight)
    }

    ghost predicate Valid()
    {
      GridShape().Valid() && grid.Length0 == Rows + 2 && grid.Length1 == Cols + 2
    }

    /** The grid holds `cells`, bucket for bucket. */
    ghost predicate Holds(cells: Cells)
      reads grid
    {
      Valid() &&
      |cells| == Rows + 2 && (forall y :: 0 <= y < Rows + 2 ==> |cells[y]| == Cols + 2) &&
      forall y, x :: 0 <= y < Rows + 2 && 0 <= x < Cols + 2 ==> grid[y, x] == cells[y][x]
    }

    /** The grid indexes `bodies`: every cell holds exactly its Bucket. */
    ghost predicate Indexes(bodies: seq<Body>)
      reads grid
    {
      Valid() && Holds(Layout(bodies, GridShape()))
    }

    /** NewCollisionSpace: Rows+2 rows of Cols+2 empty buckets; cell sizes by integer division. */
    constructor (pw: int, ph: int, cols: int, rows: int)
      requires 0 < cols <= pw && 0 < rows <= ph
      ensures Valid() && fresh(grid)
      ensures Cols == cols && Rows == rows
      ensures CellWidth == pw / cols && CellHeight == ph / rows
      ensures forall y, x :: 0 <= y < Rows + 2 && 0 <= x < Cols + 2 ==> grid[y, x] == []
    {
      grid := new seq<nat>[rows + 2, cols + 2]((_, _) => []);
      Cols := cols;
      Rows := rows;
      CellWidth := pw / cols;
      CellHeight := ph / rows;
    }

    /** Clears every bucket, then appends each body's index to the bucket of its cell. */
    method UpdateCells(bodies: seq<Body>)
      requires Valid()
      modifies grid
      ensures Indexes(bodies)
    {
      for y := 0 to Rows + 2
        invariant forall yy, xx :: 0 <= yy < y && 0 <= xx < Cols + 2 ==> grid[yy, xx] == []
      {
        for x := 0 to Cols + 2
          invariant forall yy, xx :: 0 <= yy < y && 0 <= xx < Cols + 2 ==> grid[yy, xx] == []
          invariant forall xx :: 0 <= xx < x ==> grid[y, xx] == []
        {
          grid[y, x] := [];
        }
      }

      for i := 0 to |bodies|
        invariant forall y, x :: 0 <= y < Rows + 2 && 0 <= x < Cols + 2 ==>
                    grid[y, x] == BucketUpTo(Where(bodies, GridShape()), i, y, x)
      {
        var gy, gx := CellIndex(bodies[i]);
        WhereIsCellOf(bodies, GridShape(), i);
        grid[gy, gx] := grid[gy, gx] + [i];
      }
    }

    /** The bucket of body `b`: its position divided by the cell size and truncated,
        clamped to the grid, and shifted past the border ring. */
    method CellIndex(b: Body) returns (gy: int, gx: int)
      requires Valid()
      ensures (gy, gx) == CellOf(b, GridShape())
    {
      var pos := Position(b);
      gx := Truncate(pos.x / CellWidth as real);
      gy := Truncate(pos.y / CellHeight as real);
      if gx < 0 {
        gx := 0;
      } else if gx >= Cols {
        gx := Cols - 1;
      }
      if gy < 0 {
        gy := 0;
      } else if gy >= Rows {
        gy := Rows - 1;
      }
      gx := gx + 1;
      gy := gy + 1;
    }

    /** The scan of one RearrangeBodies pass over a grid that indexes `bodies`. */
    method ScanPairs(bodies: seq<Body>, rules: EnemyRules) returns (collisions: seq<Pair>)
      requires Indexes(bodies)
      ensures collisions == Scan(bodies, GridShape(), rules)
    {
      ghost var cells := Layout(bodies, GridShape());
      LayoutIndexed(bodies, GridShape());
      collisions := [];
      for y := 1 to Rows
        invariant collisions == ScanRows(bodies, GridShape(), rules, [], cells, y, Cols)
      {
        collisions := ScanRowCells(bodies, rules, cells, y, collisions);
      }
    }

    /** Appends to `before` the pairs recorded for the central cells (y, 1) .. (y, Cols-1). */
    method ScanRowCells(bodies: seq<Body>, rules: EnemyRules, ghost cells: Cells, y: int, before: seq<Pair>)
      returns (collisions: seq<Pair>)
      requires Holds(cells) && Indexed(bodies, GridShape(), cells)
      requires 1 <= y < Rows
      ensures collisions == ScanRow(bodies, GridShape(), rules, before, cells, y, Cols)
    {
      collisions := before;
      for x := 1 to Cols
        invariant collisions == ScanRow(bodies, GridShape(), rules, before, cells, y, x)
      {
        collisions := ScanCell(bodies, rules, cells, y, x, collisions);
      }
    }

    /** Appends to `before` the pairs recorded for central cell (y, x): its bucket against
        each of the nine cells around it, row by row. An empty central bucket is skipped. */
    method ScanCell(bodies: seq<Body>, rules: EnemyRules, ghost cells: Cells, y: int, x: int, before: seq<Pair>)
      returns (collisions: seq<Pair>)
      requires Holds(cells) && Indexed(bodies, GridShape(), cells)
      requires 1 <= y < Rows && 1 <= x < Cols
      ensures collisions == Neighbourhood(bodies, GridShape(), rules, before, cells, y, x, y + 2)
    {
      ghost var s := GridShape();
      var central := grid[y, x];
      if |central| == 0 {
        EmptyCellPairsVanish(bodies, s, rules, before, cells, y, x, y + 2);
        return before;
      }
      collisions := before;
      for yy := y - 1 to y + 2
        invariant collisions == Neighbourhood(bodies, s, rules, before, cells, y, x, yy)
      {
        collisions := ScanNeighbourRow(bodies, rules, cells, y, x, yy, central, collisions);
      }
    }

    /** Appends to `before` the pairs of central cell (y, x) against the neighbour cells
        (yy, x-1) .. (yy, x+1); cells outside the padded grid and empty buckets are skipped. */
    method ScanNeighbourRow(bodies: seq<Body>, rules: EnemyRules, ghost cells: Cells, y: int, x: int, yy: int,
                            central: seq<nat>, before: seq<Pair>)
      returns (collisions: seq<Pair>)
      requires Holds(cells) && Indexed(bodies, GridShape(), cells)
      requires 1 <= y < Rows && 1 <= x < Cols && central == grid[y, x]
      ensures collisions == NeighbourRow(bodies, GridShape(), rules, before, cells, y, x, yy, x + 2)
    {
      ghost var s := GridShape();
      collisions := before;
      for xx := x - 1 to x + 2
        invariant collisions == NeighbourRow(bodies, s, rules, before, cells, y, x, yy, xx)
      {
        if yy < 0 || yy >= grid.Length0 || xx < 0 || xx >= grid.Length1 {
          continue;
        }
        var around := grid[yy, xx];
        if |around| == 0 {
          NoNeighboursNoPairs(bodies, rules, collisions, central);
          continue;
        }
        collisions := CrossScan(bodies, rules, central, around, collisions);
      }
    }

    /** One Rearrange call per recorded pair, in recording order. */
    method RearrangeAll(collidables: array<Body>, collisions: seq<Pair>, rules: EnemyRules)
      requires PairsIn(collidables[..], collisions)
      modifies collidables
      ensures collidables[..] == ApplyAll(old(collidables[..]), collisions, rules)
    {
      ghost var start := collidables[..];
      for k := 0 to |collisions|
        invariant collidables[..] == ApplyAll(start, collisions[..k], rules)
      {
        assert collisions[..k + 1][..k] == collisions[..k];
        var p := collisions[k];
        var first := collidables[p.first];
        if first.EnemyBody? {
          var other := collidables[p.second];
          var (selfPos, otherPos) := rules.separate(first.enemy, other);
          collidables[p.first] := MoveTo(first, selfPos);
          collidables[p.second] := MoveTo(other, otherPos);
        }
      }
      assert collisions[..|collisions|] == collisions;
    }

    /** One iteration of RearrangeBodies' loop: refresh the grid from the current body
        list, scan it, and rearrange every recorded pair. `goal` is what finishing the
        relaxation gives, which the pass keeps. */
    method Pass(collidables: array<Body>, rules: EnemyRules, ghost budget: int, ghost iters: nat, ghost goal: (seq<Body>, nat))
      returns (anyColliding: bool)
      requires Valid() && 0 < budget
      requires Finish(GridShape(), rules, budget, collidables[..], true, iters) == goal
      modifies grid, collidables
      ensures anyColliding <==> Scan(old(collidables[..]), GridShape(), rules) != []
      ensures collidables[..] == ApplyAll(old(collidables[..]), Scan(old(collidables[..]), GridShape(), rules), rules)
      ensures Finish(GridShape(), rules, budget - 1, collidables[..], anyColliding, iters + 1) == goal
    {
      var current := collidables[..];
      UpdateCells(current);
      var collisions := ScanPairs(current, rules);
      anyColliding := |collisions| > 0;
      RearrangeAll(collidables, collisions, rules);
    }

    /** RearrangeBodies, with the refresh callback that main.go passes: UpdateCells on
        the same body list. `refreshes` counts the callback's invocations. */
    method RearrangeBodies(maxIters: int, collidables: array<Body>, rules: EnemyRules) returns (ghost refreshes: nat)
      requires Valid()
      modifies grid, collidables
      ensures collidables[..] == Relaxed(old(collidables[..]), GridShape(), rules, maxIters)
      ensures refreshes == Passes(old(collidables[..]), GridShape(), rules, maxIters)
    {
      ghost var shape := GridShape();
      ghost var start := collidables[..];
      ghost var current := start;
      ghost var goal := Finish(shape, rules, maxIters, current, true, 0);
      var anyColliding := true;
      var iters := 0;
      refreshes := 0;
      ghost var budget := maxIters;
      while anyColliding && iters < maxIters
        invariant refreshes == iters && (iters == 0 || iters <= maxIters) && budget == maxIters - iters
        invariant current == collidables[..]
        invariant Finish(shape, rules, budget, current, anyColliding, iters) == goal
        decreases maxIters - iters
      {
        refreshes := refreshes + 1;
        anyColliding := Pass(collidables, rules, budget, iters, goal);
        current := collidables[..];
        iters := iters + 1;
        budget := budget - 1;
      }
      FinishIsRelaxed(shape, rules, maxIters, start, 0);
    }
  }

  /** The two innermost loops of a scan: every central body against every other body
      of the neighbour bucket, each hit appended to `before`. */
  method CrossScan(bodies: seq<Body>, rules: EnemyRules, central: seq<nat>, around: seq<nat>, before: seq<Pair>)
    returns (collisions: seq<Pair>)
    requires IndicesIn(bodies, central) && IndicesIn(bodies, around)
    ensures collisions == CrossPairs(bodies, rules, before, central, around)
  {
    collisions := before;
    for i := 0 to |central|
      invariant collisions == CrossPairs(bodies, rules, before, central[..i], around)
    {
      var entityId := central[i];
      var entity := bodies[entityId];
      ghost var start := collisions;
      for j := 0 to |around|
        invariant collisions == PairsWith(bodies, rules, start, entityId, around[..j])
      {
        assert around[..j + 1][..j] == around[..j];
        var nearbyEntityId := around[j];
        if nearbyEntityId == entityId {
          continue;
        }
        if CheckCollision(entity, bodies[nearbyEntityId], rules) {
          collisions := collisions + [Pair(entityId, nearbyEntityId)];
        }
      }
      assert around[..|around|] == around;
      assert central[..i + 1][..i] == central[..i];
    }
    assert central[..|central|] == central;
  }
}
