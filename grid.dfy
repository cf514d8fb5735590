/**
 * The occupancy grid of the board (static/app.js): a coarse spatial hash from
 * world positions to 360-pixel cells, counting how many items were placed in
 * each cell. It is append-only: counts only ever grow.
 */
module Grid {

  const GRID_SIZE: real := 360.0
  const MAX_PER_CELL: nat := 6

  /** A world position. The source uses JavaScript numbers; they are exact reals here. */
  datatype Point = Point(x: real, y: real)

  /** A cell key. The source formats it as the string "ix,iy"; distinct cells give distinct strings. */
  datatype Cell = Cell(ix: int, iy: int)

  /** The `occupancy` Map: cell key to count. */
  type Occupancy = map<Cell, nat>

  /** The half-open square of world positions that belongs to cell `c`. */
  ghost predicate InCell(p: Point, c: Cell)
  {
    && GRID_SIZE * c.ix as real <= p.x < GRID_SIZE * (c.ix as real + 1.0)
    && GRID_SIZE * c.iy as real <= p.y < GRID_SIZE * (c.iy as real + 1.0)
  }

  /** keyFor: floor of each coordinate divided by the grid size. */
  function KeyFor(p: Point): (r: Cell)
    ensures InCell(p, r)
  {
    Cell((p.x / GRID_SIZE).Floor, (p.y / GRID_SIZE).Floor)
  }

  /** Every position lies in exactly one cell, and that cell is its key. */
  lemma KeyForIsTheCell(p: Point, c: Cell)
    ensures KeyFor(p) == c <==> InCell(p, c)
  {
    var k := KeyFor(p);
    assert InCell(p, k);
    if InCell(p, c) {
      assert GRID_SIZE * c.ix as real < GRID_SIZE * (k.ix as real + 1.0);
      assert GRID_SIZE * k.ix as real < GRID_SIZE * (c.ix as real + 1.0);
      assert c.ix < k.ix + 1 && k.ix < c.ix + 1;
      assert GRID_SIZE * c.iy as real < GRID_SIZE * (k.iy as real + 1.0);
      assert GRID_SIZE * k.iy as real < GRID_SIZE * (c.iy as real + 1.0);
      assert c.iy < k.iy + 1 && k.iy < c.iy + 1;
    }
  }

  /** The count stored for cell `c`, 0 for a cell never incremented. */
  function CountAt(occ: Occupancy, c: Cell): nat
  {
    if c in occ then occ[c] else 0
  }

  /** occGet: the count of the cell holding `p`, 0 for a cell with no entry. */
  function OccGet(occ: Occupancy, p: Point): (r: nat)
    ensures KeyFor(p) !in occ ==> r == 0
    ensures KeyFor(p) in occ ==> r == occ[KeyFor(p)]
  {
    CountAt(occ, KeyFor(p))
  }

  /** occInc: the cell holding `p` goes up by one; every other cell keeps its count. */
  function OccInc(occ: Occupancy, p: Point): (r: Occupancy)
    ensures r.Keys == occ.Keys + {KeyFor(p)}
    ensures forall c :: CountAt(r, c) == CountAt(occ, c) + (if c == KeyFor(p) then 1 else 0)
  {
    occ[KeyFor(p) := OccGet(occ, p) + 1]
  }

  /** clamp(n, a, b) = max(a, min(b, n)). It is defined in the source but never called. */
  function Clamp(n: real, a: real, b: real): (r: real)
    ensures a <= b ==> a <= r <= b
    ensures a <= n <= b ==> r == n
    ensures n < a ==> r == a
    ensures a <= b < n ==> r == b
    ensures b < a ==> r == a
  {
    var m := if b <= n then b else n;
    if a >= m then a else m
  }

  /** The grid built by incrementing the cell of each position of `ps`, in order. */
  function Histogram(ps: seq<Point>): Occupancy
  {
    if ps == [] then map[] else OccInc(Histogram(ps[..|ps| - 1]), ps[|ps| - 1])
  }

  /** How many positions of `ps` fall in cell `c`. */
  function CellCount(ps: seq<Point>, c: Cell): nat
  {
    if ps == [] then 0
    else CellCount(ps[..|ps| - 1], c) + (if KeyFor(ps[|ps| - 1]) == c then 1 else 0)
  }

  /**
   * The count occGet reads for a position equals the number of increments made
   * in its cell; in particular a cell never incremented reads 0.
   */
  lemma {:induction false} HistogramCounts(ps: seq<Point>, c: Cell)
    ensures CountAt(Histogram(ps), c) == CellCount(ps, c)
  {
    if ps != [] {
      HistogramCounts(ps[..|ps| - 1], c);
    }
  }

  /** Nothing is stored for a cell that no position of `ps` falls in. */
  lemma {:induction false} HistogramKeys(ps: seq<Point>, c: Cell)
    ensures c in Histogram(ps) <==> exists i :: 0 <= i < |ps| && KeyFor(ps[i]) == c
  {
    if ps != [] {
      var init := ps[..|ps| - 1];
      HistogramKeys(init, c);
      if c in Histogram(init) {
        var i :| 0 <= i < |init| && KeyFor(init[i]) == c;
        assert ps[i] == init[i];
      }
      if exists i :: 0 <= i < |ps| && KeyFor(ps[i]) == c {
        var i :| 0 <= i < |ps| && KeyFor(ps[i]) == c;
        if i < |init| {
          assert init[i] == ps[i];
        }
      }
    }
  }
}
