/**
 * Item placement of the board (static/app.js, placeImage and loadMore): each
 * new image URL gets a world position sampled up to six times, accepted in the
 * first cell that is not yet full, and silently dropped when all six samples
 * land in full cells. Batches are guarded against reentrancy and capped.
 *
 * `Math.random` is an oracle here: each call of placeImage receives the
 * candidate positions its samples would have produced.
 */
module Placement {
  import opened Wrappers
  import opened Grid

  const MAX_ATTEMPTS: nat := 6
  const MAX_PER_BATCH: nat := 28
  /** The world grows by this factor before each non-empty batch. */
  const GROWTH: real := 1.06

  /** An art element on the canvas: its image URL and its current world position. */
  datatype Item = Item(url: string, pos: Point)

  /**
   * What placement has built: the `used` URLs, the `occupancy` grid, the items
   * on the canvas in insertion order, and the position each item had when it
   * was placed (items move later; the grid does not follow them).
   */
  datatype Board = Board(used: set<string>, occupancy: Occupancy, items: seq<Item>, origins: seq<Point>)

  const EmptyBoard: Board := Board({}, map[], [], [])

  function Urls(items: seq<Item>): set<string>
  {
    set it | it in items :: it.url
  }

  ghost predicate DistinctUrls(items: seq<Item>)
  {
    forall i, j | 0 <= i < j < |items| :: items[i].url != items[j].url
  }

  /** No cell of the grid holds more than MAX_PER_CELL placements. */
  ghost predicate Dense(occ: Occupancy)
  {
    forall c | c in occ :: occ[c] <= MAX_PER_CELL
  }

  /** The invariant of the board: the density bound, and one used URL per item. */
  ghost predicate Inv(b: Board)
  {
    && Dense(b.occupancy)
    && |b.origins| == |b.items|
    && b.used == Urls(b.items)
    && DistinctUrls(b.items)
  }

  lemma EmptyBoardInv()
    ensures Inv(EmptyBoard)
  {
    assert Urls([]) == {};
  }

  /**
   * The attempt loop of placeImage: the index of the first of the MAX_ATTEMPTS
   * candidates, starting at `from`, whose cell is below the cap, or None when
   * every one of them is full.
   */
  function FirstFree(occ: Occupancy, cands: seq<Point>, from: nat): (r: Option<nat>)
    requires from <= MAX_ATTEMPTS <= |cands|
    decreases MAX_ATTEMPTS - from
    ensures r.Some? ==> from <= r.value < MAX_ATTEMPTS && OccGet(occ, cands[r.value]) < MAX_PER_CELL
    ensures forall j | from <= j < (if r.Some? then r.value else MAX_ATTEMPTS) ::
              OccGet(occ, cands[j]) >= MAX_PER_CELL
  {
    if from == MAX_ATTEMPTS then None
    else if OccGet(occ, cands[from]) < MAX_PER_CELL then Some(from)
    else FirstFree(occ, cands, from + 1)
  }

  /** Adding an item with a fresh URL extends the URL set by that URL. */
  lemma UrlsSnoc(items: seq<Item>, it: Item)
    ensures Urls(items + [it]) == Urls(items) + {it.url}
  {
    var xs := items + [it];
    forall u | u in Urls(xs) ensures u in Urls(items) + {it.url} {
      var x :| x in xs && x.url == u;
      if x != it {
        var k :| 0 <= k < |xs| && xs[k] == x;
        assert items[k] == x;
      }
    }
    forall u | u in Urls(items) ensures u in Urls(xs) {
      var x :| x in items && x.url == u;
      assert x in xs;
    }
    assert it in xs;
  }

  /** The URLs of the items, position by position. */
  lemma UrlsHas(items: seq<Item>, i: nat)
    requires i < |items|
    ensures items[i].url in Urls(items)
  {
    assert items[i] in items;
  }

  /**
   * placeImage on the abstract board. A used URL changes nothing; otherwise the
   * first candidate below the cap is taken, or the URL is dropped.
   */
  function PlaceStep(b: Board, url: string, cands: seq<Point>): (r: Board)
    requires |cands| >= MAX_ATTEMPTS
    ensures Inv(b) ==> Inv(r)
    ensures url in b.used ==> r == b
    ensures b.used <= r.used <= b.used + {url}
    ensures b.items <= r.items && |r.items| <= |b.items| + 1
  {
    if url in b.used then b
    else match FirstFree(b.occupancy, cands, 0)
      case None => b
      case Some(k) =>
        var p := cands[k];
        var r := Board(b.used + {url}, OccInc(b.occupancy, p), b.items + [Item(url, p)], b.origins + [p]);
        assert Inv(b) ==> Inv(r) by {
          if Inv(b) {
            UrlsSnoc(b.items, Item(url, p));
            forall i, j | 0 <= i < j < |r.items| ensures r.items[i].url != r.items[j].url {
              if j == |b.items| {
                UrlsHas(b.items, i);
              }
            }
          }
        }
        r
  }

  /**
   * A fresh URL whose candidates all land in full cells is dropped: nothing
   * changes. Otherwise it is placed at the first free candidate, becomes used,
   * and exactly that candidate's cell goes up by one.
   */
  lemma PlaceStepOutcome(b: Board, url: string, cands: seq<Point>)
    requires |cands| >= MAX_ATTEMPTS && url !in b.used
    ensures var r := PlaceStep(b, url, cands);
            match FirstFree(b.occupancy, cands, 0)
            case None => r == b
            case Some(k) =>
              && r.used == b.used + {url}
              && r.items == b.items + [Item(url, cands[k])]
              && forall c :: CountAt(r.occupancy, c) == CountAt(b.occupancy, c) + (if c == KeyFor(cands[k]) then 1 else 0)
  {
  }

  /** The urls of a batch placed in order, candidate list `cands[i]` for `urls[i]`. */
  function PlaceAll(b: Board, urls: seq<string>, cands: seq<seq<Point>>): (r: Board)
    requires |urls| <= |cands|
    requires forall i | 0 <= i < |cands| :: |cands[i]| >= MAX_ATTEMPTS
    decreases |urls|
    ensures Inv(b) ==> Inv(r)
    ensures b.used <= r.used
    ensures forall u | u in r.used :: u in b.used || u in urls
    ensures b.items <= r.items && |r.items| <= |b.items| + |urls|
  {
    if urls == [] then b
    else
      var n := |urls| - 1;
      PlaceStep(PlaceAll(b, urls[..n], cands), urls[n], cands[n])
  }

  /**
   * The grid counts placements: every cell's count is the number of items
   * whose placement position fell in it (later moves are not counted).
   */
  ghost predicate Counted(b: Board)
  {
    b.occupancy == Histogram(b.origins)
  }

  /**
   * On a counted board occGet reads, for any position, how many placements fell
   * in its cell: the density the placement test compares against the limit.
   */
  lemma OccGetCounted(b: Board, p: Point)
    requires Counted(b)
    ensures OccGet(b.occupancy, p) == CellCount(b.origins, KeyFor(p))
  {
    HistogramCounts(b.origins, KeyFor(p));
  }

  /** placeImage keeps the grid equal to the count of placements per cell. */
  lemma PlaceStepCounted(b: Board, url: string, cands: seq<Point>)
    requires |cands| >= MAX_ATTEMPTS && Counted(b)
    ensures Counted(PlaceStep(b, url, cands))
  {
    var r := PlaceStep(b, url, cands);
    if r != b {
      assert r.origins[..|r.origins| - 1] == b.origins;
    }
  }

  /** A batch keeps the grid equal to the count of placements per cell. */
  lemma {:induction false} PlaceAllCounted(b: Board, urls: seq<string>, cands: seq<seq<Point>>)
    requires |urls| <= |cands|
    requires forall i | 0 <= i < |cands| :: |cands[i]| >= MAX_ATTEMPTS
    requires Counted(b)
    ensures Counted(PlaceAll(b, urls, cands))
  {
    if urls != [] {
      var n := |urls| - 1;
      PlaceAllCounted(b, urls[..n], cands);
      PlaceStepCounted(PlaceAll(b, urls[..n], cands), urls[n], cands[n]);
    }
  }

  /** One more URL of the batch: PlaceAll on a longer prefix is one more PlaceStep. */
  lemma PlaceAllStep(b: Board, urls: seq<string>, n: nat, cands: seq<seq<Point>>)
    requires n < |urls| && n < |cands|
    requires forall i | 0 <= i < |cands| :: |cands[i]| >= MAX_ATTEMPTS
    ensures PlaceAll(b, urls[..n + 1], cands) == PlaceStep(PlaceAll(b, urls[..n], cands), urls[n], cands[n])
  {
    assert urls[..n + 1][..n] == urls[..n];
  }

  /** A batch of URLs that are all placed already changes nothing. */
  lemma {:induction false} PlaceAllPlaced(b: Board, urls: seq<string>, cands: seq<seq<Point>>)
    requires |urls| <= |cands|
    requires forall i | 0 <= i < |cands| :: |cands[i]| >= MAX_ATTEMPTS
    requires forall i | 0 <= i < |urls| :: urls[i] in b.used
    ensures PlaceAll(b, urls, cands) == b
  {
    if urls != [] {
      var n := |urls| - 1;
      PlaceAllPlaced(b, urls[..n], cands);
    }
  }

  /** On an empty board the first candidate is always free. */
  lemma PlaceOnEmpty(url: string, c: seq<Point>)
    requires |c| >= MAX_ATTEMPTS
    ensures PlaceStep(EmptyBoard, url, c) == Board({url}, map[KeyFor(c[0]) := 1], [Item(url, c[0])], [c[0]])
  {
    assert FirstFree(map[], c, 0) == Some(0);
  }

  /** A cell holding one placement still has room for another. */
  lemma PlaceSecond(b: Board, url: string, c: seq<Point>)
    requires |c| >= MAX_ATTEMPTS && url !in b.used
    requires b.occupancy.Values <= {1}
    ensures PlaceStep(b, url, c).items == b.items + [Item(url, c[0])]
    ensures PlaceStep(b, url, c).used == b.used + {url}
  {
    var k := KeyFor(c[0]);
    if k in b.occupancy {
      assert b.occupancy[k] in b.occupancy.Values;
    }
    assert FirstFree(b.occupancy, c, 0) == Some(0);
  }

  /**
   * A batch of ["a.png", "b.png"] on an empty board places both at their first
   * candidates; a later batch of ["a.png"] changes nothing.
   */
  lemma TwoImageBatch(c1: seq<Point>, c2: seq<Point>, c3: seq<Point>)
    requires |c1| >= MAX_ATTEMPTS && |c2| >= MAX_ATTEMPTS && |c3| >= MAX_ATTEMPTS
    ensures var b := PlaceAll(EmptyBoard, ["a.png", "b.png"], [c1, c2]);
            && b.used == {"a.png", "b.png"}
            && b.items == [Item("a.png", c1[0]), Item("b.png", c2[0])]
            && PlaceAll(b, ["a.png"], [c3]) == b
  {
    var cands := [c1, c2];
    var urls := ["a.png", "b.png"];
    PlaceAllStep(EmptyBoard, urls, 0, cands);
    PlaceAllStep(EmptyBoard, urls, 1, cands);
    assert urls[..0] == [] && urls[..1] == ["a.png"] && urls[..2] == urls;
    PlaceOnEmpty("a.png", c1);
    var b1 := PlaceStep(EmptyBoard, "a.png", c1);
    assert b1.occupancy.Values == {1};
    PlaceSecond(b1, "b.png", c2);
    var b := PlaceStep(b1, "b.png", c2);
    PlaceAllPlaced(b, ["a.png"], [c3]);
  }

  /** Moving item `i` to `p`: the drag writes only the item's position, never the grid. */
  function MoveTo(b: Board, i: nat, p: Point): (r: Board)
    requires i < |b.items|
    ensures Inv(b) ==> Inv(r)
    ensures r.used == b.used && r.occupancy == b.occupancy && r.origins == b.origins
    ensures |r.items| == |b.items| && r.items[i] == Item(b.items[i].url, p)
    ensures forall j | 0 <= j < |b.items| && j != i :: r.items[j] == b.items[j]
  {
    var items := b.items[i := Item(b.items[i].url, p)];
    assert Urls(items) == Urls(b.items) by {
      forall u | u in Urls(items) ensures u in Urls(b.items) {
        var x :| x in items && x.url == u;
        var k :| 0 <= k < |items| && items[k] == x;
        UrlsHas(b.items, k);
      }
      forall u | u in Urls(b.items) ensures u in Urls(items) {
        var x :| x in b.items && x.url == u;
        var k :| 0 <= k < |b.items| && b.items[k] == x;
        UrlsHas(items, k);
      }
    }
    Board(b.used, b.occupancy, items, b.origins)
  }

  /** The module state of static/app.js that placement reads and writes. */
  class World {
    var used: set<string>
    var occupancy: Occupancy
    var items: seq<Item>
    ghost var origins: seq<Point>
    var worldWidth: real
    var worldHeight: real
    var loadingBatch: bool

    ghost function Snapshot(): Board
      reads this
    {
      Board(used, occupancy, items, origins)
    }

    /**
     * The board invariant. That the grid counts the placements (Counted) is
     * kept apart: each operation below preserves it as a separate postcondition.
     */
    ghost predicate Valid()
      reads this
    {
      Inv(Snapshot())
    }

    /** The initial state: empty set, empty map, the canvas size, no batch in flight. */
    constructor (width: real, height: real)
      ensures Valid() && Counted(Snapshot()) && Snapshot() == EmptyBoard
      ensures worldWidth == width && worldHeight == height && !loadingBatch
    {
      used, occupancy, items := {}, map[], [];
      origins := [];
      worldWidth, worldHeight := width, height;
      loadingBatch := false;
      EmptyBoardInv();
    }

    /** placeImage(url), with `candidates` the positions the six samples would produce. */
    method PlaceImage(url: string, candidates: seq<Point>)
      requires Valid() && |candidates| >= MAX_ATTEMPTS
      modifies this`used, this`occupancy, this`items, this`origins
      ensures Valid() && (Counted(old(Snapshot())) ==> Counted(Snapshot()))
      ensures Snapshot() == PlaceStep(old(Snapshot()), url, candidates)
    {
      ghost var placedBoard := PlaceStep(Snapshot(), url, candidates);
      if url in used {
        return;
      }
      var attempts := MAX_ATTEMPTS;
      var p := Point(0.0, 0.0);
      while attempts > 0
        invariant 0 <= attempts <= MAX_ATTEMPTS
        invariant FirstFree(occupancy, candidates, 0) == FirstFree(occupancy, candidates, MAX_ATTEMPTS - attempts)
        invariant attempts < MAX_ATTEMPTS ==> p == candidates[MAX_ATTEMPTS - attempts - 1]
      {
        attempts := attempts - 1;
        p := candidates[MAX_ATTEMPTS - attempts - 1];
        if OccGet(occupancy, p) < MAX_PER_CELL {
          break;
        }
      }
      if OccGet(occupancy, p) >= MAX_PER_CELL {
        assert FirstFree(occupancy, candidates, 0).None?;
        return;
      }
      assert FirstFree(occupancy, candidates, 0) == Some(MAX_ATTEMPTS - attempts - 1);
      used := used + {url};
      occupancy := OccInc(occupancy, p);
      items := items + [Item(url, p)];
      origins := origins + [p];
      assert Snapshot() == placedBoard;
      if Counted(old(Snapshot())) {
        PlaceStepCounted(old(Snapshot()), url, candidates);
      }
    }

    /**
     * loadMore up to its `await`: nothing happens while a batch is in flight;
     * otherwise the batch starts and the flag is raised.
     */
    method LoadMore() returns (started: bool)
      modifies this`loadingBatch
      ensures started <==> !old(loadingBatch)
      ensures loadingBatch
    {
      if loadingBatch {
        return false;
      }
      loadingBatch := true;
      return true;
    }

    /**
     * loadMore after its `await`: `response` is `res.images || []`, or None
     * when the request failed. A non-empty list grows the world, then the
     * first MAX_PER_BATCH URLs are each offered to placeImage; the flag is
     * lowered in every case.
     */
    method FinishBatch(response: Option<seq<string>>, candidates: seq<seq<Point>>)
      requires Valid() && loadingBatch
      requires |candidates| >= MAX_PER_BATCH
      requires forall i | 0 <= i < |candidates| :: |candidates[i]| >= MAX_ATTEMPTS
      modifies this`used, this`occupancy, this`items, this`origins, this`worldWidth, this`worldHeight, this`loadingBatch
      ensures Valid() && !loadingBatch && (Counted(old(Snapshot())) ==> Counted(Snapshot()))
      ensures var urls := if response.Some? then response.value else [];
              if urls == [] then
                Snapshot() == old(Snapshot()) && worldWidth == old(worldWidth) && worldHeight == old(worldHeight)
              else
                && worldWidth == old(worldWidth) * GROWTH && worldHeight == old(worldHeight) * GROWTH
                && Snapshot() == PlaceAll(old(Snapshot()), urls[..Min(|urls|, MAX_PER_BATCH)], candidates)
      ensures |old(items)| <= |items| <= |old(items)| + MAX_PER_BATCH
    {
      var urls := if response.Some? then response.value else [];
      if urls != [] {
        worldWidth := worldWidth * GROWTH;
        worldHeight := worldHeight * GROWTH;
        PlaceBatch(urls, candidates);
        if Counted(old(Snapshot())) {
          PlaceAllCounted(old(Snapshot()), urls[..Min(|urls|, MAX_PER_BATCH)], candidates);
        }
      }
      loadingBatch := false;
    }

    /** The batch loop of loadMore: placeImage on each URL until MAX_PER_BATCH calls were made. */
    method PlaceBatch(urls: seq<string>, candidates: seq<seq<Point>>)
      requires Valid()
      requires |candidates| >= MAX_PER_BATCH
      requires forall i | 0 <= i < |candidates| :: |candidates[i]| >= MAX_ATTEMPTS
      modifies this`used, this`occupancy, this`items, this`origins
      ensures Valid()
      ensures Snapshot() == PlaceAll(old(Snapshot()), urls[..Min(|urls|, MAX_PER_BATCH)], candidates)
    {
      ghost var b0 := Snapshot();
      // `placed` counts calls, duplicates and drops included; it also indexes the list
      var placed := 0;
      while placed < |urls|
        invariant placed <= |urls| && placed < MAX_PER_BATCH
        invariant Valid()
        invariant Snapshot() == PlaceAll(b0, urls[..placed], candidates)
      {
        PlaceAllStep(b0, urls, placed, candidates);
        PlaceImage(urls[placed], candidates[placed]);
        placed := placed + 1;
        if placed >= MAX_PER_BATCH {
          break;
        }
      }
      assert placed == Min(|urls|, MAX_PER_BATCH);
    }

    /** Writing a dragged item's position (the dataset and style updates of updateImageDrag). */
    method MoveItem(i: nat, p: Point)
      requires Valid() && i < |items|
      modifies this`items
      ensures Valid() && (Counted(old(Snapshot())) ==> Counted(Snapshot()))
      ensures Snapshot() == MoveTo(old(Snapshot()), i, p)
    {
      ghost var moved := MoveTo(Snapshot(), i, p);
      items := items[i := Item(items[i].url, p)];
      assert Snapshot() == moved;
    }
  }
}
