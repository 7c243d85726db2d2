/**
 * The tile-pyramid enumerator `count_tiles` of the tiling dialog: a
 * depth-first walk of the quadtree from a given tile that prunes a subtree
 * only when the requested extent misses its root, includes a tile when its
 * zoom is in range and either outside tiles are rendered or some layer's
 * extent hits it, and always descends while the zoom is below the maximum.
 *
 * The two geometric tests (the extent against `tile.toRectangle()`, and a
 * layer's extent transformed to EPSG:4326 against it) are floating-point
 * code outside the core; a request carries them as two predicates.
 */
module Enumerator {
  import opened Wrappers
  import opened Tiles
  import opened Layers

  datatype Request = Request(
    layers: seq<Layer>,
    extentHits: Tile -> bool,
    layerHits: (Layer, Tile) -> bool,
    minZoom: int,
    maxZoom: int,
    renderOutside: bool)

  predicate SomeLayerHits(req: Request, t: Tile) {
    exists i :: 0 <= i < |req.layers| && req.layerHits(req.layers[i], t)
  }

  predicate InZoomRange(req: Request, t: Tile) {
    req.minZoom <= t.z <= req.maxZoom
  }

  /** The inclusion test a visited tile must pass to be listed. */
  predicate Included(req: Request, t: Tile) {
    InZoomRange(req, t) && (req.renderOutside || SomeLayerHits(req, t))
  }

  function Own(req: Request, t: Tile): seq<Tile> {
    if Included(req, t) then [t] else []
  }

  /** What a child's result adds to its parent's list: `None` and `[]` add nothing. */
  function Flat(r: Option<seq<Tile>>): seq<Tile> {
    if r.Some? then r.value else []
  }

  /**
   * The result of `count_tiles(t, ...)`: `None` when the extent misses `t`,
   * otherwise `t` itself when included, followed, while the zoom is below the
   * maximum, by the results of the four children in the order (2x, 2y),
   * (2x, 2y+1), (2x+1, 2y), (2x+1, 2y+1).
   */
  function Enumerate(req: Request, t: Tile): (r: Option<seq<Tile>>)
    ensures r.None? <==> !req.extentHits(t)
    decreases req.maxZoom - t.z, 5
  {
    if !req.extentHits(t) then None
    else if t.z < req.maxZoom then Some(Collected(req, t, 4))
    else Some(Own(req, t))
  }

  /** The `i`-th child in the order of the source's nested `x` / `y` loops. */
  function LoopChild(t: Tile, i: nat): (c: Tile)
    requires i < 4
    ensures c.z == t.z + 1 && c.tms == t.tms
  {
    if i == 0 then Child(t, 0, 0) else if i == 1 then Child(t, 0, 1)
    else if i == 2 then Child(t, 1, 0) else Child(t, 1, 1)
  }

  /** The list `count_tiles` has built once it has extended by the first `n` children. */
  function Collected(req: Request, t: Tile, n: nat): seq<Tile>
    requires t.z < req.maxZoom && n <= 4
    decreases req.maxZoom - t.z, n
  {
    if n == 0 then Own(req, t) else Collected(req, t, n - 1) + Flat(Enumerate(req, LoopChild(t, n - 1)))
  }

  /** One pass of the inner loop, at column `x` and row `y` of the children. */
  lemma CollectedStep(req: Request, t: Tile, x: nat, y: nat)
    requires t.z < req.maxZoom && 2 * t.x <= x < 2 * t.x + 2 && 2 * t.y <= y < 2 * t.y + 2
    ensures Collected(req, t, 2 * (x - 2 * t.x) + (y - 2 * t.y) + 1)
            == Collected(req, t, 2 * (x - 2 * t.x) + (y - 2 * t.y)) + Flat(Enumerate(req, Tile(x, y, t.z + 1, t.tms)))
  {
    var n := 2 * (x - 2 * t.x) + (y - 2 * t.y);
    assert LoopChild(t, n) == Tile(x, y, t.z + 1, t.tms);
  }

  lemma AllCollected(req: Request, t: Tile)
    requires req.extentHits(t) && t.z < req.maxZoom
    ensures Enumerate(req, t) == Some(Collected(req, t, 4))
  {
    assert Collected(req, t, 4) == Collected(req, t, 3) + Flat(Enumerate(req, Child(t, 1, 1)));
    assert Collected(req, t, 3) == Collected(req, t, 2) + Flat(Enumerate(req, Child(t, 1, 0)));
    assert Collected(req, t, 2) == Collected(req, t, 1) + Flat(Enumerate(req, Child(t, 0, 1)));
    assert Collected(req, t, 1) == Own(req, t) + Flat(Enumerate(req, Child(t, 0, 0)));
  }

  /**
   * The first half of `count_tiles`: the tile itself, when its zoom is in
   * range and outside tiles are rendered or the layer loop finds a layer
   * whose extent hits it (the loop stops at that first hit).
   */
  method OwnTiles(req: Request, tile: Tile) returns (tiles: seq<Tile>)
    ensures tiles == Own(req, tile)
  {
    tiles := [];
    if req.minZoom <= tile.z && tile.z <= req.maxZoom {
      if !req.renderOutside {
        for i := 0 to |req.layers|
          invariant tiles == []
          invariant forall k :: 0 <= k < i ==> !req.layerHits(req.layers[k], tile)
        {
          if req.layerHits(req.layers[i], tile) {
            tiles := tiles + [tile];
            break;
          }
        }
      } else {
        tiles := tiles + [tile];
      }
    }
  }

  /**
   * `count_tiles` as the source writes it: a recursive method whose body
   * collects the tile with a layer loop that stops at the first hit, then
   * extends the list with each child's non-empty result in the nested
   * `x` / `y` loops.
   */
  method CountTiles(req: Request, tile: Tile) returns (r: Option<seq<Tile>>)
    ensures r == Enumerate(req, tile)
    decreases req.maxZoom - tile.z
  {
    if !req.extentHits(tile) {
      return None;
    }
    var tiles := OwnTiles(req, tile);
    if tile.z < req.maxZoom {
      for x := 2 * tile.x to 2 * tile.x + 2
        invariant tiles == Collected(req, tile, 2 * (x - 2 * tile.x))
      {
        for y := 2 * tile.y to 2 * tile.y + 2
          invariant tiles == Collected(req, tile, 2 * (x - 2 * tile.x) + (y - 2 * tile.y))
        {
          var subTiles := CountTiles(req, Tile(x, y, tile.z + 1, tile.tms));
          CollectedStep(req, tile, x, y);
          ghost var extended := tiles + Flat(subTiles);
          if subTiles.Some? && |subTiles.value| > 0 {
            tiles := tiles + subTiles.value;
          } else {
            assert extended == tiles;
          }
          assert tiles == extended;
        }
      }
      AllCollected(req, tile);
    }
    return Some(tiles);
  }

  // ----- The four children -----

  lemma LoopChildBelow(t: Tile, i: nat)
    requires i < 4
    ensures Parent(LoopChild(t, i)) == t && Below(LoopChild(t, i), t)
  {
    if i == 0 { ChildBelow(t, 0, 0); }
    else if i == 1 { ChildBelow(t, 0, 1); }
    else if i == 2 { ChildBelow(t, 1, 0); }
    else { ChildBelow(t, 1, 1); }
  }

  /** Every tile whose parent is `t` is visited by exactly one iteration of the loops. */
  lemma LoopChildOf(t: Tile, c: Tile) returns (i: nat)
    requires c.z == t.z + 1 && Parent(c) == t
    ensures i < 4 && LoopChild(t, i) == c
  {
    ChildOfParent(t, c);
    i := 2 * (c.x % 2) + c.y % 2;
  }

  lemma LoopChildDistinct(t: Tile, i: nat, j: nat)
    requires i < 4 && j < 4 && LoopChild(t, i) == LoopChild(t, j)
    ensures i == j
  {
  }

  /** A tile of the list built so far is the tile itself or comes from an earlier child. */
  lemma {:induction false} CollectedMember(req: Request, t: Tile, n: nat, u: Tile) returns (j: int)
    requires t.z < req.maxZoom && n <= 4
    requires u in Collected(req, t, n)
    ensures j == -1 ==> u in Own(req, t)
    ensures j != -1 ==> 0 <= j < n && u in Flat(Enumerate(req, LoopChild(t, j)))
  {
    if n == 0 || u in Own(req, t) {
      j := -1;
    } else if u in Flat(Enumerate(req, LoopChild(t, n - 1))) {
      j := n - 1;
    } else {
      j := CollectedMember(req, t, n - 1, u);
    }
  }

  /** Each child's result ends up in the list once the loops have passed that child. */
  lemma {:induction false} BlockInCollected(req: Request, t: Tile, i: nat, n: nat, u: Tile)
    requires t.z < req.maxZoom && i < n <= 4
    requires u in Flat(Enumerate(req, LoopChild(t, i)))
    ensures u in Collected(req, t, n)
  {
    if i < n - 1 {
      BlockInCollected(req, t, i, n - 1, u);
    }
  }

  /** The tile itself, when included, stays at the head of the list. */
  lemma {:induction false} OwnInCollected(req: Request, t: Tile, n: nat, u: Tile)
    requires t.z < req.maxZoom && n <= 4
    requires u in Own(req, t)
    ensures u in Collected(req, t, n)
  {
    if n > 0 {
      OwnInCollected(req, t, n - 1, u);
    }
  }

  // ----- What the enumeration contains -----

  /** Every tile on the way down from `t` to `u` (both included) hits the extent. */
  predicate ExtentHitsPath(req: Request, u: Tile, t: Tile) {
    forall k: nat :: t.z <= k <= u.z ==> req.extentHits(AncestorAt(u, k))
  }

  /** Every listed tile lies below the start tile and passed the inclusion test. */
  lemma {:induction false} ListedBelow(req: Request, t: Tile, u: Tile)
    requires u in Flat(Enumerate(req, t))
    ensures req.extentHits(t) && Below(u, t) && Included(req, u)
    decreases req.maxZoom - t.z
  {
    if t.z < req.maxZoom {
      var j := CollectedMember(req, t, 4, u);
      if j != -1 {
        var c := LoopChild(t, j);
        ListedBelow(req, c, u);
        LoopChildBelow(t, j);
        BelowTransitive(u, c, t);
      }
    }
  }

  /** The path from the start tile to a listed tile never leaves the extent. */
  lemma {:induction false} ListedPathHits(req: Request, t: Tile, u: Tile)
    requires u in Flat(Enumerate(req, t))
    ensures t.z <= u.z && ExtentHitsPath(req, u, t)
    decreases req.maxZoom - t.z
  {
    ListedBelow(req, t, u);
    var j := -1;
    if t.z < req.maxZoom {
      j := CollectedMember(req, t, 4, u);
    }
    if j == -1 {
      assert u == t && AncestorAt(u, t.z) == t;
    } else {
      var c := LoopChild(t, j);
      ListedPathHits(req, c, u);
      forall k: nat | t.z <= k <= u.z
        ensures req.extentHits(AncestorAt(u, k))
      {
        if k == t.z {
          assert AncestorAt(u, k) == t;
        } else {
          assert c.z <= k;
        }
      }
    }
  }

  /** A tile below the start tile, on an unpruned path and passing the inclusion test, is listed. */
  lemma {:induction false} ReachedTilesListed(req: Request, t: Tile, u: Tile)
    requires Below(u, t) && ExtentHitsPath(req, u, t) && Included(req, u)
    ensures u in Flat(Enumerate(req, t))
    decreases req.maxZoom - t.z
  {
    assert req.extentHits(AncestorAt(u, t.z));
    if u.z > t.z {
      var c := AncestorAt(u, t.z + 1);
      AncestorStep(u, t.z);
      var i := LoopChildOf(t, c);
      AncestorCompose(u, t.z + 1, t.z);
      assert ExtentHitsPath(req, u, c);
      ReachedTilesListed(req, c, u);
      BlockInCollected(req, t, i, 4, u);
    } else {
      assert u == AncestorAt(u, t.z);
      if t.z < req.maxZoom {
        OwnInCollected(req, t, 4, u);
      }
    }
  }

  /**
   * A tile is listed exactly when it lies below the start tile, no tile on
   * its path from the start was pruned, and it passes the inclusion test.
   * Pruning depends only on the extent: a parent that fails the inclusion
   * test still has its subtree searched.
   */
  lemma EnumerateMembers(req: Request, t: Tile, u: Tile)
    ensures u in Flat(Enumerate(req, t)) <==> Below(u, t) && ExtentHitsPath(req, u, t) && Included(req, u)
  {
    if u in Flat(Enumerate(req, t)) {
      ListedBelow(req, t, u);
      ListedPathHits(req, t, u);
    }
    if Below(u, t) && ExtentHitsPath(req, u, t) && Included(req, u) {
      ReachedTilesListed(req, t, u);
    }
  }

  /** Every listed tile is in the zoom range and passed the layer test. */
  lemma ListedTilesIncluded(req: Request, t: Tile, u: Tile)
    requires u in Flat(Enumerate(req, t))
    ensures req.minZoom <= u.z <= req.maxZoom
    ensures !req.renderOutside ==> SomeLayerHits(req, u)
  {
    ListedBelow(req, t, u);
  }

  /** With `render_outside_tiles` set, every tile reached and in range is listed. */
  lemma OutsideTilesAllListed(req: Request, t: Tile, u: Tile)
    requires req.renderOutside
    requires Below(u, t) && ExtentHitsPath(req, u, t) && InZoomRange(req, u)
    ensures u in Flat(Enumerate(req, t))
  {
    ReachedTilesListed(req, t, u);
  }

  /** No tile below a tile the extent misses is ever listed. */
  lemma PrunedSubtreeNotListed(req: Request, t: Tile, a: Tile, u: Tile)
    requires !req.extentHits(a) && Below(a, t)
    requires Below(u, a)
    ensures u !in Flat(Enumerate(req, t))
  {
    AncestorCompose(u, a.z, t.z);
    EnumerateMembers(req, t, u);
  }

  /** From an in-range start tile, every listed tile is in range and keeps the start's row convention. */
  lemma ListedTilesInRange(req: Request, t: Tile, u: Tile)
    requires InRange(t)
    requires u in Flat(Enumerate(req, t))
    ensures InRange(u) && u.tms == t.tms
  {
    ListedBelow(req, t, u);
    BelowInRange(u, t);
  }

  // ----- No duplicates, parents first -----

  predicate NoDuplicates(s: seq<Tile>) {
    forall i, j :: 0 <= i < j < |s| ==> s[i] != s[j]
  }

  lemma NoDuplicatesConcat(a: seq<Tile>, b: seq<Tile>)
    requires NoDuplicates(a) && NoDuplicates(b)
    requires forall v :: v in a ==> v !in b
    ensures NoDuplicates(a + b)
  {
    forall i, j | 0 <= i < j < |a + b|
      ensures (a + b)[i] != (a + b)[j]
    {
      if i < |a| <= j {
        assert (a + b)[i] in a && (a + b)[j] in b;
      }
    }
  }

  predicate StrictlyBelow(v: Tile, u: Tile) {
    Below(v, u) && v != u
  }

  /** No tile of a child's result lies in the subtree of a tile of another child's result. */
  lemma BlocksApart(req: Request, t: Tile, i: nat, j: nat, v: Tile, w: Tile)
    requires t.z < req.maxZoom && i < 4 && j < 4 && i != j
    requires v in Flat(Enumerate(req, LoopChild(t, i)))
    requires w in Flat(Enumerate(req, LoopChild(t, j)))
    ensures !Below(v, w)
  {
    var ci, cj := LoopChild(t, i), LoopChild(t, j);
    ListedBelow(req, ci, v);
    ListedBelow(req, cj, w);
    if Below(v, w) {
      BelowTransitive(v, w, cj);
      LoopChildDistinct(t, i, j);
    }
  }

  /**
   * A tile of the list built so far is neither in the subtree of, nor equal
   * to, a tile of the next child's result.
   */
  lemma SoFarApart(req: Request, t: Tile, n: nat, v: Tile, w: Tile)
    requires t.z < req.maxZoom && n < 4
    requires v in Collected(req, t, n)
    requires w in Flat(Enumerate(req, LoopChild(t, n)))
    ensures !Below(v, w)
  {
    var j := CollectedMember(req, t, n, v);
    if j == -1 {
      ListedBelow(req, LoopChild(t, n), w);
    } else {
      BlocksApart(req, t, j, n, v, w);
    }
  }

  /** However many layers hit a tile, and whatever the predicates, no tile is listed twice. */
  lemma {:induction false} EnumerateNoDuplicates(req: Request, t: Tile)
    ensures NoDuplicates(Flat(Enumerate(req, t)))
    decreases req.maxZoom - t.z, 5
  {
    if req.extentHits(t) && t.z < req.maxZoom {
      CollectedNoDuplicates(req, t, 4);
    }
  }

  lemma {:induction false} CollectedNoDuplicates(req: Request, t: Tile, n: nat)
    requires t.z < req.maxZoom && n <= 4
    ensures NoDuplicates(Collected(req, t, n))
    decreases req.maxZoom - t.z, n
  {
    if n > 0 {
      var sofar, block := Collected(req, t, n - 1), Flat(Enumerate(req, LoopChild(t, n - 1)));
      CollectedNoDuplicates(req, t, n - 1);
      EnumerateNoDuplicates(req, LoopChild(t, n - 1));
      forall v | v in sofar ensures v !in block {
        if v in block { SoFarApart(req, t, n - 1, v, v); }
      }
      NoDuplicatesConcat(sofar, block);
    }
  }

  /** Every tile comes before all of its descendants in the list. */
  predicate AncestorsFirst(s: seq<Tile>) {
    forall i, j :: 0 <= i < |s| && 0 <= j < |s| && StrictlyBelow(s[j], s[i]) ==> i < j
  }

  lemma AncestorsFirstConcat(a: seq<Tile>, b: seq<Tile>)
    requires AncestorsFirst(a) && AncestorsFirst(b)
    requires forall v, w :: v in a && w in b ==> !StrictlyBelow(v, w)
    ensures AncestorsFirst(a + b)
  {
    var s := a + b;
    forall i, j | 0 <= i < |s| && 0 <= j < |s| && StrictlyBelow(s[j], s[i])
      ensures i < j
    {
      if j < |a| && i < |a| {
        assert s[j] == a[j] && s[i] == a[i];
      } else if |a| <= j && |a| <= i {
        assert s[j] == b[j - |a|] && s[i] == b[i - |a|];
      }
    }
  }

  /** The walk is pre-order: every listed tile precedes its listed descendants. */
  lemma {:induction false} EnumeratePreOrder(req: Request, t: Tile)
    ensures AncestorsFirst(Flat(Enumerate(req, t)))
    decreases req.maxZoom - t.z, 5
  {
    if req.extentHits(t) && t.z < req.maxZoom {
      CollectedPreOrder(req, t, 4);
    }
  }

  lemma {:induction false} CollectedPreOrder(req: Request, t: Tile, n: nat)
    requires t.z < req.maxZoom && n <= 4
    ensures AncestorsFirst(Collected(req, t, n))
    decreases req.maxZoom - t.z, n
  {
    if n > 0 {
      var sofar, block := Collected(req, t, n - 1), Flat(Enumerate(req, LoopChild(t, n - 1)));
      CollectedPreOrder(req, t, n - 1);
      EnumeratePreOrder(req, LoopChild(t, n - 1));
      forall v, w | v in sofar && w in block ensures !StrictlyBelow(v, w) {
        SoFarApart(req, t, n - 1, v, w);
      }
      AncestorsFirstConcat(sofar, block);
    }
  }

  // ----- Size of a full pyramid -----

  /** Every tile hits the extent and outside tiles are rendered. */
  ghost predicate Saturated(req: Request) {
    req.renderOutside && forall t :: req.extentHits(t)
  }

  /** Number of tiles a saturated walk lists from a tile at zoom `d`. */
  function CountFrom(req: Request, d: nat): nat
    decreases req.maxZoom - d
  {
    (if req.minZoom <= d <= req.maxZoom then 1 else 0)
    + (if d < req.maxZoom then 4 * CountFrom(req, d + 1) else 0)
  }

  /** The sum of `4^z` for `lo <= z <= hi`. */
  function SumPow4(lo: nat, hi: int): nat
    decreases hi - lo
  {
    if lo > hi then 0 else Pow4(lo) + SumPow4(lo + 1, hi)
  }

  lemma {:induction false} SaturatedSize(req: Request, t: Tile)
    requires Saturated(req)
    ensures |Flat(Enumerate(req, t))| == CountFrom(req, t.z)
    decreases req.maxZoom - t.z, 5
  {
    assert req.extentHits(t);
    if t.z < req.maxZoom {
      SaturatedCollectedSize(req, t, 4);
    }
  }

  lemma {:induction false} SaturatedCollectedSize(req: Request, t: Tile, n: nat)
    requires Saturated(req) && t.z < req.maxZoom && n <= 4
    ensures |Collected(req, t, n)| == |Own(req, t)| + n * CountFrom(req, t.z + 1)
    decreases req.maxZoom - t.z, n
  {
    if n > 0 {
      SaturatedCollectedSize(req, t, n - 1);
      SaturatedSize(req, LoopChild(t, n - 1));
    }
  }

  /** The first zoom at or above `d` that is in range. */
  function FirstListed(req: Request, d: nat): nat {
    if req.minZoom <= d then d else req.minZoom as nat
  }

  lemma Distribute(a: nat, c: nat, p: nat)
    ensures (a + 4 * c) * p == a * p + c * (4 * p)
  {
  }

  lemma {:induction false} CountFromSum(req: Request, d: nat)
    ensures CountFrom(req, d) * Pow4(d) == SumPow4(FirstListed(req, d), req.maxZoom)
    decreases req.maxZoom - d
  {
    if d < req.maxZoom {
      CountFromSum(req, d + 1);
      Distribute(if req.minZoom <= d then 1 else 0, CountFrom(req, d + 1), Pow4(d));
    }
  }

  /**
   * With every tile hitting and outside tiles rendered, the walk from the
   * root lists the sum of `4^z` over the zoom range, each tile once.
   */
  lemma {:induction false} FullPyramid(req: Request, tms: int)
    requires Saturated(req) && 0 <= req.minZoom
    ensures |Flat(Enumerate(req, Tile(0, 0, 0, tms)))| == SumPow4(req.minZoom, req.maxZoom)
    ensures NoDuplicates(Flat(Enumerate(req, Tile(0, 0, 0, tms))))
  {
    SaturatedSize(req, Tile(0, 0, 0, tms));
    CountFromSum(req, 0);
    EnumerateNoDuplicates(req, Tile(0, 0, 0, tms));
  }
}
