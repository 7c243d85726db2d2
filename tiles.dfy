/**
 * Tile addresses and the quadtree structure between them. The source's
 * `Tile(x, y, z, tms)` value (its class is not part of this model) is built
 * by the enumerator only ever as the root `Tile(0, 0, 0, tms)` or as a child
 * `Tile(x, y, z + 1, tms)` of an existing tile; `tms` is `1` (XYZ rows) or
 * `-1` (TMS rows). Its geometry (`toRectangle`) is not modelled here.
 */
module Tiles {

  datatype Tile = Tile(x: nat, y: nat, z: nat, tms: int)

  function Pow2(n: nat): (r: nat)
    ensures r >= 1
  {
    if n == 0 then 1 else 2 * Pow2(n - 1)
  }

  function Pow4(n: nat): (r: nat)
    ensures r >= 1
  {
    if n == 0 then 1 else 4 * Pow4(n - 1)
  }

  /** The source's invariant of a tile address: `0 <= x, y < 2^z`. */
  predicate InRange(t: Tile) {
    t.x < Pow2(t.z) && t.y < Pow2(t.z)
  }

  /** The child at column offset `dx` and row offset `dy` within the 2 x 2 block. */
  function Child(t: Tile, dx: nat, dy: nat): (c: Tile)
    requires dx < 2 && dy < 2
    ensures c.z == t.z + 1 && c.tms == t.tms
  {
    Tile(2 * t.x + dx, 2 * t.y + dy, t.z + 1, t.tms)
  }

  /** The tile one level up whose 2 x 2 block contains `u`. */
  function Parent(u: Tile): (p: Tile)
    requires u.z > 0
    ensures p.z == u.z - 1 && p.tms == u.tms
  {
    Tile(u.x / 2, u.y / 2, u.z - 1, u.tms)
  }

  /** The ancestor of `u` (or `u` itself) at zoom `level`. */
  function AncestorAt(u: Tile, level: nat): (a: Tile)
    requires level <= u.z
    ensures a.z == level && a.tms == u.tms
    decreases u.z - level
  {
    if u.z == level then u else AncestorAt(Parent(u), level)
  }

  /** `u` lies in the subtree rooted at `t` (`u` may be `t`). */
  predicate Below(u: Tile, t: Tile) {
    t.z <= u.z && AncestorAt(u, t.z) == t
  }

  /** A child lies one level below its parent, in the parent's subtree. */
  lemma ChildBelow(t: Tile, dx: nat, dy: nat)
    requires dx < 2 && dy < 2
    ensures Parent(Child(t, dx, dy)) == t && Below(Child(t, dx, dy), t)
  {
    assert AncestorAt(Child(t, dx, dy), t.z) == Parent(Child(t, dx, dy));
  }

  /** Every tile one level below `t` whose parent is `t` is one of its four children. */
  lemma ChildOfParent(t: Tile, u: Tile)
    requires u.z == t.z + 1 && Parent(u) == t
    ensures u == Child(t, u.x % 2, u.y % 2)
  {
  }

  lemma {:induction false} AncestorStep(u: Tile, k: nat)
    requires k < u.z
    ensures AncestorAt(u, k) == Parent(AncestorAt(u, k + 1))
    decreases u.z - k
  {
    if k + 1 < u.z {
      AncestorStep(Parent(u), k);
    }
  }

  lemma {:induction false} AncestorCompose(u: Tile, m: nat, k: nat)
    requires k <= m <= u.z
    ensures AncestorAt(AncestorAt(u, m), k) == AncestorAt(u, k)
    decreases u.z - m
  {
    if m < u.z {
      AncestorCompose(Parent(u), m, k);
    }
  }

  lemma BelowTransitive(u: Tile, v: Tile, t: Tile)
    requires Below(u, v) && Below(v, t)
    ensures Below(u, t)
  {
    AncestorCompose(u, v.z, t.z);
  }

  /** Going down the quadtree from an in-range tile stays in range. */
  lemma {:induction false} BelowInRange(u: Tile, t: Tile)
    requires Below(u, t) && InRange(t)
    ensures InRange(u)
    decreases u.z - t.z
  {
    if u.z > t.z {
      var p := Parent(u);
      AncestorCompose(u, u.z - 1, t.z);
      assert AncestorAt(u, u.z - 1) == p;
      BelowInRange(p, t);
      assert Pow2(u.z) == 2 * Pow2(p.z);
    }
  }
}
