/** The order in which the window draws its sprites: the shown ones only, sorted by
    z-order, and stable (sprites with equal z-order keep their list order). */
module SpriteOrder {
  import opened Canvases

  /** A sprite as the draw loop sees it: its identity (the object reference), whether it
      is shown, its z-order and the scaling quality it is drawn with. */
  datatype Sprite = Sprite(id: nat, shown: bool, zOrder: int, quality: ScalingQuality)

  /** The `Where(e => e.Shown)` filter. */
  function ShownOnly(sprites: seq<Sprite>): (r: seq<Sprite>)
    ensures forall s | s in r :: s.shown
  {
    if sprites == [] then []
    else (if sprites[0].shown then [sprites[0]] else []) + ShownOnly(sprites[1..])
  }

  /** The filter keeps every shown sprite, as often as it occurs, and drops the rest. */
  lemma {:induction false} ShownOnlyCounts(sprites: seq<Sprite>)
    ensures forall s :: multiset(ShownOnly(sprites))[s] == if s.shown then multiset(sprites)[s] else 0
  {
    if sprites != [] {
      ShownOnlyCounts(sprites[1..]);
      assert sprites == [sprites[0]] + sprites[1..];
    }
  }

  /** The sprites of z-order `z`, in list order. */
  function WithZ(sprites: seq<Sprite>, z: int): seq<Sprite>
  {
    if sprites == [] then []
    else (if sprites[0].zOrder == z then [sprites[0]] else []) + WithZ(sprites[1..], z)
  }

  /** `WithZ` keeps only sprites of z-order `z`, all taken from the list. */
  lemma {:induction false} WithZMember(sprites: seq<Sprite>, z: int, s: Sprite)
    requires s in WithZ(sprites, z)
    ensures s.zOrder == z && s in sprites
  {
    if s != sprites[0] || sprites[0].zOrder != z {
      WithZMember(sprites[1..], z, s);
    }
  }

  predicate SortedByZ(sprites: seq<Sprite>)
  {
    forall i, j | 0 <= i < j < |sprites| :: sprites[i].zOrder <= sprites[j].zOrder
  }

  lemma WithZCons(s: Sprite, rest: seq<Sprite>, z: int)
    ensures WithZ([s] + rest, z) == (if s.zOrder == z then [s] else []) + WithZ(rest, z)
  {
    assert ([s] + rest)[1..] == rest;
  }

  lemma SortedCons(s: Sprite, rest: seq<Sprite>)
    requires SortedByZ(rest)
    requires forall e | e in rest :: s.zOrder <= e.zOrder
    ensures SortedByZ([s] + rest)
  {
    forall i, j | 0 <= i < j < |[s] + rest|
      ensures ([s] + rest)[i].zOrder <= ([s] + rest)[j].zOrder
    {
      if i > 0 {
        assert ([s] + rest)[i] == rest[i - 1] && ([s] + rest)[j] == rest[j - 1];
      } else {
        assert ([s] + rest)[j] in rest;
      }
    }
  }

  /** Inserts `x` before the first sprite whose z-order is not below its own. */
  function InsertByZ(x: Sprite, sorted: seq<Sprite>): seq<Sprite>
  {
    if sorted == [] || x.zOrder <= sorted[0].zOrder then
      [x] + sorted
    else
      [sorted[0]] + InsertByZ(x, sorted[1..])
  }

  /** Insertion adds `x` and keeps everything else. */
  lemma {:induction false} InsertByZPermutes(x: Sprite, sorted: seq<Sprite>)
    ensures multiset(InsertByZ(x, sorted)) == multiset(sorted) + multiset{x}
  {
    if sorted != [] && x.zOrder > sorted[0].zOrder {
      InsertByZPermutes(x, sorted[1..]);
      assert sorted == [sorted[0]] + sorted[1..];
    }
  }

  lemma {:induction false} InsertByZSorted(x: Sprite, sorted: seq<Sprite>)
    requires SortedByZ(sorted)
    ensures SortedByZ(InsertByZ(x, sorted))
  {
    if sorted == [] || x.zOrder <= sorted[0].zOrder {
      forall e | e in sorted ensures x.zOrder <= e.zOrder {
        var k :| 0 <= k < |sorted| && sorted[k] == e;
        assert sorted[0].zOrder <= sorted[k].zOrder;
      }
      SortedCons(x, sorted);
    } else {
      var head, tail := sorted[0], sorted[1..];
      var rest := InsertByZ(x, tail);
      assert sorted == [head] + tail;
      InsertByZSorted(x, tail);
      InsertByZPermutes(x, tail);
      forall e | e in rest ensures head.zOrder <= e.zOrder {
        assert e in multiset(rest);
        if e != x {
          var k :| 0 <= k < |tail| && tail[k] == e;
          assert sorted[k + 1] == e;
        }
      }
      SortedCons(head, rest);
    }
  }

  /** Inserting `x` puts it in front of the sprites that share its z-order, and leaves the
      sprites of every other z-order as they were. */
  lemma {:induction false} InsertByZWithZ(x: Sprite, sorted: seq<Sprite>, z: int)
    ensures WithZ(InsertByZ(x, sorted), z) == (if x.zOrder == z then [x] else []) + WithZ(sorted, z)
  {
    if sorted == [] || x.zOrder <= sorted[0].zOrder {
      WithZCons(x, sorted, z);
    } else {
      var head, tail := sorted[0], sorted[1..];
      var rest := InsertByZ(x, tail);
      var hz, xz := if head.zOrder == z then [head] else [], if x.zOrder == z then [x] else [];
      assert InsertByZ(x, sorted) == [head] + rest;
      assert sorted == [head] + tail;
      calc {
        WithZ(InsertByZ(x, sorted), z);
        == { WithZCons(head, rest, z); }
        hz + WithZ(rest, z);
        == { InsertByZWithZ(x, tail, z); }
        hz + (xz + WithZ(tail, z));
        == { assert hz == [] || xz == []; }
        xz + (hz + WithZ(tail, z));
        == { WithZCons(head, tail, z); }
        xz + WithZ(sorted, z);
      }
    }
  }

  /** A stable insertion sort by z-order. */
  function SortByZ(sprites: seq<Sprite>): seq<Sprite>
  {
    if sprites == [] then []
    else InsertByZ(sprites[0], SortByZ(sprites[1..]))
  }

  /** The sort is a permutation. */
  lemma {:induction false} SortByZPermutes(sprites: seq<Sprite>)
    ensures multiset(SortByZ(sprites)) == multiset(sprites)
  {
    if sprites != [] {
      SortByZPermutes(sprites[1..]);
      InsertByZPermutes(sprites[0], SortByZ(sprites[1..]));
      assert sprites == [sprites[0]] + sprites[1..];
    }
  }

  lemma {:induction false} SortByZSorted(sprites: seq<Sprite>)
    ensures SortedByZ(SortByZ(sprites))
  {
    if sprites != [] {
      SortByZSorted(sprites[1..]);
      InsertByZSorted(sprites[0], SortByZ(sprites[1..]));
    }
  }

  /** The sort is stable: the sprites of each z-order come out in their input order. */
  lemma {:induction false} SortByZStable(sprites: seq<Sprite>, z: int)
    ensures WithZ(SortByZ(sprites), z) == WithZ(sprites, z)
  {
    if sprites != [] {
      SortByZStable(sprites[1..], z);
      InsertByZWithZ(sprites[0], SortByZ(sprites[1..]), z);
      WithZCons(sprites[0], sprites[1..], z);
      assert sprites == [sprites[0]] + sprites[1..];
    }
  }

  /** `Sprites.Where(e => e.Shown).OrderBy(e => e.ZOrder)`. */
  function DrawOrder(sprites: seq<Sprite>): seq<Sprite>
  {
    SortByZ(ShownOnly(sprites))
  }

  /** The draw order holds the shown sprites, each as often as in the list, and nothing
      else, sorted by z-order. */
  lemma DrawOrderSortedShown(sprites: seq<Sprite>)
    ensures SortedByZ(DrawOrder(sprites))
    ensures forall s | s in DrawOrder(sprites) :: s.shown
    ensures multiset(DrawOrder(sprites)) == multiset(ShownOnly(sprites))
  {
    var shown := ShownOnly(sprites);
    SortByZSorted(shown);
    SortByZPermutes(shown);
    assert forall s | s in SortByZ(shown) :: s in multiset(shown);
  }

  /** Filtering keeps list order: the shown sprites of z-order `z` are, in order, the sprites
      of z-order `z` in the list with the hidden ones taken out. */
  lemma {:induction false} ShownOnlyWithZ(sprites: seq<Sprite>, z: int)
    ensures WithZ(ShownOnly(sprites), z) == ShownOnly(WithZ(sprites, z))
  {
    if sprites != [] {
      var head, tail := sprites[0], sprites[1..];
      ShownOnlyWithZ(tail, z);
      var rest := ShownOnly(WithZ(tail, z));
      var kept := if head.shown && head.zOrder == z then [head] else [];
      if head.shown {
        assert ShownOnly(sprites) == [head] + ShownOnly(tail);
        WithZCons(head, ShownOnly(tail), z);
      } else {
        assert ShownOnly(sprites) == [] + ShownOnly(tail) == ShownOnly(tail);
      }
      assert WithZ(ShownOnly(sprites), z) == kept + rest;
      if head.zOrder == z {
        assert WithZ(sprites, z) == [head] + WithZ(tail, z);
        assert ([head] + WithZ(tail, z))[1..] == WithZ(tail, z);
      } else {
        assert WithZ(sprites, z) == [] + WithZ(tail, z) == WithZ(tail, z);
      }
    }
  }

  /** The draw order is stable: the shown sprites of each z-order are drawn in list order. */
  lemma DrawOrderStable(sprites: seq<Sprite>, z: int)
    ensures WithZ(DrawOrder(sprites), z) == WithZ(ShownOnly(sprites), z)
    ensures WithZ(DrawOrder(sprites), z) == ShownOnly(WithZ(sprites, z))
  {
    SortByZStable(ShownOnly(sprites), z);
    ShownOnlyWithZ(sprites, z);
  }

  /** The least z-order of a sorted sequence is its first sprite's. */
  lemma SortedHeadLeast(a: seq<Sprite>, s: Sprite)
    requires SortedByZ(a) && a != [] && s in a
    ensures a[0].zOrder <= s.zOrder
  {
    var i :| 0 <= i < |a| && a[i] == s;
    assert i == 0 || a[0].zOrder <= a[i].zOrder;
  }

  /** The first sprite of a non-empty sequence heads the sprites of its own z-order. */
  lemma HeadLeadsItsZ(a: seq<Sprite>)
    requires a != []
    ensures WithZ(a, a[0].zOrder) == [a[0]] + WithZ(a[1..], a[0].zOrder)
  {
  }

  /** Two sorted sequences that agree on the sprites of their heads' z-orders start with
      the same sprite, and their tails agree on that z-order. */
  lemma SameZHeads(a: seq<Sprite>, b: seq<Sprite>)
    requires SortedByZ(a) && SortedByZ(b) && a != [] && b != []
    requires WithZ(a, a[0].zOrder) == WithZ(b, a[0].zOrder)
    requires WithZ(a, b[0].zOrder) == WithZ(b, b[0].zOrder)
    ensures a[0] == b[0]
    ensures WithZ(a[1..], a[0].zOrder) == WithZ(b[1..], a[0].zOrder)
  {
    HeadLeadsItsZ(a);
    HeadLeadsItsZ(b);
    assert WithZ(a, b[0].zOrder)[0] == b[0];
    WithZMember(a, b[0].zOrder, b[0]);
    SortedHeadLeast(a, b[0]);
    assert WithZ(b, a[0].zOrder)[0] == a[0];
    WithZMember(b, a[0].zOrder, a[0]);
    SortedHeadLeast(b, a[0]);
    var z := a[0].zOrder;
    assert WithZ(a[1..], z) == WithZ(a, z)[1..];
    assert WithZ(b[1..], z) == WithZ(b, z)[1..];
  }

  lemma SortedTail(a: seq<Sprite>)
    requires SortedByZ(a) && a != []
    ensures SortedByZ(a[1..])
  {
    forall i, j | 0 <= i < j < |a[1..]| ensures a[1..][i].zOrder <= a[1..][j].zOrder {
      assert a[1..][i] == a[i + 1] && a[1..][j] == a[j + 1];
    }
  }

  /** Stability pins the order down: two sequences sorted by z-order that agree on the
      sprites of every z-order (in order) are equal. So `DrawOrder` is the one order a
      stable sort of the shown sprites can produce. */
  lemma {:induction false} StableSortUnique(a: seq<Sprite>, b: seq<Sprite>)
    requires SortedByZ(a) && SortedByZ(b)
    requires forall z :: WithZ(a, z) == WithZ(b, z)
    ensures a == b
    decreases |a| + |b|
  {
    if a == [] && b == [] {
    } else if a == [] {
      HeadLeadsItsZ(b);
      assert false;
    } else if b == [] {
      HeadLeadsItsZ(a);
      assert false;
    } else {
      assert WithZ(a, a[0].zOrder) == WithZ(b, a[0].zOrder);
      assert WithZ(a, b[0].zOrder) == WithZ(b, b[0].zOrder);
      SameZHeads(a, b);
      forall z ensures WithZ(a[1..], z) == WithZ(b[1..], z) {
        if z != a[0].zOrder {
          assert WithZ(a, z) == [] + WithZ(a[1..], z) == WithZ(a[1..], z);
          assert WithZ(b, z) == [] + WithZ(b[1..], z) == WithZ(b[1..], z);
          assert WithZ(a, z) == WithZ(b, z);
        }
      }
      SortedTail(a);
      SortedTail(b);
      StableSortUnique(a[1..], b[1..]);
      assert a == [a[0]] + a[1..];
      assert b == [b[0]] + b[1..];
    }
  }

  /** Any order that a stable sort by z-order of the shown sprites produces is `DrawOrder`. */
  lemma DrawOrderIsTheStableOrder(sprites: seq<Sprite>, order: seq<Sprite>)
    requires SortedByZ(order)
    requires forall z :: WithZ(order, z) == WithZ(ShownOnly(sprites), z)
    ensures order == DrawOrder(sprites)
  {
    forall z ensures WithZ(order, z) == WithZ(DrawOrder(sprites), z) {
      DrawOrderStable(sprites, z);
    }
    DrawOrderSortedShown(sprites);
    StableSortUnique(order, DrawOrder(sprites));
  }
}
