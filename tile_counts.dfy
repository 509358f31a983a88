/**
 * The hand multiset as the engine receives it: a map from tile to count.
 * `Bag` is its meaning as a multiset of tiles; everything the engine promises
 * about tiles is stated through it.
 */
module TileCounts {
  import opened Tiles

  type Counts = map<Tile, nat>

  /** Count of a tile, absent tiles counting zero (`get(..).unwrap_or(0)`). */
  function Get(c: Counts, t: Tile): nat
  {
    if t in c then c[t] else 0
  }

  /** The map without its zero entries (`retain(|_, c| c > 0)`). */
  function Retain(c: Counts): (r: Counts)
    ensures forall t {:trigger Get(r, t)} :: Get(r, t) == Get(c, t)
    ensures forall t {:trigger t in r} :: t in r <==> Get(c, t) > 0
  {
    map t | t in c && c[t] > 0 :: c[t]
  }

  /** The map with `k` copies of `t` taken away (`*get_mut(&t).unwrap() -= k`). */
  function Take(c: Counts, t: Tile, k: nat): (r: Counts)
    requires Get(c, t) >= k
    ensures Get(r, t) + k == Get(c, t)
    ensures forall u {:trigger Get(r, u)} :: u != t ==> Get(r, u) == Get(c, u)
  {
    c[t := Get(c, t) - k]
  }

  /** Some key of `c` at position `i` of the tile order or later is the first such key. */
  lemma {:induction false} FirstFrom(c: Counts, i: nat) returns (r: Tile)
    requires exists t :: t in c && Index(t) >= i
    decreases KindCount - i
    ensures r in c && Index(r) >= i
    ensures forall t {:trigger t in c} :: t in c && Index(t) >= i ==> Index(r) <= Index(t)
  {
    if i < KindCount && TileOf(i) in c {
      r := TileOf(i);
    } else {
      assert forall t :: t in c && Index(t) >= i ==> Index(t) > i by {
        forall t | t in c && Index(t) == i ensures false {
          IndexInjective(t, TileOf(i));
        }
      }
      r := FirstFrom(c, i + 1);
    }
  }

  /** A non-empty count map has a key of least position. */
  lemma HasMinTile(c: Counts)
    requires c != map[]
    ensures exists r :: r in c && forall t {:trigger t in c} :: t in c ==> Index(r) <= Index(t)
  {
    assert exists t :: t in c && Index(t) >= 0 by {
      assert c.Keys != {};
      var t :| t in c.Keys;
    }
    var r := FirstFrom(c, 0);
  }

  /** The smallest tile present (`counts.keys().min()`). */
  function MinTile(c: Counts): (r: Tile)
    requires c != map[]
    ensures r in c
    ensures forall t {:trigger t in c} :: t in c ==> Index(r) <= Index(t)
  {
    HasMinTile(c);
    var r :| r in c && forall t {:trigger t in c} :: t in c ==> Index(r) <= Index(t);
    assert forall r' :: r' in c && (forall t {:trigger t in c} :: t in c ==> Index(r') <= Index(t)) ==> r' == r by {
      forall r' | r' in c && (forall t {:trigger t in c} :: t in c ==> Index(r') <= Index(t)) ensures r' == r {
        IndexInjective(r, r');
      }
    }
    r
  }

  /** A key below every other key is the smallest tile. */
  lemma MinTileIs(c: Counts, t: Tile)
    requires t in c && forall u :: u in c ==> Index(t) <= Index(u)
    ensures MinTile(c) == t
  {
    IndexInjective(MinTile(c), t);
  }

  /** The tiles a count map stands for. */
  function Bag(c: Counts): (b: multiset<Tile>)
    decreases c.Keys
    ensures forall t {:trigger b[t]} :: b[t] == Get(c, t)
  {
    if c == map[] then multiset{}
    else
      var t := MinTile(c);
      var rest := c - {t};
      assert rest.Keys == c.Keys - {t};
      Bag(rest)[t := c[t]]
  }

  /** Dropping zero entries does not change the tiles. */
  lemma RetainBag(c: Counts)
    ensures Bag(Retain(c)) == Bag(c)
  {
    assert forall t :: Bag(Retain(c))[t] == Bag(c)[t];
  }

  /** Number of tiles in the hand (`counts.values().sum()`). */
  function Total(c: Counts): nat
  {
    |Bag(c)|
  }

  /** The keys in ascending tile order (`keys().collect()` then `sort()`). */
  function SortedKeys(c: Counts): (ks: seq<Tile>)
    decreases c.Keys
    ensures |ks| == |c|
    ensures forall t :: t in ks <==> t in c
    ensures Ascending(ks)
  {
    if c == map[] then []
    else
      var t := MinTile(c);
      var rest := c - {t};
      assert rest.Keys == c.Keys - {t};
      var tail := SortedKeys(rest);
      assert forall u :: u in tail ==> Index(t) < Index(u) by {
        forall u | u in tail ensures Index(t) < Index(u) {
          IndexInjective(t, u);
        }
      }
      var ks := [t] + tail;
      assert |rest| == |c| - 1;
      AscendingCons(t, tail);
      assert forall u :: u in ks <==> u == t || u in tail;
      ks
  }
}
