/**
 * The exceptional winning shapes: seven pairs (`is_chiitoitsu`), thirteen
 * orphans as a complete hand (`check_kokushi`) and the thirteen-orphans
 * thirteen-sided wait (`is_kokushi_13_wait`).
 *
 * Each detector is stated against a plain description of the hand it
 * accepts: the wait is exactly the map giving each of the thirteen orphans
 * once, a thirteen-orphans hand is that map with one tile raised to two, and
 * seven pairs are seven distinct tiles twice each.
 */
module Shapes {
  import opened Tiles
  import opened TileCounts

  datatype Option<T> = None | Some(value: T)

  /** Each of the thirteen orphans once: the hand that waits on all thirteen. */
  const KokushiWait: Counts := map t | t in KokushiTiles :: 1

  /** Seven pairs (`is_chiitoitsu`): seven entries, each count exactly two. */
  function IsChiitoitsu(counts: Counts): bool
  {
    |counts| == 7 && forall t :: t in counts ==> counts[t] == 2
  }

  /**
   * Seven pairs are exactly seven distinct tiles, each held twice (so four
   * of a kind never counts as two pairs), fourteen tiles in all.
   */
  lemma ChiitoitsuShape(counts: Counts)
    ensures IsChiitoitsu(counts) <==>
      |SortedKeys(counts)| == 7 && Bag(counts) == Twice(SortedKeys(counts))
    ensures IsChiitoitsu(counts) ==> Total(counts) == 14
  {
    if IsChiitoitsu(counts) {
      ChiitoitsuTiles(counts);
    } else if |SortedKeys(counts)| == 7 && Bag(counts) == Twice(SortedKeys(counts)) {
      TilesChiitoitsu(counts);
    }
  }

  lemma ChiitoitsuTiles(counts: Counts)
    requires IsChiitoitsu(counts)
    ensures |SortedKeys(counts)| == 7 && Bag(counts) == Twice(SortedKeys(counts))
    ensures Total(counts) == 14
  {
    PairsBag(counts);
  }

  lemma PairsBag(counts: Counts)
    requires forall t :: t in counts ==> counts[t] == 2
    ensures Bag(counts) == Twice(SortedKeys(counts))
  {
    var b, m := Bag(counts), Twice(SortedKeys(counts));
    forall t ensures b[t] == m[t] {
      PairCount(counts, t);
    }
  }

  lemma TilesChiitoitsu(counts: Counts)
    requires |SortedKeys(counts)| == 7 && Bag(counts) == Twice(SortedKeys(counts))
    ensures IsChiitoitsu(counts)
  {
    forall t | t in counts ensures counts[t] == 2 {
      PairCount(counts, t);
      assert Bag(counts)[t] == counts[t];
    }
  }

  /** Two copies of each tile of `ts`. */
  function Twice(ts: seq<Tile>): (m: multiset<Tile>)
    ensures |m| == 2 * |ts|
  {
    multiset(ts) + multiset(ts)
  }

  /** A key occurs twice in `Twice` of the sorted keys, anything else not at all. */
  lemma PairCount(counts: Counts, t: Tile)
    ensures Twice(SortedKeys(counts))[t] == if t in counts then 2 else 0
  {
    var ks := SortedKeys(counts);
    AscendingCount(ks, t);
    assert t in ks <==> t in counts;
    assert Twice(ks)[t] == multiset(ks)[t] + multiset(ks)[t];
  }

  /** Every orphan is present at least once. */
  predicate OrphansPresent(counts: Counts)
  {
    forall i :: 0 <= i < 13 ==> Get(counts, KokushiTiles[i]) >= 1
  }

  /** Every key is a terminal or an honor. */
  predicate OnlyOrphans(counts: Counts)
  {
    forall t :: t in counts ==> IsTerminalOrHonor(t)
  }

  /** No orphan three times or more, and exactly one of them twice. */
  predicate OnePair(counts: Counts)
  {
    (forall i :: 0 <= i < 13 ==> Get(counts, KokushiTiles[i]) <= 2)
    && (exists i :: 0 <= i < 13 && Get(counts, KokushiTiles[i]) == 2)
    && (forall i, j ::
          (0 <= i < 13 && 0 <= j < 13
           && Get(counts, KokushiTiles[i]) == 2 && Get(counts, KokushiTiles[j]) == 2) ==> i == j)
  }

  /** The tests `check_kokushi` applies, in its order. */
  predicate KokushiShape(counts: Counts)
  {
    Total(counts) == 14 && OrphansPresent(counts) && OnlyOrphans(counts) && OnePair(counts)
  }

  /**
   * Thirteen orphans (`check_kokushi`): the pair tile when the hand is a
   * thirteen-orphans hand, `None` otherwise.
   */
  method CheckKokushi(counts: Counts) returns (r: Option<Tile>)
    ensures r.Some? <==> KokushiShape(counts)
    ensures r.Some? ==> r.value in KokushiTiles && Get(counts, r.value) == 2
  {
    if Total(counts) != 14 {
      return None;
    }
    var present := CheckOrphansPresent(counts);
    if !present {
      return None;
    }
    var only := CheckOnlyOrphans(counts);
    if !only {
      return None;
    }
    r := FindPair(counts);
  }

  /** The first loop of `check_kokushi`: each orphan at least once. */
  method CheckOrphansPresent(counts: Counts) returns (r: bool)
    ensures r <==> OrphansPresent(counts)
  {
    var i := 0;
    while i < |KokushiTiles|
      invariant 0 <= i <= 13
      invariant forall j :: 0 <= j < i ==> Get(counts, KokushiTiles[j]) >= 1
    {
      if Get(counts, KokushiTiles[i]) < 1 {
        return false;
      }
      i := i + 1;
    }
    return true;
  }

  /** The second loop of `check_kokushi`: no key other than a terminal or honor. */
  method CheckOnlyOrphans(counts: Counts) returns (r: bool)
    ensures r <==> OnlyOrphans(counts)
  {
    var keys := counts.Keys;
    while keys != {}
      invariant keys <= counts.Keys
      invariant forall t :: t in counts && t !in keys ==> IsTerminalOrHonor(t)
      decreases keys
    {
      var t :| t in keys;
      if !IsTerminalOrHonor(t) {
        return false;
      }
      keys := keys - {t};
    }
    return true;
  }

  /** The third loop of `check_kokushi`: the one orphan held twice, if exactly one is and none more. */
  method FindPair(counts: Counts) returns (r: Option<Tile>)
    ensures r.Some? <==> OnePair(counts)
    ensures r.Some? ==> r.value in KokushiTiles && Get(counts, r.value) == 2
  {
    var pair: Option<Tile> := None;
    ghost var at := 0;
    var i := 0;
    while i < |KokushiTiles|
      invariant 0 <= i <= 13
      invariant forall j :: 0 <= j < i ==> Get(counts, KokushiTiles[j]) <= 2
      invariant pair.None? ==> forall j :: 0 <= j < i ==> Get(counts, KokushiTiles[j]) != 2
      invariant pair.Some? ==> 0 <= at < i && pair.value == KokushiTiles[at]
      invariant pair.Some? ==> Get(counts, pair.value) == 2
      invariant pair.Some? ==> forall j :: 0 <= j < i && Get(counts, KokushiTiles[j]) == 2 ==> j == at
    {
      var tile := KokushiTiles[i];
      var count := Get(counts, tile);
      if count == 2 {
        if pair.Some? {
          return None;
        }
        pair := Some(tile);
        at := i;
      } else if count > 2 {
        return None;
      }
      i := i + 1;
    }
    return pair;
  }

  /** Each orphan occurs once in the list of orphans. */
  lemma OrphanCount(t: Tile)
    ensures multiset(KokushiTiles)[t] == if t in KokushiTiles then 1 else 0
  {
    KokushiTilesAscending();
    AscendingCount(KokushiTiles, t);
  }

  /** The wait has the thirteen orphans as its keys. */
  lemma KokushiWaitKeys()
    ensures KokushiWait.Keys == set t | t in KokushiTiles
    ensures |KokushiWait| == 13
  {
    KokushiTilesAscending();
    AscendingCard(KokushiTiles);
  }

  /** The wait holds the thirteen orphans, once each. */
  lemma KokushiWaitTiles()
    ensures Bag(KokushiWait) == multiset(KokushiTiles)
    ensures Total(KokushiWait) == 13
  {
    forall t ensures Bag(KokushiWait)[t] == multiset(KokushiTiles)[t] {
      OrphanCount(t);
    }
    assert Bag(KokushiWait) == multiset(KokushiTiles);
  }

  /** A key set holding the thirteen orphans and no more than thirteen keys is exactly them. */
  lemma OrphanKeys(counts: Counts)
    requires forall i :: 0 <= i < 13 ==> KokushiTiles[i] in counts
    requires |counts| <= 13
    ensures counts.Keys == KokushiWait.Keys
  {
    KokushiWaitKeys();
    var orphans := KokushiWait.Keys;
    assert orphans <= counts.Keys by {
      forall t | t in orphans ensures t in counts {
        var i :| 0 <= i < 13 && KokushiTiles[i] == t;
      }
    }
    var extra := counts.Keys - orphans;
    assert counts.Keys == orphans + extra;
    assert |counts.Keys| == |orphans| + |extra|;
  }

  /** Counts in the wait. */
  lemma WaitGet(t: Tile)
    ensures Get(KokushiWait, t) == if t in KokushiTiles then 1 else 0
  {
  }

  /** Each orphan exactly once, in thirteen entries, is the wait. */
  lemma WaitFromOrphans(counts: Counts)
    requires forall i :: 0 <= i < 13 ==> Get(counts, KokushiTiles[i]) == 1
    requires |counts| == 13
    ensures counts == KokushiWait
  {
    OrphanKeys(counts);
    forall t | t in counts ensures counts[t] == KokushiWait[t] {
      assert t in KokushiWait;
      var j :| 0 <= j < 13 && KokushiTiles[j] == t;
    }
  }

  /**
   * Thirteen-sided thirteen-orphans wait (`is_kokushi_13_wait`): holds exactly
   * when the hand is each of the thirteen orphans once.
   */
  method IsKokushi13Wait(counts: Counts) returns (r: bool)
    ensures r <==> counts == KokushiWait
  {
    if Total(counts) != 13 {
      KokushiWaitTiles();
      return false;
    }
    var i := 0;
    while i < |KokushiTiles|
      invariant 0 <= i <= 13
      invariant forall j :: 0 <= j < i ==> Get(counts, KokushiTiles[j]) == 1
    {
      if Get(counts, KokushiTiles[i]) != 1 {
        assert Get(KokushiWait, KokushiTiles[i]) == 1 by {
          WaitGet(KokushiTiles[i]);
          assert KokushiTiles[i] in KokushiTiles;
        }
        return false;
      }
      i := i + 1;
    }
    r := |counts| == 13;
    if r {
      WaitFromOrphans(counts);
    } else {
      KokushiWaitKeys();
    }
  }

  /** Raising `p` to two adds one copy of `p` to the wait. */
  lemma PairHandTiles(p: Tile)
    requires p in KokushiTiles
    ensures Bag(KokushiWait[p := 2]) == Bag(KokushiWait) + multiset{p}
  {
    var hand := KokushiWait[p := 2];
    WaitGet(p);
    forall t ensures Bag(hand)[t] == (Bag(KokushiWait) + multiset{p})[t] {
    }
    assert Bag(hand) == Bag(KokushiWait) + multiset{p};
  }

  /**
   * A thirteen-orphans hand with pair `p` is the wait with `p` raised to two:
   * the thirteen orphans plus one more copy of `p`.
   */
  lemma KokushiHand(counts: Counts, p: Tile)
    requires p in KokushiTiles
    ensures KokushiShape(counts) && Get(counts, p) == 2 <==> counts == KokushiWait[p := 2]
    ensures Bag(KokushiWait[p := 2]) == multiset(KokushiTiles) + multiset{p}
  {
    PairHandTiles(p);
    KokushiWaitTiles();
    if KokushiShape(counts) && Get(counts, p) == 2 {
      KokushiShapeIsHand(counts, p);
    }
    if counts == KokushiWait[p := 2] {
      HandIsKokushiShape(p);
    }
  }

  /** Only orphans can be keys of a hand all of whose tiles are terminals or honors. */
  lemma KeysAmongOrphans(counts: Counts)
    requires forall t :: t in counts ==> IsTerminalOrHonor(t)
    ensures |counts| <= 13
  {
    KokushiWaitKeys();
    assert counts.Keys <= KokushiWait.Keys by {
      forall t | t in counts ensures t in KokushiWait {
        KokushiTilesAreTerminalsAndHonors(t);
      }
    }
    var extra := KokushiWait.Keys - counts.Keys;
    assert KokushiWait.Keys == counts.Keys + extra;
  }

  lemma KokushiShapeIsHand(counts: Counts, p: Tile)
    requires p in KokushiTiles && Get(counts, p) == 2
    requires OrphansPresent(counts) && OnlyOrphans(counts) && OnePair(counts)
    ensures counts == KokushiWait[p := 2]
  {
    var hand := KokushiWait[p := 2];
    PresentKeys(counts);
    KeysAmongOrphans(counts);
    OrphanKeys(counts);
    forall t | t in counts ensures counts[t] == hand[t] {
      PairValue(counts, p, t);
    }
  }

  lemma PresentKeys(counts: Counts)
    requires OrphansPresent(counts)
    ensures forall i :: 0 <= i < 13 ==> KokushiTiles[i] in counts
  {
    forall i | 0 <= i < 13 ensures KokushiTiles[i] in counts {
      assert Get(counts, KokushiTiles[i]) >= 1;
    }
  }

  /** In a thirteen-orphans hand with pair `p`, every other orphan counts one. */
  lemma PairValue(counts: Counts, p: Tile, t: Tile)
    requires p in KokushiTiles && OrphansPresent(counts) && OnePair(counts) && Get(counts, p) == 2
    requires t in KokushiTiles
    ensures Get(counts, t) == if t == p then 2 else 1
  {
    var at :| 0 <= at < 13 && KokushiTiles[at] == p;
    var j :| 0 <= j < 13 && KokushiTiles[j] == t;
    if t != p {
      assert j != at;
      assert Get(counts, KokushiTiles[j]) != 2;
    }
  }

  lemma HandIsKokushiShape(p: Tile)
    requires p in KokushiTiles
    ensures KokushiShape(KokushiWait[p := 2])
  {
    var hand := KokushiWait[p := 2];
    assert Total(hand) == 14 by {
      PairHandTiles(p);
      KokushiWaitTiles();
    }
    forall t | t in hand ensures IsTerminalOrHonor(t) {
      KokushiTilesAreTerminalsAndHonors(t);
    }
    var at :| 0 <= at < 13 && KokushiTiles[at] == p;
    HandCounts(p, at);
  }

  /** In the wait with `p` raised to two, `p` counts two and every other orphan one. */
  lemma HandCounts(p: Tile, at: nat)
    requires at < 13 && KokushiTiles[at] == p
    ensures forall i :: 0 <= i < 13 ==> Get(KokushiWait[p := 2], KokushiTiles[i]) == if i == at then 2 else 1
  {
    KokushiTilesAscending();
    forall i | 0 <= i < 13 ensures Get(KokushiWait[p := 2], KokushiTiles[i]) == if i == at then 2 else 1 {
      assert KokushiTiles[i] in KokushiTiles;
    }
  }
}
