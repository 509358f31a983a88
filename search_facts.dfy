/**
 * Facts for working out what the search answers on a given hand: which meld
 * can start a split, one step of the search when only one meld can start,
 * and the tile counts a step leaves.
 */
module SearchFacts {
  import opened Tiles
  import opened TileCounts
  import opened Melds
  import opened Decompose
  import Sorting

  /** Dropping zero entries gives a map with the same counts and no zero entry. */
  lemma RetainIs(x: Counts, y: Counts)
    requires forall t :: Get(x, t) == Get(y, t)
    requires Positive(y)
    ensures Retain(x) == y
  {
    var r := Retain(x);
    assert forall t :: t in r <==> t in y by {
      forall t ensures t in r <==> t in y {
        assert Get(x, t) == Get(y, t);
      }
    }
    assert forall t :: t in r ==> r[t] == y[t] by {
      forall t | t in r ensures r[t] == y[t] {
        assert Get(r, t) == Get(x, t) == Get(y, t);
      }
    }
  }

  /** Counts that match tile by tile the tiles of `m` and of `y` stand for exactly those tiles. */
  lemma BagOf(x: Counts, m: Meld, y: Counts)
    requires forall u :: Get(x, u) == MeldTiles(m)[u] + Get(y, u)
    ensures Bag(x) == MeldTiles(m) + Bag(y)
  {
    assert forall u :: Bag(x)[u] == (MeldTiles(m) + Bag(y))[u];
  }

  /** No entry of the counts is zero, as after `Retain`. */
  predicate Positive(c: Counts)
  {
    forall u :: u in c ==> c[u] > 0
  }

  /** `t` is held and no tile held is below it. */
  predicate Lowest(c: Counts, t: Tile)
  {
    t in c && forall u :: u in c ==> Index(t) <= Index(u)
  }

  /** A meld put in front of the only result gives the only result. */
  lemma PrependOne(m: Meld, r: seq<Meld>)
    ensures Prepend(m, [r]) == [[m] + r]
  {
  }

  /** Melds put in front one at a time build the list of all of them. */
  lemma Conses(a: Meld, b: Meld, c: Meld, d: Meld)
    ensures [c] + [d] == [c, d] && [b] + [c, d] == [b, c, d] && [a] + [b, c, d] == [a, b, c, d]
  {
  }

  /** A list without repeats whose only member is `x` is `[x]`. */
  lemma OnlyReading(results: seq<HandStructure>, x: HandStructure)
    requires Sorting.Distinct(results)
    requires forall h :: h in results <==> h == x
    ensures results == [x]
  {
    assert x in results;
    if |results| > 1 {
      DistinctPair(results, 0, 1);
      assert false;
    }
  }

  /** Two places of a list without repeats hold two different members of it. */
  lemma DistinctPair(s: seq<HandStructure>, i: nat, j: nat)
    requires Sorting.Distinct(s) && i < j < |s|
    ensures s[i] in s && s[j] in s && s[i] != s[j]
  {
  }

  /** Neither a triplet nor a sequence can start at `t`. */
  predicate NoMeldFrom(c: Counts, t: Tile)
  {
    Get(c, t) < 3 && (Get(c, t) >= 1 ==> !RunAvailable(c, t))
  }

  /** A split into at least one meld starts with a triplet or a sequence the tiles allow. */
  lemma SplitStart(c: Counts, needed: nat, ms: seq<Meld>) returns (t: Tile)
    requires needed > 0 && Splits(c, needed, ms)
    ensures !NoMeldFrom(c, t)
  {
    var k := PivotSplit(c, needed, ms);
    t := ms[k].rep;
  }

  /** Counts on which no tile starts a meld do not split into one meld or more. */
  lemma NoMeldStarts(c: Counts, needed: nat, ms: seq<Meld>)
    requires needed > 0 && forall t :: NoMeldFrom(c, t)
    ensures !Splits(c, needed, ms)
  {
    if Splits(c, needed, ms) {
      var t := SplitStart(c, needed, ms);
      assert false;
    }
  }

  /** Taking a pair leaves no tile held more often than before. */
  lemma RemovePairBelow(c: Counts, p: Tile)
    requires p in c && c[p] >= 2
    ensures forall u :: Get(RemovePair(c, p), u) <= Get(c, u)
  {
    var r := RemovePair(c, p);
    forall u ensures Get(r, u) <= Get(c, u) {
      assert Bag(r)[u] <= Bag(c)[u];
    }
  }

  /** Holding fewer of every tile never lets a meld start where none could. */
  lemma FewerNoMeld(c: Counts, r: Counts)
    requires forall u :: Get(r, u) <= Get(c, u)
    requires forall t :: NoMeldFrom(c, t)
    ensures forall t :: NoMeldFrom(r, t)
  {
    forall t ensures NoMeldFrom(r, t) {
      assert NoMeldFrom(c, t);
      if Get(r, t) >= 1 && t.Suited? && t.value <= 7 {
        assert Get(r, Succ(t, 1)) <= Get(c, Succ(t, 1)) && Get(r, Succ(t, 2)) <= Get(c, Succ(t, 2));
      }
    }
  }

  /** An honor that is part of a split is held at least three times: it is only ever a triplet. */
  lemma HonorInTriplet(c: Counts, needed: nat, ms: seq<Meld>, t: Tile)
    requires Splits(c, needed, ms) && t.Honor? && Get(c, t) >= 1
    ensures Get(c, t) >= 3
  {
    var k := MeldOfTile(c, ms, t);
    var m := ms[k];
    assert m in ms;
    ExpandRemove(ms, k);
    if m.Shuntsu? {
      RunTilesSuited(m, t);
      assert false;
    }
    assert MeldTiles(m)[t] == 3;
    assert Bag(c)[t] >= MeldTiles(m)[t];
  }

  /** The tiles of a sequence are numbered tiles. */
  lemma RunTilesSuited(m: Meld, u: Tile)
    requires m.Shuntsu? && u in MeldTiles(m)
    ensures u.Suited?
  {
  }

  /** Taking meld `m` from counts that hold its tiles and those of `y` leaves `y`. */
  lemma MeldLeaves(x: Counts, m: Meld, y: Counts)
    requires ValidMeld(m) && Bag(x) == MeldTiles(m) + Bag(y) && Positive(y)
    ensures m.Koutsu? ==> Get(x, m.rep) >= 3
    ensures m.Shuntsu? ==> Get(x, m.rep) >= 1 && RunAvailable(x, m.rep)
    ensures Retain(TakeMeld(x, m)) == y
  {
    MeldAvailable(x, m, Bag(y));
    TakeMeldTiles(x, m);
    var r := TakeMeld(x, m);
    Cancel(Bag(r), Bag(y), MeldTiles(m));
    forall u ensures Get(r, u) == Get(y, u) {
      assert Bag(r)[u] == Bag(y)[u];
    }
    RetainIs(r, y);
  }

  /**
   * The counts `x`, with no zero entry, hold the tile of meld `m` as their
   * lowest tile and exactly the tiles of `m` and of the counts `y`.
   */
  ghost predicate LeadsWith(x: Counts, m: Meld, y: Counts)
  {
    ValidMeld(m) && Positive(x) && Lowest(x, m.rep) && Bag(x) == MeldTiles(m) + Bag(y)
  }

  /**
   * When the lowest tile is held fewer than three times the search goes only
   * through the sequence from it.
   */
  lemma FoundByRun(x: Counts, n: nat, m: Meld, y: Counts)
    requires n > 0 && m.Shuntsu? && LeadsWith(x, m, y) && Positive(y) && x[m.rep] < 3
    ensures FindAll(x, n) == Prepend(m, FindAll(y, n - 1))
  {
    var t := m.rep;
    RetainIs(x, x);
    MinTileIs(x, t);
    MeldLeaves(x, m, y);
    RetainIs(y, y);
    assert FindAll(TakeRun(x, t), n - 1) == FindAll(y, n - 1);
    assert TripletResults(x, t, n) == [];
  }

  /** When the lowest tile is an honor the search goes only through its triplet. */
  lemma FoundByTriplet(x: Counts, n: nat, m: Meld, y: Counts)
    requires n > 0 && m.Koutsu? && m.rep.Honor? && LeadsWith(x, m, y) && Positive(y)
    ensures FindAll(x, n) == Prepend(m, FindAll(y, n - 1))
  {
    var t := m.rep;
    RetainIs(x, x);
    MinTileIs(x, t);
    MeldLeaves(x, m, y);
    RetainIs(y, y);
    assert FindAll(TakeTriplet(x, t), n - 1) == FindAll(y, n - 1);
    assert RunResults(x, t, n) == [];
  }

  /** A sequence step followed by a single result gives a single result. */
  lemma RunThenOnly(x: Counts, n: nat, m: Meld, y: Counts, rest: seq<Meld>)
    requires n > 0 && m.Shuntsu? && LeadsWith(x, m, y) && Positive(y) && x[m.rep] < 3
    requires FindAll(y, n - 1) == [rest]
    ensures FindAll(x, n) == [[m] + rest]
  {
    FoundByRun(x, n, m, y);
    PrependOne(m, rest);
  }

  /** An honor triplet that uses up the tiles is the single result. */
  lemma TripletThenNone(x: Counts, m: Meld)
    requires m.Koutsu? && m.rep.Honor? && LeadsWith(x, m, map[])
    ensures FindAll(x, 1) == [[m]]
  {
    var e: Counts := map[];
    RetainIs(e, e);
    assert FindAll(e, 0) == [[]];
    FoundByTriplet(x, 1, m, e);
    PrependOne(m, []);
    assert [m] + [] == [m];
  }

  /**
   * Three sequence steps and then an honor triplet that uses up the tiles,
   * each the only way on, give a single result.
   */
  lemma FoundChain(x0: Counts, a: Meld, x1: Counts, b: Meld, x2: Counts, c: Meld, x3: Counts, d: Meld)
    requires a.Shuntsu? && LeadsWith(x0, a, x1) && x0[a.rep] < 3
    requires b.Shuntsu? && LeadsWith(x1, b, x2) && x1[b.rep] < 3
    requires c.Shuntsu? && LeadsWith(x2, c, x3) && x2[c.rep] < 3
    requires d.Koutsu? && d.rep.Honor? && LeadsWith(x3, d, map[])
    ensures FindAll(x0, 4) == [[a, b, c, d]]
  {
    Conses(a, b, c, d);
    TripletThenNone(x3, d);
    RunThenOnly(x2, 2, c, x3, [d]);
    RunThenOnly(x1, 3, b, x2, [c, d]);
    RunThenOnly(x0, 4, a, x1, [b, c, d]);
  }

  /** A pivot held fewer than three times can only start a sequence. */
  lemma OnlyRunFrom(x: Counts, needed: nat, t: Tile)
    requires needed > 0 && Retain(x) != map[] && MinTile(Retain(x)) == t && Get(x, t) < 3
    ensures CanForm(x, needed) ==>
              RunAvailable(Retain(x), t) && CanForm(TakeRun(Retain(x), t), needed - 1)
  {
    var c := Retain(x);
    assert Get(c, t) == Get(x, t);
    if CanForm(x, needed) {
      assert !CanTriplet(c, t, needed);
      assert CanRun(c, t, needed);
    }
  }

  /**
   * When the lowest tile is held fewer than three times and what the
   * sequence from it leaves cannot be split, the counts cannot be split.
   */
  lemma BlockedAfterRun(x: Counts, n: nat, t: Tile)
    requires n > 0 && Positive(x) && Lowest(x, t) && x[t] < 3
    requires RunAvailable(x, t) ==> !CanForm(TakeRun(x, t), n - 1)
    ensures !CanForm(x, n)
  {
    RetainIs(x, x);
    MinTileIs(x, t);
    OnlyRunFrom(x, n, t);
  }
}
