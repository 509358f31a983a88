/**
 * Melds and the backtracking meld search of the hand-shape engine
 * (`find_all_meld_combinations` and its existence-only twin `can_form_melds`).
 *
 * Both searches take the smallest tile still present as the pivot.  The pivot
 * can only be used up as a member of a triplet or as the LOWEST tile of a
 * sequence, since no smaller tile is left to start a sequence through it;
 * `FindAllComplete` is that argument, proved.
 */
module Melds {
  import opened Tiles
  import opened TileCounts
  import Sorting

  /** A group of three tiles: a sequence, stored by its lowest tile, or a triplet. */
  datatype Meld = Shuntsu(rep: Tile) | Koutsu(rep: Tile)

  /** A sequence starts at a numbered tile of value at most 7. */
  predicate ValidMeld(m: Meld)
  {
    m.Shuntsu? ==> m.rep.Suited? && m.rep.value <= 7
  }

  predicate AllValid(ms: seq<Meld>)
  {
    forall m :: m in ms ==> ValidMeld(m)
  }

  /**
   * The three tiles a meld stands for.  A sequence that does not start at a
   * numbered tile of value at most 7 is never formed; it stands for no tiles.
   */
  function MeldTiles(m: Meld): multiset<Tile>
  {
    match m
    case Koutsu(t) => multiset{t, t, t}
    case Shuntsu(t) =>
      if ValidMeld(m) then multiset{t, Succ(t, 1), Succ(t, 2)} else multiset{}
  }

  /** The tiles of a list of melds. */
  function Expand(ms: seq<Meld>): multiset<Tile>
  {
    SumOver(ms, MeldTiles)
  }

  /** The union of `f(x)` over the elements `x` of `s`. */
  function SumOver<T>(s: seq<T>, f: T -> multiset<Tile>): multiset<Tile>
  {
    if s == [] then multiset{} else f(s[0]) + SumOver(s[1..], f)
  }

  lemma {:induction false} SumOverAppend<T>(a: seq<T>, b: seq<T>, f: T -> multiset<Tile>)
    ensures SumOver(a + b, f) == SumOver(a, f) + SumOver(b, f)
  {
    if a == [] {
      assert a + b == b;
    } else {
      assert (a + b)[0] == a[0] && (a + b)[1..] == a[1..] + b;
      SumOverAppend(a[1..], b, f);
    }
  }

  lemma {:induction false} SumOverRemove<T>(b: seq<T>, k: nat, f: T -> multiset<Tile>)
    requires k < |b|
    ensures SumOver(b, f) == f(b[k]) + SumOver(b[..k] + b[k + 1..], f)
  {
    var rest := b[..k] + b[k + 1..];
    if k == 0 {
      assert rest == b[1..];
    } else {
      var tail := b[1..];
      SumOverRemove(tail, k - 1, f);
      var tailRest := tail[..k - 1] + tail[k..];
      assert rest == [b[0]] + tailRest;
      assert rest[1..] == tailRest;
      assert tail[k - 1] == b[k];
    }
  }

  /** The union does not depend on the order of the elements. */
  lemma {:induction false} SumOverPermutation<T>(a: seq<T>, b: seq<T>, f: T -> multiset<Tile>)
    requires multiset(a) == multiset(b)
    ensures SumOver(a, f) == SumOver(b, f)
  {
    if a != [] {
      assert a[0] in multiset(b) by {
        assert a[0] in a;
      }
      var k :| 0 <= k < |b| && b[k] == a[0];
      var rest := b[..k] + b[k + 1..];
      Sorting.MultisetTail(a);
      Sorting.MultisetRemove(b, k);
      SumOverRemove(b, k, f);
      SumOverPermutation(a[1..], rest, f);
    }
  }

  /** Reordering melds keeps their validity and their tiles. */
  lemma ExpandPermutation(a: seq<Meld>, b: seq<Meld>)
    requires multiset(a) == multiset(b)
    ensures AllValid(a) ==> AllValid(b)
    ensures Expand(a) == Expand(b)
  {
    assert forall m :: m in b ==> m in multiset(a);
    SumOverPermutation(a, b, MeldTiles);
  }

  /** Every formed meld stands for three tiles. */
  lemma {:induction false} ExpandSize(ms: seq<Meld>)
    requires AllValid(ms)
    ensures |Expand(ms)| == 3 * |ms|
  {
    if ms != [] {
      assert ms[0] in ms;
      assert AllValid(ms[1..]) by {
        forall m | m in ms[1..] ensures ValidMeld(m) {
          assert m in ms;
        }
      }
      ExpandSize(ms[1..]);
    }
  }

  /** `ms` splits the tiles of `c` into exactly `needed` melds. */
  ghost predicate Splits(c: Counts, needed: nat, ms: seq<Meld>)
  {
    |ms| == needed && AllValid(ms) && Expand(ms) == Bag(c)
  }

  /** `m` put in front of every list of `rs` (`insert(0, m)` on each result). */
  function Prepend(m: Meld, rs: seq<seq<Meld>>): (r: seq<seq<Meld>>)
    ensures |r| == |rs|
    ensures forall i :: 0 <= i < |rs| ==> r[i] == [m] + rs[i]
  {
    seq(|rs|, i requires 0 <= i < |rs| => [m] + rs[i])
  }

  /** Can the pivot start a sequence: numbered, value at most 7, both successors present. */
  predicate RunAvailable(c: Counts, t: Tile)
  {
    t.Suited? && t.value <= 7 && Get(c, Succ(t, 1)) >= 1 && Get(c, Succ(t, 2)) >= 1
  }

  /** The counts after using `t`, `t+1`, `t+2` once each. */
  function TakeRun(c: Counts, t: Tile): Counts
    requires Get(c, t) >= 1 && RunAvailable(c, t)
  {
    Take(Take(Take(c, t, 1), Succ(t, 1), 1), Succ(t, 2), 1)
  }

  /** Taking one copy each of three distinct present tiles removes exactly those tiles. */
  lemma TakeThree(c: Counts, a: Tile, b: Tile, d: Tile)
    requires a != b && a != d && b != d
    requires Get(c, a) >= 1 && Get(c, b) >= 1 && Get(c, d) >= 1
    ensures Bag(Take(Take(Take(c, a, 1), b, 1), d, 1)) + multiset{a, b, d} == Bag(c)
  {
    var r1 := Take(c, a, 1);
    var r2 := Take(r1, b, 1);
    var r := Take(r2, d, 1);
    var m := multiset{a, b, d};
    forall u ensures (Bag(r) + m)[u] == Bag(c)[u] {
      assert Get(r, u) + m[u] == Get(c, u) by {
        if u == a {
          assert Get(r, u) == Get(r1, u);
        } else if u == b {
          assert Get(r, u) == Get(r2, u);
        } else if u == d {
        } else {
          assert m[u] == 0;
        }
      }
    }
  }

  /** Taking a sequence removes exactly its three tiles. */
  lemma TakeRunTiles(c: Counts, t: Tile)
    requires Get(c, t) >= 1 && RunAvailable(c, t)
    ensures Bag(TakeRun(c, t)) + MeldTiles(Shuntsu(t)) == Bag(c)
  {
    TakeThree(c, t, Succ(t, 1), Succ(t, 2));
  }

  /** The counts after using three copies of `t`. */
  function TakeTriplet(c: Counts, t: Tile): Counts
    requires Get(c, t) >= 3
  {
    Take(c, t, 3)
  }

  /** Taking a triplet removes exactly its three tiles. */
  lemma TakeTripletTiles(c: Counts, t: Tile)
    requires Get(c, t) >= 3
    ensures Bag(TakeTriplet(c, t)) + MeldTiles(Koutsu(t)) == Bag(c)
  {
    var r := TakeTriplet(c, t);
    assert forall u :: (Bag(r) + MeldTiles(Koutsu(t)))[u] == Bag(c)[u];
  }

  /**
   * Every way to split `counts` into exactly `needed` melds, pivot first
   * (`find_all_meld_combinations`): the triplet option's results, then the
   * sequence option's.
   */
  function FindAll(counts: Counts, needed: nat): seq<seq<Meld>>
    decreases needed, 1
  {
    var c := Retain(counts);
    if needed == 0 then
      if c == map[] then [[]] else []
    else if c == map[] then []
    else
      var t := MinTile(c);
      TripletResults(c, t, needed) + RunResults(c, t, needed)
  }

  /** Option 1: a triplet of the pivot `t` before every split of the rest. */
  function TripletResults(c: Counts, t: Tile, needed: nat): seq<seq<Meld>>
    requires needed > 0
    decreases needed, 0
  {
    if Get(c, t) >= 3 then Prepend(Koutsu(t), FindAll(TakeTriplet(c, t), needed - 1)) else []
  }

  /** Option 2: a sequence starting at the pivot `t` before every split of the rest. */
  function RunResults(c: Counts, t: Tile, needed: nat): seq<seq<Meld>>
    requires needed > 0 && Get(c, t) >= 1
    decreases needed, 0
  {
    if RunAvailable(c, t) then Prepend(Shuntsu(t), FindAll(TakeRun(c, t), needed - 1)) else []
  }

  /** The search with nothing left to find or nothing left to split. */
  lemma FindAllBase(counts: Counts, needed: nat)
    requires needed == 0 || Retain(counts) == map[]
    ensures FindAll(counts, needed) == if needed == 0 && Retain(counts) == map[] then [[]] else []
  {
  }

  /** Every list of `rs` splits the tiles of `c` into `needed` melds. */
  ghost predicate AllSplit(c: Counts, needed: nat, rs: seq<seq<Meld>>)
  {
    forall ms {:trigger ms in rs} :: ms in rs ==> Splits(c, needed, ms)
  }

  lemma AllSplitConcat(c: Counts, needed: nat, a: seq<seq<Meld>>, b: seq<seq<Meld>>)
    requires AllSplit(c, needed, a) && AllSplit(c, needed, b)
    ensures AllSplit(c, needed, a + b)
  {
    forall ms | ms in a + b ensures Splits(c, needed, ms) {
      assert ms in a || ms in b;
    }
  }

  /** Splitting depends only on the tiles, so zero entries do not matter. */
  lemma AllSplitRetain(counts: Counts, needed: nat, rs: seq<seq<Meld>>)
    requires AllSplit(Retain(counts), needed, rs)
    ensures AllSplit(counts, needed, rs)
  {
    RetainBag(counts);
  }

  lemma PrependSplits(c: Counts, rest: Counts, needed: nat, m: Meld, rs: seq<seq<Meld>>)
    requires needed > 0 && ValidMeld(m)
    requires Bag(rest) + MeldTiles(m) == Bag(c)
    requires AllSplit(rest, needed - 1, rs)
    ensures AllSplit(c, needed, Prepend(m, rs))
  {
    forall ms | ms in Prepend(m, rs) ensures Splits(c, needed, ms) {
      var i :| 0 <= i < |rs| && Prepend(m, rs)[i] == ms;
      assert ms == [m] + rs[i] && rs[i] in rs;
      assert ms[1..] == rs[i];
    }
  }

  /** A triplet of `t` before splits of what is left after taking it splits `c`. */
  lemma PrependTripletSplits(c: Counts, t: Tile, needed: nat, rs: seq<seq<Meld>>)
    requires needed > 0 && Get(c, t) >= 3
    requires AllSplit(TakeTriplet(c, t), needed - 1, rs)
    ensures AllSplit(c, needed, Prepend(Koutsu(t), rs))
  {
    TakeTripletTiles(c, t);
    PrependSplits(c, TakeTriplet(c, t), needed, Koutsu(t), rs);
  }

  /** A sequence from `t` before splits of what is left after taking it splits `c`. */
  lemma PrependRunSplits(c: Counts, t: Tile, needed: nat, rs: seq<seq<Meld>>)
    requires needed > 0 && Get(c, t) >= 1 && RunAvailable(c, t)
    requires AllSplit(TakeRun(c, t), needed - 1, rs)
    ensures AllSplit(c, needed, Prepend(Shuntsu(t), rs))
  {
    TakeRunTiles(c, t);
    PrependSplits(c, TakeRun(c, t), needed, Shuntsu(t), rs);
  }

  /** Soundness of the search: every result splits the tiles into `needed` melds. */
  lemma {:induction false} FindAllSound(counts: Counts, needed: nat)
    ensures AllSplit(counts, needed, FindAll(counts, needed))
    decreases needed, 1
  {
    var c := Retain(counts);
    if needed == 0 || c == map[] {
      FindAllBase(counts, needed);
      if needed == 0 && c == map[] {
        assert Splits(c, 0, []) by {
          assert Bag(c) == multiset{};
        }
      }
    } else {
      var t := MinTile(c);
      TripletResultsSound(c, t, needed);
      RunResultsSound(c, t, needed);
      AllSplitConcat(c, needed, TripletResults(c, t, needed), RunResults(c, t, needed));
    }
    AllSplitRetain(counts, needed, FindAll(counts, needed));
  }

  lemma {:induction false} TripletResultsSound(c: Counts, t: Tile, needed: nat)
    requires needed > 0
    ensures AllSplit(c, needed, TripletResults(c, t, needed))
    decreases needed, 0
  {
    if Get(c, t) >= 3 {
      var rest := TakeTriplet(c, t);
      FindAllSound(rest, needed - 1);
      PrependTripletSplits(c, t, needed, FindAll(rest, needed - 1));
    }
  }

  lemma {:induction false} RunResultsSound(c: Counts, t: Tile, needed: nat)
    requires needed > 0 && Get(c, t) >= 1
    ensures AllSplit(c, needed, RunResults(c, t, needed))
    decreases needed, 0
  {
    if RunAvailable(c, t) {
      var rest := TakeRun(c, t);
      FindAllSound(rest, needed - 1);
      PrependRunSplits(c, t, needed, FindAll(rest, needed - 1));
    }
  }

  /** Whether `counts` splits into exactly `needed` melds (`can_form_melds`). */
  function CanForm(counts: Counts, needed: nat): bool
    decreases needed, 1
  {
    var c := Retain(counts);
    if needed == 0 then c == map[]
    else if c == map[] then false
    else
      var t := MinTile(c);
      CanTriplet(c, t, needed) || CanRun(c, t, needed)
  }

  /** Option 1 of the fast check: a triplet of the pivot, then the rest. */
  function CanTriplet(c: Counts, t: Tile, needed: nat): bool
    requires needed > 0
    decreases needed, 0
  {
    Get(c, t) >= 3 && CanForm(TakeTriplet(c, t), needed - 1)
  }

  /** Option 2 of the fast check: a sequence starting at the pivot, then the rest. */
  function CanRun(c: Counts, t: Tile, needed: nat): bool
    requires needed > 0 && Get(c, t) >= 1
    decreases needed, 0
  {
    RunAvailable(c, t) && CanForm(TakeRun(c, t), needed - 1)
  }

  /** The tiles found in a union come from one of its parts. */
  lemma {:induction false} SumOverMember<T>(s: seq<T>, f: T -> multiset<Tile>, x: Tile)
    requires x in SumOver(s, f)
    ensures exists k :: 0 <= k < |s| && x in f(s[k])
  {
    if x !in f(s[0]) {
      SumOverMember(s[1..], f, x);
      var k :| 0 <= k < |s[1..]| && x in f(s[1..][k]);
      assert s[1..][k] == s[k + 1];
    }
  }

  lemma MeldTilesHold(m: Meld)
    requires ValidMeld(m)
    ensures m.rep in MeldTiles(m)
    ensures m.Koutsu? ==> MeldTiles(m)[m.rep] == 3
    ensures m.Shuntsu? ==> Succ(m.rep, 1) in MeldTiles(m) && Succ(m.rep, 2) in MeldTiles(m)
  {
  }

  lemma Cancel(a: multiset<Tile>, b: multiset<Tile>, m: multiset<Tile>)
    requires a + m == m + b
    ensures a == b
  {
    assert forall x :: a[x] == (a + m)[x] - m[x];
    assert forall x :: b[x] == (m + b)[x] - m[x];
  }

  /**
   * The pivot argument: the smallest tile present belongs to some meld of any
   * split, and that meld is a triplet of it or a sequence starting at it.
   */
  lemma PivotMeld(counts: Counts, needed: nat, ms: seq<Meld>) returns (k: nat)
    requires Splits(counts, needed, ms) && needed > 0
    ensures Retain(counts) != map[]
    ensures k < |ms| && ms[k].rep == MinTile(Retain(counts))
  {
    assert Retain(counts) != map[] by {
      assert ms[0] in ms;
      MeldTilesHold(ms[0]);
      SplitTilePresent(counts, ms, 0, ms[0].rep);
    }
    var t := MinTile(Retain(counts));
    k := MeldOfTile(counts, ms, t);
    if ms[k].Shuntsu? {
      RunPivot(counts, ms, k, t);
    }
  }

  /** Every tile present belongs to some meld of a split. */
  lemma MeldOfTile(counts: Counts, ms: seq<Meld>, t: Tile) returns (k: nat)
    requires Expand(ms) == Bag(counts) && t in Retain(counts)
    ensures k < |ms| && t in MeldTiles(ms[k])
  {
    assert t in Expand(ms) by {
      assert Bag(counts)[t] == Get(counts, t) > 0;
    }
    SumOverMember(ms, MeldTiles, t);
    k :| 0 <= k < |ms| && t in MeldTiles(ms[k]);
  }

  /** A sequence of a split holding the smallest tile present starts at it. */
  lemma RunPivot(counts: Counts, ms: seq<Meld>, k: nat, t: Tile)
    requires AllValid(ms) && Expand(ms) == Bag(counts) && k < |ms|
    requires Retain(counts) != map[] && t == MinTile(Retain(counts))
    requires ms[k].Shuntsu? && t in MeldTiles(ms[k])
    ensures ms[k].rep == t
  {
    var m := ms[k];
    assert m in ms;
    MeldTilesHold(m);
    SplitTilePresent(counts, ms, k, m.rep);
    LowestOfRun(m, t);
  }

  /** A tile of any meld of a split is present in the hand. */
  lemma SplitTilePresent(counts: Counts, ms: seq<Meld>, k: nat, u: Tile)
    requires AllValid(ms) && Expand(ms) == Bag(counts) && k < |ms|
    requires u in MeldTiles(ms[k])
    ensures u in Retain(counts)
  {
    ExpandRemove(ms, k);
    assert Bag(counts)[u] > 0;
  }

  /** A tile of a sequence that is not above its lowest tile is its lowest tile. */
  lemma LowestOfRun(m: Meld, t: Tile)
    requires m.Shuntsu? && ValidMeld(m) && t in MeldTiles(m)
    requires Index(t) <= Index(m.rep)
    ensures t == m.rep
  {
    IndexInjective(t, m.rep);
  }

  lemma ExpandRemove(ms: seq<Meld>, k: nat)
    requires AllValid(ms) && k < |ms|
    ensures AllValid(ms[..k] + ms[k + 1..])
    ensures Expand(ms) == MeldTiles(ms[k]) + Expand(ms[..k] + ms[k + 1..])
    ensures multiset(ms) == multiset{ms[k]} + multiset(ms[..k] + ms[k + 1..])
  {
    var rest := ms[..k] + ms[k + 1..];
    assert AllValid(rest) by {
      assert forall m :: m in rest ==> m in ms;
    }
    assert Expand(ms) == MeldTiles(ms[k]) + Expand(rest) by {
      SumOverRemove(ms, k, MeldTiles);
    }
    assert multiset(ms) == multiset{ms[k]} + multiset(rest) by {
      Sorting.MultisetRemove(ms, k);
    }
  }

  lemma PrependMember(m: Meld, rs: seq<seq<Meld>>, r: seq<Meld>)
    requires r in rs
    ensures [m] + r in Prepend(m, rs)
  {
    var i :| 0 <= i < |rs| && rs[i] == r;
    assert Prepend(m, rs)[i] == [m] + r;
  }

  /** The counts after using the tiles of meld `m` (whichever branch of the search). */
  function TakeMeld(c: Counts, m: Meld): Counts
    requires m.Koutsu? ==> Get(c, m.rep) >= 3
    requires m.Shuntsu? ==> Get(c, m.rep) >= 1 && RunAvailable(c, m.rep)
  {
    if m.Koutsu? then TakeTriplet(c, m.rep) else TakeRun(c, m.rep)
  }

  lemma TakeMeldTiles(c: Counts, m: Meld)
    requires m.Koutsu? ==> Get(c, m.rep) >= 3
    requires m.Shuntsu? ==> Get(c, m.rep) >= 1 && RunAvailable(c, m.rep)
    ensures Bag(TakeMeld(c, m)) + MeldTiles(m) == Bag(c)
  {
    if m.Koutsu? {
      TakeTripletTiles(c, m.rep);
    } else {
      TakeRunTiles(c, m.rep);
    }
  }

  /** A meld whose tiles are part of the hand can be taken from it. */
  lemma MeldAvailable(c: Counts, m: Meld, restBag: multiset<Tile>)
    requires ValidMeld(m) && MeldTiles(m) + restBag == Bag(c)
    ensures m.Koutsu? ==> Get(c, m.rep) >= 3
    ensures m.Shuntsu? ==> Get(c, m.rep) >= 1 && RunAvailable(c, m.rep)
  {
    MeldTilesHold(m);
    assert Bag(c)[m.rep] >= MeldTiles(m)[m.rep];
    if m.Shuntsu? {
      assert Bag(c)[Succ(m.rep, 1)] >= 1 && Bag(c)[Succ(m.rep, 2)] >= 1;
    }
  }

  /** One step of the search: a pivot meld put before a sub-result is a result. */
  lemma FoundStep(counts: Counts, needed: nat, m: Meld, r: seq<Meld>)
    requires needed > 0 && Retain(counts) != map[]
    requires m.rep == MinTile(Retain(counts))
    requires m.Koutsu? ==> Get(Retain(counts), m.rep) >= 3
    requires m.Shuntsu? ==> Get(Retain(counts), m.rep) >= 1 && RunAvailable(Retain(counts), m.rep)
    requires r in FindAll(TakeMeld(Retain(counts), m), needed - 1)
    ensures [m] + r in FindAll(counts, needed)
  {
    var c := Retain(counts);
    var t := m.rep;
    PrependMember(m, FindAll(TakeMeld(c, m), needed - 1), r);
    if m.Koutsu? {
      assert [m] + r in TripletResults(c, t, needed);
    } else {
      assert [m] + r in RunResults(c, t, needed);
    }
  }

  /**
   * Taking the pivot meld of a split leaves a split of the remaining tiles
   * into the remaining melds.
   */
  lemma PivotSplit(counts: Counts, needed: nat, ms: seq<Meld>) returns (k: nat)
    requires Splits(counts, needed, ms) && needed > 0
    ensures Retain(counts) != map[] && k < |ms|
    ensures ms[k].rep == MinTile(Retain(counts))
    ensures ms[k].Koutsu? ==> Get(Retain(counts), ms[k].rep) >= 3
    ensures ms[k].Shuntsu? ==> Get(Retain(counts), ms[k].rep) >= 1 && RunAvailable(Retain(counts), ms[k].rep)
    ensures Splits(TakeMeld(Retain(counts), ms[k]), needed - 1, ms[..k] + ms[k + 1..])
    ensures multiset(ms) == multiset{ms[k]} + multiset(ms[..k] + ms[k + 1..])
  {
    var c := Retain(counts);
    RetainBag(counts);
    k := PivotMeld(counts, needed, ms);
    var m := ms[k];
    var rest := ms[..k] + ms[k + 1..];
    ExpandRemove(ms, k);
    assert ValidMeld(m) by {
      assert m in ms;
    }
    MeldAvailable(c, m, Expand(rest));
    TakeMeldTiles(c, m);
    Cancel(Bag(TakeMeld(c, m)), Expand(rest), MeldTiles(m));
  }

  /** A hand with no tiles has no entries left once zero counts are dropped. */
  lemma NothingLeft(counts: Counts)
    requires Bag(counts) == multiset{}
    ensures Retain(counts) == map[]
  {
    var c := Retain(counts);
    assert forall t :: t in c ==> Bag(counts)[t] > 0;
  }

  /**
   * Completeness of the search: every split of the tiles into `needed` melds
   * is found, up to the order of its melds.
   */
  lemma {:induction false} FindAllComplete(counts: Counts, needed: nat, ms: seq<Meld>) returns (r: seq<Meld>)
    requires Splits(counts, needed, ms)
    ensures r in FindAll(counts, needed) && multiset(r) == multiset(ms)
    decreases needed
  {
    if needed == 0 {
      r := EmptyFound(counts, ms);
    } else {
      var m, rest, left := PivotStep(counts, needed, ms);
      var sub := FindAllComplete(left, needed - 1, rest);
      r := [m] + sub;
    }
  }

  /**
   * The inductive step of completeness: the pivot meld `m` of a split, the
   * other melds `rest` and the tiles `left` they split; `m` in front of any
   * result for `left` with the melds of `rest` is a result for the hand.
   */
  lemma PivotStep(counts: Counts, needed: nat, ms: seq<Meld>) returns (m: Meld, rest: seq<Meld>, left: Counts)
    requires Splits(counts, needed, ms) && needed > 0
    ensures Splits(left, needed - 1, rest)
    ensures forall sub :: sub in FindAll(left, needed - 1) && multiset(sub) == multiset(rest) ==>
              [m] + sub in FindAll(counts, needed) && multiset([m] + sub) == multiset(ms)
  {
    var k := PivotSplit(counts, needed, ms);
    m := ms[k];
    rest := ms[..k] + ms[k + 1..];
    left := TakeMeld(Retain(counts), m);
    forall sub | sub in FindAll(left, needed - 1) && multiset(sub) == multiset(rest)
      ensures [m] + sub in FindAll(counts, needed) && multiset([m] + sub) == multiset(ms)
    {
      var r := PivotFound(counts, needed, m, sub, rest, ms);
    }
  }

  /** A split into no melds leaves no tiles, which the search reports as one empty list. */
  lemma EmptyFound(counts: Counts, ms: seq<Meld>) returns (r: seq<Meld>)
    requires Splits(counts, 0, ms)
    ensures r in FindAll(counts, 0) && multiset(r) == multiset(ms)
  {
    assert ms == [];
    NothingLeft(counts);
    FindAllBase(counts, 0);
    r := [];
  }

  /**
   * The pivot meld of a split put in front of a result found for what it
   * leaves is a result for the whole hand, with the melds of the split.
   */
  lemma PivotFound(counts: Counts, needed: nat, m: Meld, sub: seq<Meld>, rest: seq<Meld>, ms: seq<Meld>)
    returns (r: seq<Meld>)
    requires needed > 0 && Retain(counts) != map[]
    requires m.rep == MinTile(Retain(counts))
    requires m.Koutsu? ==> Get(Retain(counts), m.rep) >= 3
    requires m.Shuntsu? ==> Get(Retain(counts), m.rep) >= 1 && RunAvailable(Retain(counts), m.rep)
    requires sub in FindAll(TakeMeld(Retain(counts), m), needed - 1)
    requires multiset(sub) == multiset(rest) && multiset(ms) == multiset{m} + multiset(rest)
    ensures r in FindAll(counts, needed) && multiset(r) == multiset(ms)
  {
    FoundStep(counts, needed, m, sub);
    r := [m] + sub;
  }

  /**
   * A split that starts with a meld on the lowest tile is found with that meld
   * in front.
   */
  lemma LeadFound(counts: Counts, needed: nat, m: Meld, rest: seq<Meld>) returns (r: seq<Meld>)
    requires needed > 0 && Splits(counts, needed, [m] + rest)
    requires Retain(counts) != map[] && m.rep == MinTile(Retain(counts))
    ensures r in FindAll(counts, needed) && r != [] && r[0] == m
    ensures multiset(r) == multiset([m] + rest)
  {
    var c := Retain(counts);
    LeadSplit(counts, needed, m, rest);
    var sub := FindAllComplete(TakeMeld(c, m), needed - 1, rest);
    FoundStep(counts, needed, m, sub);
    r := [m] + sub;
  }

  lemma LeadSplit(counts: Counts, needed: nat, m: Meld, rest: seq<Meld>)
    requires needed > 0 && Splits(counts, needed, [m] + rest)
    ensures m.Koutsu? ==> Get(Retain(counts), m.rep) >= 3
    ensures m.Shuntsu? ==> Get(Retain(counts), m.rep) >= 1 && RunAvailable(Retain(counts), m.rep)
    ensures Splits(TakeMeld(Retain(counts), m), needed - 1, rest)
  {
    var c := Retain(counts);
    var ms := [m] + rest;
    RetainBag(counts);
    assert ms[0] == m && ms[1..] == rest;
    assert ValidMeld(m) by {
      assert m in ms;
    }
    assert AllValid(rest) by {
      forall x | x in rest ensures ValidMeld(x) {
        assert x in ms;
      }
    }
    MeldAvailable(c, m, Expand(rest));
    TakeMeldTiles(c, m);
    Cancel(Bag(TakeMeld(c, m)), Expand(rest), MeldTiles(m));
  }

  lemma PrependDistinct(m: Meld, rs: seq<seq<Meld>>)
    requires Sorting.Distinct(rs)
    ensures Sorting.Distinct(Prepend(m, rs))
  {
    var p := Prepend(m, rs);
    forall i, j | 0 <= i < j < |p| ensures p[i] != p[j] {
      assert p[i][1..] == rs[i] && p[j][1..] == rs[j];
    }
  }

  lemma PrependHeads(m: Meld, rs: seq<seq<Meld>>)
    ensures forall y :: y in Prepend(m, rs) ==> y != [] && y[0] == m
  {
    forall y | y in Prepend(m, rs) ensures y != [] && y[0] == m {
      var i :| 0 <= i < |rs| && Prepend(m, rs)[i] == y;
    }
  }

  lemma ConcatDistinct(a: seq<seq<Meld>>, b: seq<seq<Meld>>)
    requires Sorting.Distinct(a) && Sorting.Distinct(b)
    requires forall x :: x in a ==> x !in b
    ensures Sorting.Distinct(a + b)
  {
    var s := a + b;
    forall i, j | 0 <= i < j < |s| ensures s[i] != s[j] {
      if j < |a| {
        assert s[i] == a[i] && s[j] == a[j];
      } else if i >= |a| {
        assert s[i] == b[i - |a|] && s[j] == b[j - |a|];
      } else {
        assert s[i] == a[i] && s[j] == b[j - |a|];
        assert a[i] in a && b[j - |a|] in b;
      }
    }
  }

  /** The search never returns the same meld list twice. */
  lemma {:induction false} FindAllDistinct(counts: Counts, needed: nat)
    ensures Sorting.Distinct(FindAll(counts, needed))
    decreases needed, 1
  {
    var c := Retain(counts);
    if needed == 0 || c == map[] {
      FindAllBase(counts, needed);
    } else {
      var t := MinTile(c);
      var triplets := TripletResults(c, t, needed);
      var runs := RunResults(c, t, needed);
      TripletResultsDistinct(c, t, needed);
      RunResultsDistinct(c, t, needed);
      assert forall x :: x in triplets ==> x !in runs;
      ConcatDistinct(triplets, runs);
    }
  }

  lemma {:induction false} TripletResultsDistinct(c: Counts, t: Tile, needed: nat)
    requires needed > 0
    ensures Sorting.Distinct(TripletResults(c, t, needed))
    ensures forall x :: x in TripletResults(c, t, needed) ==> x != [] && x[0] == Koutsu(t)
    decreases needed, 0
  {
    if Get(c, t) >= 3 {
      var sub := FindAll(TakeTriplet(c, t), needed - 1);
      FindAllDistinct(TakeTriplet(c, t), needed - 1);
      PrependDistinct(Koutsu(t), sub);
      PrependHeads(Koutsu(t), sub);
    }
  }

  lemma {:induction false} RunResultsDistinct(c: Counts, t: Tile, needed: nat)
    requires needed > 0 && Get(c, t) >= 1
    ensures Sorting.Distinct(RunResults(c, t, needed))
    ensures forall x :: x in RunResults(c, t, needed) ==> x != [] && x[0] == Shuntsu(t)
    decreases needed, 0
  {
    if RunAvailable(c, t) {
      var sub := FindAll(TakeRun(c, t), needed - 1);
      FindAllDistinct(TakeRun(c, t), needed - 1);
      PrependDistinct(Shuntsu(t), sub);
      PrependHeads(Shuntsu(t), sub);
    }
  }

  /**
   * Every list found starts at the lowest tile: with a triplet only when that
   * tile is held at least three times, with a sequence only from a numbered
   * tile of value at most 7 whose two successors are held (never from an honor).
   */
  lemma FoundLead(counts: Counts, needed: nat, r: seq<Meld>)
    requires needed > 0 && r in FindAll(counts, needed)
    ensures Retain(counts) != map[] && r != [] && r[0].rep == MinTile(Retain(counts))
    ensures r[0].Koutsu? ==> Get(counts, r[0].rep) >= 3
    ensures r[0].Shuntsu? ==>
              r[0].rep.Suited? && r[0].rep.value <= 7
              && Get(counts, Succ(r[0].rep, 1)) >= 1 && Get(counts, Succ(r[0].rep, 2)) >= 1
  {
    var c := Retain(counts);
    var t := MinTile(c);
    if r in TripletResults(c, t, needed) {
      TripletResultsDistinct(c, t, needed);
    } else {
      RunResultsDistinct(c, t, needed);
    }
  }

  /** The fast check succeeds exactly when the full search finds something. */
  lemma {:induction false} CanFormIffFound(counts: Counts, needed: nat)
    ensures CanForm(counts, needed) <==> FindAll(counts, needed) != []
    decreases needed, 1
  {
    var c := Retain(counts);
    if needed == 0 || c == map[] {
      FindAllBase(counts, needed);
    } else {
      var t := MinTile(c);
      CanTripletIffFound(c, t, needed);
      CanRunIffFound(c, t, needed);
    }
  }

  lemma {:induction false} CanTripletIffFound(c: Counts, t: Tile, needed: nat)
    requires needed > 0
    ensures CanTriplet(c, t, needed) <==> TripletResults(c, t, needed) != []
    decreases needed, 0
  {
    if Get(c, t) >= 3 {
      CanFormIffFound(TakeTriplet(c, t), needed - 1);
    }
  }

  lemma {:induction false} CanRunIffFound(c: Counts, t: Tile, needed: nat)
    requires needed > 0 && Get(c, t) >= 1
    ensures CanRun(c, t, needed) <==> RunResults(c, t, needed) != []
    decreases needed, 0
  {
    if RunAvailable(c, t) {
      CanFormIffFound(TakeRun(c, t), needed - 1);
    }
  }

  /** The fast check succeeds exactly when the tiles split into `needed` melds. */
  lemma CanFormIffSplits(counts: Counts, needed: nat)
    ensures CanForm(counts, needed) <==> exists ms :: Splits(counts, needed, ms)
  {
    CanFormIffFound(counts, needed);
    FindAllSound(counts, needed);
    if CanForm(counts, needed) {
      var r := FindAll(counts, needed)[0];
      assert r in FindAll(counts, needed);
    }
    if ms :| Splits(counts, needed, ms) {
      var r := FindAllComplete(counts, needed, ms);
    }
  }
}
