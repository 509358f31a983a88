/**
 * The decomposition engine (`decompose_hand`, `is_standard_hand`,
 * `is_winning_hand`): every way of reading a fourteen-tile hand as thirteen
 * orphans, seven pairs or four melds and a pair, and the winning test that
 * asks only whether one exists.
 */
module Decompose {
  import opened Tiles
  import opened TileCounts
  import opened Melds
  import opened Shapes
  import Sorting

  /** One reading of a hand (`HandStructure`). */
  datatype HandStructure =
    | Standard(melds: seq<Meld>, pair: Tile)
    | Chiitoitsu(pairs: seq<Tile>)
    | Kokushi(pair: Tile)

  // ---------------------------------------------------------------------
  // Meld orders
  // ---------------------------------------------------------------------

  /** Order on melds by their representative tile only (`sort_by_key(|m| rep)`). */
  function RepLe(a: Meld, b: Meld): bool
  {
    Index(a.rep) <= Index(b.rep)
  }

  /** Position of a meld when ties on the tile are broken by kind, sequences first. */
  function MeldKey(m: Meld): nat
  {
    2 * Index(m.rep) + (if m.Shuntsu? then 0 else 1)
  }

  /** Order on melds by tile, then kind. */
  function MeldLe(a: Meld, b: Meld): bool
  {
    MeldKey(a) <= MeldKey(b)
  }

  /** The meld list in the order the rest of the model uses. */
  function SortMelds(ms: seq<Meld>): seq<Meld>
  {
    Sorting.SortBy(ms, MeldLe)
  }

  /** The meld list in the order `decompose_hand` produces: the same melds, ordered by tile alone. */
  function SortMeldsByRep(ms: seq<Meld>): (r: seq<Meld>)
    ensures multiset(r) == multiset(ms) && Sorting.SortedBy(r, RepLe)
  {
    MeldOrders();
    Sorting.SortBySorted(ms, RepLe);
    Sorting.SortBy(ms, RepLe)
  }

  lemma MeldKeyInjective(a: Meld, b: Meld)
    ensures MeldKey(a) == MeldKey(b) ==> a == b
  {
    IndexInjective(a.rep, b.rep);
  }

  /** Tile-then-kind is a total order on melds; the representative order is only a preorder. */
  lemma MeldOrders()
    ensures Sorting.Total(MeldLe) && Sorting.Transitive(MeldLe) && Sorting.Antisymmetric(MeldLe)
    ensures Sorting.Total(RepLe) && Sorting.Transitive(RepLe)
    ensures !Sorting.Antisymmetric(RepLe)
  {
    forall a, b | MeldLe(a, b) && MeldLe(b, a) ensures a == b {
      MeldKeyInjective(a, b);
    }
    var t := Suited(Man, 1);
    assert RepLe(Koutsu(t), Shuntsu(t)) && RepLe(Shuntsu(t), Koutsu(t));
  }

  /**
   * The corrected meld order makes the sorted list depend only on which melds
   * there are, not on the order the search found them in.
   */
  lemma SortMeldsCanonical(a: seq<Meld>, b: seq<Meld>)
    requires multiset(a) == multiset(b)
    ensures SortMelds(a) == SortMelds(b)
    ensures Sorting.SortedBy(SortMelds(a), MeldLe) && multiset(SortMelds(a)) == multiset(a)
  {
    MeldOrders();
    Sorting.SortBySorted(a, MeldLe);
    Sorting.SortBySorted(b, MeldLe);
    Sorting.SortedUnique(SortMelds(a), SortMelds(b), MeldLe);
  }

  // ---------------------------------------------------------------------
  // Result order
  // ---------------------------------------------------------------------

  function TileKeys(ts: seq<Tile>): (ks: seq<int>)
    ensures |ks| == |ts| && forall i :: 0 <= i < |ts| ==> ks[i] == Index(ts[i])
  {
    seq(|ts|, i requires 0 <= i < |ts| => Index(ts[i]))
  }

  function MeldKeys(ms: seq<Meld>): (ks: seq<int>)
    ensures |ks| == |ms| && forall i :: 0 <= i < |ms| ==> ks[i] == MeldKey(ms[i])
  {
    seq(|ms|, i requires 0 <= i < |ms| => MeldKey(ms[i]))
  }

  /**
   * A code for a structure, compared lexicographically to order the results.
   * Like the text the source compares, it puts seven pairs before thirteen
   * orphans before standard hands and tells every two structures apart.
   */
  function Key(h: HandStructure): seq<int>
  {
    match h
    case Chiitoitsu(ps) => [0, |ps|] + TileKeys(ps)
    case Kokushi(p) => [1, Index(p)]
    case Standard(ms, p) => [2, |ms|] + MeldKeys(ms) + [Index(p)]
  }

  lemma TileKeysInjective(a: seq<Tile>, b: seq<Tile>)
    requires TileKeys(a) == TileKeys(b)
    ensures a == b
  {
    forall i | 0 <= i < |a| ensures a[i] == b[i] {
      IndexInjective(a[i], b[i]);
    }
  }

  lemma MeldKeysInjective(a: seq<Meld>, b: seq<Meld>)
    requires MeldKeys(a) == MeldKeys(b)
    ensures a == b
  {
    forall i | 0 <= i < |a| ensures a[i] == b[i] {
      MeldKeyInjective(a[i], b[i]);
    }
  }

  /** Different structures have different codes. */
  lemma KeyInjective(a: HandStructure, b: HandStructure)
    requires Key(a) == Key(b)
    ensures a == b
  {
    var k := Key(a);
    assert k[0] == Key(b)[0];
    assert a.Chiitoitsu? == b.Chiitoitsu? && a.Kokushi? == b.Kokushi?;
    match a
    case Chiitoitsu(ps) =>
      assert |ps| == k[1] == |b.pairs|;
      assert TileKeys(ps) == k[2..] == TileKeys(b.pairs);
      TileKeysInjective(ps, b.pairs);
    case Kokushi(p) =>
      IndexInjective(p, b.pair);
    case Standard(ms, p) =>
      var n := |ms|;
      assert n == k[1] == |b.melds|;
      assert MeldKeys(ms) == k[2..2 + n] == MeldKeys(b.melds);
      MeldKeysInjective(ms, b.melds);
      assert Index(p) == k[2 + n] == Index(b.pair);
      IndexInjective(p, b.pair);
  }

  /** Lexicographic order on codes; a proper prefix comes first. */
  function LexLe(a: seq<int>, b: seq<int>): bool
  {
    if a == [] then true
    else if b == [] then false
    else if a[0] != b[0] then a[0] < b[0]
    else LexLe(a[1..], b[1..])
  }

  lemma {:induction false} LexTotal(a: seq<int>, b: seq<int>)
    ensures LexLe(a, b) || LexLe(b, a)
  {
    if a != [] && b != [] && a[0] == b[0] {
      LexTotal(a[1..], b[1..]);
    }
  }

  lemma {:induction false} LexTransitive(a: seq<int>, b: seq<int>, c: seq<int>)
    requires LexLe(a, b) && LexLe(b, c)
    ensures LexLe(a, c)
  {
    if a != [] && b != [] && c != [] && a[0] == b[0] == c[0] {
      LexTransitive(a[1..], b[1..], c[1..]);
    }
  }

  lemma {:induction false} LexAntisymmetric(a: seq<int>, b: seq<int>)
    requires LexLe(a, b) && LexLe(b, a)
    ensures a == b
  {
    if a != [] {
      LexAntisymmetric(a[1..], b[1..]);
      assert a == [a[0]] + a[1..] && b == [b[0]] + b[1..];
    }
  }

  /** The order `decompose_hand` sorts its results by. */
  function HsLe(a: HandStructure, b: HandStructure): bool
  {
    LexLe(Key(a), Key(b))
  }

  /** The result order is total and tells structures apart, so sorting makes repeats adjacent. */
  lemma ResultOrder()
    ensures Sorting.Total(HsLe) && Sorting.Transitive(HsLe) && Sorting.Antisymmetric(HsLe)
  {
    forall a, b ensures HsLe(a, b) || HsLe(b, a) {
      LexTotal(Key(a), Key(b));
    }
    forall a, b, c | HsLe(a, b) && HsLe(b, c) ensures HsLe(a, c) {
      LexTransitive(Key(a), Key(b), Key(c));
    }
    forall a, b | HsLe(a, b) && HsLe(b, a) ensures a == b {
      LexAntisymmetric(Key(a), Key(b));
      KeyInjective(a, b);
    }
  }

  // ---------------------------------------------------------------------
  // What a decomposition is
  // ---------------------------------------------------------------------

  /** The hand without two copies of the pair tile, the entry dropped when it reaches zero. */
  function RemovePair(c: Counts, p: Tile): (r: Counts)
    requires p in c && c[p] >= 2
    ensures Bag(r) + multiset{p, p} == Bag(c)
    ensures p in r <==> c[p] > 2
  {
    var r := if c[p] == 2 then c - {p} else c[p := c[p] - 2];
    assert forall t :: (Bag(r) + multiset{p, p})[t] == Bag(c)[t];
    r
  }

  /** Four melds and a pair exist for the hand. */
  ghost predicate StandardShape(counts: Counts)
  {
    exists p, ms :: p in counts && counts[p] >= 2 && Splits(RemovePair(counts, p), 4, ms)
  }

  /** A winning hand: thirteen orphans, seven pairs or four melds and a pair. */
  ghost predicate WinningShape(counts: Counts)
  {
    KokushiShape(counts) || IsChiitoitsu(counts) || StandardShape(counts)
  }

  /**
   * `h` is a reading of the hand in canonical form: the thirteen-orphans pair,
   * the seven pairs in tile order, or a pair and four melds in meld order that
   * use up the rest of the tiles.
   */
  ghost predicate IsDecomposition(counts: Counts, h: HandStructure)
  {
    match h
    case Kokushi(p) => KokushiShape(counts) && p in KokushiTiles && Get(counts, p) == 2
    case Chiitoitsu(ps) => IsChiitoitsu(counts) && ps == SortedKeys(counts)
    case Standard(ms, p) =>
      p in counts && counts[p] >= 2 && Sorting.SortedBy(ms, MeldLe)
      && Splits(RemovePair(counts, p), 4, ms)
  }

  /** The tiles a reading accounts for. */
  function HandTiles(h: HandStructure): multiset<Tile>
  {
    match h
    case Standard(ms, p) => Expand(ms) + multiset{p, p}
    case Chiitoitsu(ps) => Twice(ps)
    case Kokushi(p) => multiset(KokushiTiles) + multiset{p}
  }

  /** Every reading accounts for exactly the fourteen tiles of the hand. */
  lemma DecompositionTiles(counts: Counts, h: HandStructure)
    requires IsDecomposition(counts, h)
    ensures Bag(counts) == HandTiles(h)
    ensures Total(counts) == 14
  {
    match h
    case Kokushi(p) =>
      KokushiHand(counts, p);
    case Chiitoitsu(ps) =>
      ChiitoitsuTiles(counts);
    case Standard(ms, p) =>
      ExpandSize(ms);
  }

  /** A standard reading lists its melds by tile, and its pair tile was held at least twice. */
  lemma StandardReadingShape(counts: Counts, ms: seq<Meld>, p: Tile)
    requires IsDecomposition(counts, Standard(ms, p))
    ensures Sorting.SortedBy(ms, RepLe) && Get(counts, p) >= 2
  {
    forall i, j | 0 <= i < j < |ms| ensures RepLe(ms[i], ms[j]) {
      assert MeldLe(ms[i], ms[j]);
    }
  }

  /** The pair of a thirteen-orphans hand is unique. */
  lemma KokushiPairUnique(counts: Counts, p: Tile, q: Tile)
    requires OnePair(counts)
    requires p in KokushiTiles && Get(counts, p) == 2
    requires q in KokushiTiles && Get(counts, q) == 2
    ensures p == q
  {
    var i :| 0 <= i < 13 && KokushiTiles[i] == p;
    var j :| 0 <= j < 13 && KokushiTiles[j] == q;
  }

  /** A reading exists exactly for winning hands. */
  lemma DecompositionExists(counts: Counts)
    ensures WinningShape(counts) <==> exists h :: IsDecomposition(counts, h)
  {
    if KokushiShape(counts) {
      var i :| 0 <= i < 13 && Get(counts, KokushiTiles[i]) == 2;
      assert IsDecomposition(counts, Kokushi(KokushiTiles[i]));
    } else if IsChiitoitsu(counts) {
      assert IsDecomposition(counts, Chiitoitsu(SortedKeys(counts)));
    } else if StandardShape(counts) {
      var p, ms :| p in counts && counts[p] >= 2 && Splits(RemovePair(counts, p), 4, ms);
      SortMeldsCanonical(ms, ms);
      ExpandPermutation(ms, SortMelds(ms));
      assert IsDecomposition(counts, Standard(SortMelds(ms), p));
    }
    if h :| IsDecomposition(counts, h) {
      if h.Standard? {
        assert StandardShape(counts) by {
          assert Splits(RemovePair(counts, h.pair), 4, h.melds);
        }
      }
    }
  }

  // ---------------------------------------------------------------------
  // decompose_hand
  // ---------------------------------------------------------------------

  /**
   * With `p` as the pair, the meld lists the search returns, once put in meld
   * order, are exactly the standard readings.
   */
  lemma StandardListed(counts: Counts, p: Tile, ms: seq<Meld>)
    requires p in counts && counts[p] >= 2
    ensures (exists j :: 0 <= j < |FindAll(RemovePair(counts, p), 4)|
                         && ms == SortMelds(FindAll(RemovePair(counts, p), 4)[j]))
            <==> IsDecomposition(counts, Standard(ms, p))
  {
    var rest := RemovePair(counts, p);
    var combos := FindAll(rest, 4);
    if j :| 0 <= j < |combos| && ms == SortMelds(combos[j]) {
      var f := combos[j];
      FindAllSound(rest, 4);
      assert f in combos;
      assert Splits(rest, 4, f);
      SortMeldsCanonical(f, f);
      ExpandPermutation(f, ms);
    }
    if IsDecomposition(counts, Standard(ms, p)) {
      var f := FindAllComplete(rest, 4, ms);
      SortMeldsCanonical(f, ms);
      Sorting.SortByFixed(ms, MeldLe);
      var j := Sorting.IndexOf(combos, f);
      assert ms == SortMelds(combos[j]);
    }
  }

  /** The thirteen-orphans and seven-pairs readings (the first two checks of `decompose_hand`). */
  method SpecialReadings(counts: Counts) returns (found: seq<HandStructure>)
    ensures forall h :: h in found <==> !h.Standard? && IsDecomposition(counts, h)
  {
    var kokushi := CheckKokushi(counts);
    var first := if kokushi.Some? then [Kokushi(kokushi.value)] else [];
    var second := if IsChiitoitsu(counts) then [Chiitoitsu(SortedKeys(counts))] else [];
    found := first + second;
    SpecialListed(counts, kokushi, first, second);
  }

  lemma SpecialListed(counts: Counts, kokushi: Option<Tile>, first: seq<HandStructure>, second: seq<HandStructure>)
    requires kokushi.Some? <==> KokushiShape(counts)
    requires kokushi.Some? ==> kokushi.value in KokushiTiles && Get(counts, kokushi.value) == 2
    requires first == if kokushi.Some? then [Kokushi(kokushi.value)] else []
    requires second == if IsChiitoitsu(counts) then [Chiitoitsu(SortedKeys(counts))] else []
    ensures forall h :: h in first + second <==> !h.Standard? && IsDecomposition(counts, h)
  {
    forall h ensures h in first + second <==> !h.Standard? && IsDecomposition(counts, h) {
      match h
      case Kokushi(q) =>
        assert h !in second;
        KokushiListed(counts, kokushi, first, q);
      case Chiitoitsu(_) =>
        assert h !in first;
      case Standard(_, _) =>
        assert h !in first && h !in second;
    }
  }

  lemma KokushiListed(counts: Counts, kokushi: Option<Tile>, first: seq<HandStructure>, q: Tile)
    requires kokushi.Some? <==> KokushiShape(counts)
    requires kokushi.Some? ==> kokushi.value in KokushiTiles && Get(counts, kokushi.value) == 2
    requires first == if kokushi.Some? then [Kokushi(kokushi.value)] else []
    ensures Kokushi(q) in first <==> IsDecomposition(counts, Kokushi(q))
  {
    if IsDecomposition(counts, Kokushi(q)) {
      KokushiPairUnique(counts, q, kokushi.value);
    }
  }

  /** A standard reading for each meld list, each put in meld order. */
  function Readings(cs: seq<seq<Meld>>, p: Tile): (hs: seq<HandStructure>)
    ensures |hs| == |cs| && forall j :: 0 <= j < |cs| ==> hs[j] == Standard(SortMelds(cs[j]), p)
  {
    seq(|cs|, j requires 0 <= j < |cs| => Standard(SortMelds(cs[j]), p))
  }

  lemma ReadingsStep(cs: seq<seq<Meld>>, i: nat, p: Tile)
    requires i < |cs|
    ensures Readings(cs[..i + 1], p) == Readings(cs[..i], p) + [Standard(SortMelds(cs[i]), p)]
  {
    assert forall j :: 0 <= j < i ==> cs[..i + 1][j] == cs[..i][j];
  }

  /**
   * The inner loop of `decompose_hand`: each meld list the search found for
   * pair `p`, put in meld order, is added as a standard reading.
   */
  method PushStandards(combos: seq<seq<Meld>>, p: Tile, found: seq<HandStructure>) returns (r: seq<HandStructure>)
    ensures r == found + Readings(combos, p)
  {
    r := found;
    var i := 0;
    while i < |combos|
      invariant 0 <= i <= |combos|
      invariant r == found + Readings(combos[..i], p)
    {
      ReadingsStep(combos, i, p);
      r := r + [Standard(SortMelds(combos[i]), p)];
      i := i + 1;
    }
    assert combos[..i] == combos;
  }

  lemma ReadingsListed(counts: Counts, p: Tile, found: seq<HandStructure>)
    requires p in counts && counts[p] >= 2
    ensures forall h :: h in found + Readings(FindAll(RemovePair(counts, p), 4), p) <==>
                          h in found || (h.Standard? && h.pair == p && IsDecomposition(counts, h))
  {
    forall h ensures h in Readings(FindAll(RemovePair(counts, p), 4), p) <==>
                     h.Standard? && h.pair == p && IsDecomposition(counts, h) {
      ReadingListed(counts, p, h);
    }
  }

  lemma ReadingListed(counts: Counts, p: Tile, h: HandStructure)
    requires p in counts && counts[p] >= 2
    ensures h in Readings(FindAll(RemovePair(counts, p), 4), p) <==>
            h.Standard? && h.pair == p && IsDecomposition(counts, h)
  {
    var combos := FindAll(RemovePair(counts, p), 4);
    var rs := Readings(combos, p);
    if h in rs {
      var j := Sorting.IndexOf(rs, h);
      StandardListed(counts, p, h.melds);
    }
    if h.Standard? && h.pair == p && IsDecomposition(counts, h) {
      StandardListed(counts, p, h.melds);
      var j :| 0 <= j < |combos| && h.melds == SortMelds(combos[j]);
      assert rs[j] == h;
    }
  }

  /**
   * All readings of the hand (`decompose_hand`), sorted and without repeats.
   * Map iteration order is left open: the pair tiles are taken in any order.
   */
  method DecomposeHand(counts: Counts) returns (results: seq<HandStructure>)
    ensures Sorting.SortedBy(results, HsLe) && Sorting.Distinct(results)
    ensures forall h :: h in results <==> IsDecomposition(counts, h)
    ensures results != [] <==> WinningShape(counts)
  {
    var found := SpecialReadings(counts);
    var pending := counts.Keys;
    while pending != {}
      invariant pending <= counts.Keys
      invariant forall h :: h in found <==> IsDecomposition(counts, h) && (h.Standard? ==> h.pair !in pending)
      decreases pending
    {
      var p :| p in pending;
      if counts[p] >= 2 {
        ReadingsListed(counts, p, found);
        var combos := FindAll(RemovePair(counts, p), 4);
        found := PushStandards(combos, p, found);
      }
      pending := pending - {p};
    }
    ResultOrder();
    var sorted := Sorting.SortBy(found, HsLe);
    Sorting.SortBySorted(found, HsLe);
    assert forall h :: h in sorted <==> h in found by {
      assert forall h :: h in sorted <==> h in multiset(sorted);
    }
    results := Sorting.Dedup(sorted);
    Sorting.DedupSorted(sorted, HsLe);
    DecompositionExists(counts);
  }

  /**
   * One entry per decomposition: two standard readings with the same pair and
   * the same melds are the same reading, whatever order the search found
   * the melds in.
   */
  lemma OneReadingPerDecomposition(counts: Counts, a: HandStructure, b: HandStructure)
    requires IsDecomposition(counts, a) && IsDecomposition(counts, b)
    requires a.Standard? && b.Standard? && a.pair == b.pair
    requires multiset(a.melds) == multiset(b.melds)
    ensures a == b
  {
    MeldOrders();
    Sorting.SortedUnique(a.melds, b.melds, MeldLe);
  }

  // ---------------------------------------------------------------------
  // is_standard_hand, is_winning_hand
  // ---------------------------------------------------------------------

  /** Some tile taken as the pair leaves tiles the search can split into four melds. */
  predicate PairThenMelds(counts: Counts, p: Tile)
  {
    p in counts && counts[p] >= 2 && CanForm(RemovePair(counts, p), 4)
  }

  /** The search-based test agrees with the existence of four melds and a pair. */
  lemma StandardHandIffSplits(counts: Counts)
    ensures (exists p :: PairThenMelds(counts, p)) <==> StandardShape(counts)
  {
    if p :| PairThenMelds(counts, p) {
      CanFormIffSplits(RemovePair(counts, p), 4);
      var ms :| Splits(RemovePair(counts, p), 4, ms);
    }
    if StandardShape(counts) {
      var p, ms :| p in counts && counts[p] >= 2 && Splits(RemovePair(counts, p), 4, ms);
      CanFormIffSplits(RemovePair(counts, p), 4);
      assert PairThenMelds(counts, p);
    }
  }

  /** Four melds and a pair (`is_standard_hand`); stops at the first pair tile that works. */
  method IsStandardHand(counts: Counts) returns (r: bool)
    ensures r <==> exists p :: PairThenMelds(counts, p)
    ensures r <==> StandardShape(counts)
  {
    StandardHandIffSplits(counts);
    var pending := counts.Keys;
    while pending != {}
      invariant pending <= counts.Keys
      invariant forall p :: p in counts && p !in pending ==> !PairThenMelds(counts, p)
      decreases pending
    {
      var p :| p in pending;
      if counts[p] >= 2 {
        if CanForm(RemovePair(counts, p), 4) {
          assert PairThenMelds(counts, p);
          return true;
        }
      }
      pending := pending - {p};
    }
    return false;
  }

  /** A winning hand (`is_winning_hand`). */
  method IsWinningHand(counts: Counts) returns (r: bool)
    ensures r <==> WinningShape(counts)
  {
    var kokushi := CheckKokushi(counts);
    if kokushi.Some? {
      return true;
    }
    if IsChiitoitsu(counts) {
      return true;
    }
    r := IsStandardHand(counts);
  }

  // ---------------------------------------------------------------------
  // Meld order of standard readings
  // ---------------------------------------------------------------------

  /** 111123m456p789s without its pair. */
  const DoubleOneRest: Counts := map[
    Suited(Man, 1) := 4, Suited(Man, 2) := 1, Suited(Man, 3) := 1,
    Suited(Pin, 4) := 1, Suited(Pin, 5) := 1, Suited(Pin, 6) := 1,
    Suited(Sou, 7) := 1, Suited(Sou, 8) := 1, Suited(Sou, 9) := 1]

  /** The hand 111123m456p789s55z. */
  const DoubleOneHand: Counts := DoubleOneRest[Honor(White) := 2]

  /**
   * `decompose_hand` as written orders melds by their tile alone.  For
   * 111123m456p789s55z the search returns the triplet-first and the
   * sequence-first lists of the same four melds; that order leaves them
   * different, so two standard readings for one decomposition reach the result
   * and survive `dedup`.  The meld order by tile then kind makes them equal.
   */
  lemma RepSortKeepsDuplicates() returns (a: seq<Meld>, b: seq<Meld>)
    ensures a in FindAll(RemovePair(DoubleOneHand, Honor(White)), 4)
    ensures b in FindAll(RemovePair(DoubleOneHand, Honor(White)), 4)
    ensures multiset(a) == multiset(b)
    ensures Standard(SortMeldsByRep(a), Honor(White)) != Standard(SortMeldsByRep(b), Honor(White))
    ensures Standard(SortMelds(a), Honor(White)) == Standard(SortMelds(b), Honor(White))
  {
    var triplet, run := Koutsu(Suited(Man, 1)), Shuntsu(Suited(Man, 1));
    DoubleOneRestIs();
    DoubleOneLowest();
    DoubleOneSplits(triplet, run);
    DoubleOneSplits(run, triplet);
    a, b := BothLeadsFound(DoubleOneRest, triplet, run, DoubleOneTail());
    RepOrderKeepsLead(a, b, Honor(White));
  }

  /** The two melds after the ones on 1m: 456p and 789s. */
  function DoubleOneTail(): seq<Meld>
  {
    [Shuntsu(Suited(Pin, 4)), Shuntsu(Suited(Sou, 7))]
  }

  /**
   * Two melds on the lowest tile that can each lead a splitting each lead a
   * search result, and the two results hold the same melds.
   */
  lemma BothLeadsFound(counts: Counts, x: Meld, y: Meld, tail: seq<Meld>) returns (a: seq<Meld>, b: seq<Meld>)
    requires Splits(counts, 4, [x] + ([y] + tail)) && Splits(counts, 4, [y] + ([x] + tail))
    requires Retain(counts) != map[] && x.rep == MinTile(Retain(counts)) && y.rep == x.rep
    ensures a in FindAll(counts, 4) && b in FindAll(counts, 4)
    ensures a != [] && a[0] == x && b != [] && b[0] == y
    ensures multiset(a) == multiset(b)
  {
    a := LeadFound(counts, 4, x, [y] + tail);
    b := LeadFound(counts, 4, y, [x] + tail);
  }

  /**
   * Same melds, a triplet of 1m in front of one list and a sequence from 1m in
   * front of the other: the order by tile alone keeps both fronts, so the two
   * readings differ; the order by tile then kind makes them equal.
   */
  lemma RepOrderKeepsLead(a: seq<Meld>, b: seq<Meld>, p: Tile)
    requires a != [] && a[0] == Koutsu(Suited(Man, 1))
    requires b != [] && b[0] == Shuntsu(Suited(Man, 1))
    requires multiset(a) == multiset(b)
    ensures Standard(SortMeldsByRep(a), p) != Standard(SortMeldsByRep(b), p)
    ensures Standard(SortMelds(a), p) == Standard(SortMelds(b), p)
  {
    LowestFirst(a);
    LowestFirst(b);
    SortMeldsCanonical(a, b);
  }

  /** A list led by a meld on 1m keeps that meld first under the representative order. */
  lemma LowestFirst(a: seq<Meld>)
    requires a != [] && a[0].rep == Suited(Man, 1)
    ensures SortMeldsByRep(a)[0] == a[0]
  {
    assert a == [a[0]] + a[1..];
    Sorting.SortByHead(a[0], a[1..], RepLe);
  }

  lemma DoubleOneRestIs()
    ensures RemovePair(DoubleOneHand, Honor(White)) == DoubleOneRest
  {
    assert Honor(White) !in DoubleOneRest;
    RemovePairAdded(DoubleOneRest, Honor(White));
  }

  /** 1m is the lowest tile left once the pair is removed. */
  lemma DoubleOneLowest()
    ensures Retain(DoubleOneRest) != map[] && MinTile(Retain(DoubleOneRest)) == Suited(Man, 1)
  {
    var c := Retain(DoubleOneRest);
    assert Get(DoubleOneRest, Suited(Man, 1)) == 4;
    MinTileIs(c, Suited(Man, 1));
  }

  /** Without its pair, the hand is a triplet and a sequence of 1m, a 456p and a 789s. */
  lemma DoubleOneSplits(x: Meld, y: Meld)
    requires (x == Koutsu(Suited(Man, 1)) && y == Shuntsu(Suited(Man, 1)))
          || (x == Shuntsu(Suited(Man, 1)) && y == Koutsu(Suited(Man, 1)))
    ensures Splits(DoubleOneRest, 4, [x] + ([y] + DoubleOneTail()))
  {
    var ms := [x] + ([y] + DoubleOneTail());
    assert |ms| == 4 && ms[0] == x && ms[1] == y;
    assert ms[2] == Shuntsu(Suited(Pin, 4)) && ms[3] == Shuntsu(Suited(Sou, 7));
    forall u ensures MeldTiles(ms[0])[u] + MeldTiles(ms[1])[u] + MeldTiles(ms[2])[u] + MeldTiles(ms[3])[u] == Get(DoubleOneRest, u) {
      DoubleOneCount(u);
    }
    SplitsOf(DoubleOneRest, ms);
  }

  /** Tile by tile, a triplet and a sequence of 1m, a 456p and a 789s make up the rest. */
  lemma DoubleOneCount(u: Tile)
    ensures MeldTiles(Koutsu(Suited(Man, 1)))[u] + MeldTiles(Shuntsu(Suited(Man, 1)))[u]
          + MeldTiles(Shuntsu(Suited(Pin, 4)))[u] + MeldTiles(Shuntsu(Suited(Sou, 7)))[u]
         == Get(DoubleOneRest, u)
  {
  }

  // ---------------------------------------------------------------------
  // Helpers for hands written out tile by tile
  // ---------------------------------------------------------------------

  /** Taking the pair back out of a hand that was given one returns the hand. */
  lemma RemovePairAdded(rest: Counts, p: Tile)
    requires p !in rest
    ensures RemovePair(rest[p := 2], p) == rest
  {
    assert rest[p := 2] - {p} == rest;
  }

  /** Four valid melds whose tiles match the counts tile by tile split them. */
  lemma SplitsOf(c: Counts, ms: seq<Meld>)
    requires |ms| == 4 && ValidMeld(ms[0]) && ValidMeld(ms[1]) && ValidMeld(ms[2]) && ValidMeld(ms[3])
    requires forall u :: MeldTiles(ms[0])[u] + MeldTiles(ms[1])[u] + MeldTiles(ms[2])[u] + MeldTiles(ms[3])[u] == Get(c, u)
    ensures Splits(c, 4, ms)
  {
    ExpandOf(c, ms);
    AllValid4(ms);
  }

  lemma ExpandOf(c: Counts, ms: seq<Meld>)
    requires |ms| == 4
    requires forall u :: MeldTiles(ms[0])[u] + MeldTiles(ms[1])[u] + MeldTiles(ms[2])[u] + MeldTiles(ms[3])[u] == Get(c, u)
    ensures Expand(ms) == Bag(c)
  {
    ExpandPointwise(c, ms);
    assert forall u :: Expand(ms)[u] == Bag(c)[u];
  }

  lemma ExpandPointwise(c: Counts, ms: seq<Meld>)
    requires |ms| == 4
    requires forall u :: MeldTiles(ms[0])[u] + MeldTiles(ms[1])[u] + MeldTiles(ms[2])[u] + MeldTiles(ms[3])[u] == Get(c, u)
    ensures forall u :: Expand(ms)[u] == Get(c, u)
  {
    Expand4(ms);
  }

  lemma ExpandAt(s: seq<Meld>, u: Tile)
    requires s != []
    ensures Expand(s)[u] == MeldTiles(s[0])[u] + Expand(s[1..])[u]
  {
  }

  lemma Expand4(s: seq<Meld>)
    requires |s| == 4
    ensures forall u :: Expand(s)[u] == MeldTiles(s[0])[u] + MeldTiles(s[1])[u] + MeldTiles(s[2])[u] + MeldTiles(s[3])[u]
  {
    var s1 := s[1..];
    var s2 := s1[1..];
    var s3 := s2[1..];
    assert s1[0] == s[1] && s2[0] == s[2] && s3[0] == s[3];
    assert s3[1..] == [];
    forall u ensures Expand(s)[u] == MeldTiles(s[0])[u] + MeldTiles(s[1])[u] + MeldTiles(s[2])[u] + MeldTiles(s[3])[u] {
      ExpandAt(s, u);
      ExpandAt(s1, u);
      ExpandAt(s2, u);
      ExpandAt(s3, u);
    }
  }

  lemma AllValid4(ms: seq<Meld>)
    requires |ms| == 4 && ValidMeld(ms[0]) && ValidMeld(ms[1]) && ValidMeld(ms[2]) && ValidMeld(ms[3])
    ensures AllValid(ms)
  {
    forall m | m in ms ensures ValidMeld(m) {
      var k := Sorting.IndexOf(ms, m);
    }
  }
}
