/**
 * The engine's own example hands, written out as count maps, with what the
 * engine answers for each.  A hand is given as its tiles without the pair
 * (`...Rest`) and the pair tile; the melds of the expected reading are listed
 * in meld order.  Honors are numbered as in hand notation: 1z east, 2z south,
 * 3z west, 4z north, 5z white, 6z green, 7z red.
 */
module Scenarios {
  import opened Tiles
  import opened TileCounts
  import opened Melds
  import opened Shapes
  import opened Decompose
  import Sorting
  import opened SearchFacts

  /** Hand `rest` with a pair of `p` added reads as `ms` and that pair. */
  lemma PairedReading(rest: Counts, p: Tile, ms: seq<Meld>)
    requires p !in rest
    requires Sorting.SortedBy(ms, MeldLe) && Splits(rest, 4, ms)
    ensures IsDecomposition(rest[p := 2], Standard(ms, p))
    ensures StandardShape(rest[p := 2])
  {
    RemovePairAdded(rest, p);
  }

  /** Four melds in meld order pairwise are in meld order. */
  lemma Sorted4(ms: seq<Meld>)
    requires |ms| == 4 && MeldLe(ms[0], ms[1]) && MeldLe(ms[1], ms[2]) && MeldLe(ms[2], ms[3])
    ensures Sorting.SortedBy(ms, MeldLe)
  {
  }

  // ---------------------------------------------------------------------
  // 1122m3344p5566s77z: seven pairs
  // ---------------------------------------------------------------------

  const SevenPairsHand: Counts := map[
    Suited(Man, 1) := 2, Suited(Man, 2) := 2, Suited(Pin, 3) := 2,
    Suited(Pin, 4) := 2, Suited(Sou, 5) := 2, Suited(Sou, 6) := 2,
    Honor(Red) := 2]

  lemma SevenPairsShape()
    ensures IsChiitoitsu(SevenPairsHand)
  {
    var c := SevenPairsHand;
    assert c.Keys == {Suited(Man, 1), Suited(Man, 2), Suited(Pin, 3), Suited(Pin, 4), Suited(Sou, 5), Suited(Sou, 6), Honor(Red)};
  }

  /** No tile of the hand starts a sequence. */
  lemma SevenPairsNoRun(t: Tile)
    requires Get(SevenPairsHand, t) >= 1
    ensures !RunAvailable(SevenPairsHand, t)
  {
    var c := SevenPairsHand;
    assert t in c.Keys;
    if t == Suited(Man, 1) {
      assert Succ(t, 2) == Suited(Man, 3);
    } else if t == Suited(Man, 2) {
      assert Succ(t, 1) == Suited(Man, 3);
    } else if t == Suited(Pin, 3) {
      assert Succ(t, 2) == Suited(Pin, 5);
    } else if t == Suited(Pin, 4) {
      assert Succ(t, 1) == Suited(Pin, 5);
    } else if t == Suited(Sou, 5) {
      assert Succ(t, 2) == Suited(Sou, 7);
    } else if t == Suited(Sou, 6) {
      assert Succ(t, 1) == Suited(Sou, 7);
    }
  }

  /** Whichever pair is taken, no tile left starts a meld, so four melds are out of reach. */
  lemma SevenPairsNoSplit(p: Tile, ms: seq<Meld>)
    requires p in SevenPairsHand
    ensures !Splits(RemovePair(SevenPairsHand, p), 4, ms)
  {
    var c := SevenPairsHand;
    var r := RemovePair(c, p);
    SevenPairsNoMeld();
    RemovePairBelow(c, p);
    FewerNoMeld(c, r);
    NoMeldStarts(r, 4, ms);
  }

  /** No tile of the hand is held three times or starts a sequence. */
  lemma SevenPairsNoMeld()
    ensures forall t :: NoMeldFrom(SevenPairsHand, t)
  {
    forall t ensures NoMeldFrom(SevenPairsHand, t) {
      if Get(SevenPairsHand, t) >= 1 {
        SevenPairsNoRun(t);
      }
    }
  }

  /** 9m is missing, so the hand is not thirteen orphans. */
  lemma SevenPairsNotKokushi()
    ensures !KokushiShape(SevenPairsHand)
  {
    assert KokushiTiles[1] == Suited(Man, 9) && Get(SevenPairsHand, Suited(Man, 9)) == 0;
  }

  /** Seven pairs is the hand's only reading: 9m is missing and no four melds fit. */
  lemma SevenPairsOnly(h: HandStructure)
    ensures IsDecomposition(SevenPairsHand, h) <==> h == Chiitoitsu(SortedKeys(SevenPairsHand))
  {
    match h
    case Kokushi(_) =>
      SevenPairsNotKokushi();
    case Chiitoitsu(_) =>
      SevenPairsShape();
    case Standard(ms, p) =>
      if p in SevenPairsHand {
        SevenPairsNoSplit(p, ms);
      }
  }

  /** The hand is seven pairs, wins, and has exactly one reading: its seven tiles in order. */
  method SevenPairs() returns (chiitoitsu: bool, winning: bool, results: seq<HandStructure>)
    ensures chiitoitsu && winning
    ensures results == [Chiitoitsu(SortedKeys(SevenPairsHand))] && |SortedKeys(SevenPairsHand)| == 7
  {
    SevenPairsShape();
    chiitoitsu := IsChiitoitsu(SevenPairsHand);
    winning := IsWinningHand(SevenPairsHand);
    results := DecomposeHand(SevenPairsHand);
    ChiitoitsuListed(SevenPairsHand, results);
    forall h ensures h in results <==> h == Chiitoitsu(SortedKeys(SevenPairsHand)) {
      SevenPairsOnly(h);
    }
    OnlyReading(results, Chiitoitsu(SortedKeys(SevenPairsHand)));
  }

  /** A seven-pairs hand is read as its seven tiles in order. */
  lemma ChiitoitsuListed(counts: Counts, results: seq<HandStructure>)
    requires IsChiitoitsu(counts)
    requires forall h :: h in results <==> IsDecomposition(counts, h)
    ensures Chiitoitsu(SortedKeys(counts)) in results && |SortedKeys(counts)| == 7
  {
    assert IsDecomposition(counts, Chiitoitsu(SortedKeys(counts)));
  }

  /** 1111m22m33p44p55s66s: four of a kind is not two pairs. */
  lemma FourOfAKindIsNotSevenPairs()
    ensures !IsChiitoitsu(map[
      Suited(Man, 1) := 4, Suited(Man, 2) := 2, Suited(Pin, 3) := 2,
      Suited(Pin, 4) := 2, Suited(Sou, 5) := 2, Suited(Sou, 6) := 2])
  {
    var c := map[
      Suited(Man, 1) := 4, Suited(Man, 2) := 2, Suited(Pin, 3) := 2,
      Suited(Pin, 4) := 2, Suited(Sou, 5) := 2, Suited(Sou, 6) := 2];
    assert c[Suited(Man, 1)] == 4;
  }

  // ---------------------------------------------------------------------
  // 123m456p789s11122z: one reading, pair 2z
  // ---------------------------------------------------------------------

  const SimpleRest: Counts := map[
    Suited(Man, 1) := 1, Suited(Man, 2) := 1, Suited(Man, 3) := 1,
    Suited(Pin, 4) := 1, Suited(Pin, 5) := 1, Suited(Pin, 6) := 1,
    Suited(Sou, 7) := 1, Suited(Sou, 8) := 1, Suited(Sou, 9) := 1,
    Honor(East) := 3]

  const SimpleHand: Counts := SimpleRest[Honor(South) := 2]

  const SimpleMelds: seq<Meld> :=
    [Shuntsu(Suited(Man, 1)), Shuntsu(Suited(Pin, 4)), Shuntsu(Suited(Sou, 7)), Koutsu(Honor(East))]

  lemma SimpleCount(u: Tile)
    ensures MeldTiles(Shuntsu(Suited(Man, 1)))[u] + MeldTiles(Shuntsu(Suited(Pin, 4)))[u]
          + MeldTiles(Shuntsu(Suited(Sou, 7)))[u] + MeldTiles(Koutsu(Honor(East)))[u]
         == Get(SimpleRest, u)
  {
  }

  lemma SimpleSplits()
    ensures Splits(SimpleRest, 4, SimpleMelds)
  {
    var ms := SimpleMelds;
    forall u ensures MeldTiles(ms[0])[u] + MeldTiles(ms[1])[u] + MeldTiles(ms[2])[u] + MeldTiles(ms[3])[u] == Get(SimpleRest, u) {
      SimpleCount(u);
    }
    SplitsOf(SimpleRest, ms);
  }

  lemma SimpleReading()
    ensures IsDecomposition(SimpleHand, Standard(SimpleMelds, Honor(South)))
    ensures StandardShape(SimpleHand)
  {
    assert Honor(South) !in SimpleRest;
    Sorted4(SimpleMelds);
    SimpleSplits();
    PairedReading(SimpleRest, Honor(South), SimpleMelds);
  }

  /** What the search has left after 123m: 456p789s111z. */
  const SimpleAfterMan: Counts := map[
    Suited(Pin, 4) := 1, Suited(Pin, 5) := 1, Suited(Pin, 6) := 1,
    Suited(Sou, 7) := 1, Suited(Sou, 8) := 1, Suited(Sou, 9) := 1,
    Honor(East) := 3]

  /** What the search has left after 123m 456p: 789s111z. */
  const SimpleAfterPin: Counts := map[
    Suited(Sou, 7) := 1, Suited(Sou, 8) := 1, Suited(Sou, 9) := 1,
    Honor(East) := 3]

  /** What the search has left after 123m 456p 789s: 111z. */
  const SimpleAfterSou: Counts := map[Honor(East) := 3]

  lemma ManStepCount(u: Tile)
    ensures Get(SimpleRest, u) == MeldTiles(Shuntsu(Suited(Man, 1)))[u] + Get(SimpleAfterMan, u)
  {
  }

  lemma PinStepCount(u: Tile)
    ensures Get(SimpleAfterMan, u) == MeldTiles(Shuntsu(Suited(Pin, 4)))[u] + Get(SimpleAfterPin, u)
  {
  }

  lemma SouStepCount(u: Tile)
    ensures Get(SimpleAfterPin, u) == MeldTiles(Shuntsu(Suited(Sou, 7)))[u] + Get(SimpleAfterSou, u)
  {
  }

  lemma EastStepCount(u: Tile)
    ensures Get(SimpleAfterSou, u) == MeldTiles(Koutsu(Honor(East)))[u] + Get(map[], u)
  {
  }

  /** 123m456p789s111z: the lowest tile is 1m, and 123m leaves 456p789s111z. */
  lemma ManStep()
    ensures LeadsWith(SimpleRest, Shuntsu(Suited(Man, 1)), SimpleAfterMan)
  {
    ManBag();
    ManLowest();
  }

  lemma ManBag()
    ensures Bag(SimpleRest) == MeldTiles(Shuntsu(Suited(Man, 1))) + Bag(SimpleAfterMan)
  {
    forall u ensures Get(SimpleRest, u) == MeldTiles(Shuntsu(Suited(Man, 1)))[u] + Get(SimpleAfterMan, u) {
      ManStepCount(u);
    }
    BagOf(SimpleRest, Shuntsu(Suited(Man, 1)), SimpleAfterMan);
  }

  lemma ManLowest()
    ensures Positive(SimpleRest) && Lowest(SimpleRest, Suited(Man, 1))
  {
    assert SimpleRest.Keys == {Suited(Man, 1), Suited(Man, 2), Suited(Man, 3), Suited(Pin, 4), Suited(Pin, 5),
                               Suited(Pin, 6), Suited(Sou, 7), Suited(Sou, 8), Suited(Sou, 9), Honor(East)};
  }

  /** 456p789s111z: the lowest tile is 4p, and 456p leaves 789s111z. */
  lemma PinStep()
    ensures LeadsWith(SimpleAfterMan, Shuntsu(Suited(Pin, 4)), SimpleAfterPin)
  {
    PinBag();
    PinLowest();
  }

  lemma PinBag()
    ensures Bag(SimpleAfterMan) == MeldTiles(Shuntsu(Suited(Pin, 4))) + Bag(SimpleAfterPin)
  {
    forall u ensures Get(SimpleAfterMan, u) == MeldTiles(Shuntsu(Suited(Pin, 4)))[u] + Get(SimpleAfterPin, u) {
      PinStepCount(u);
    }
    BagOf(SimpleAfterMan, Shuntsu(Suited(Pin, 4)), SimpleAfterPin);
  }

  lemma PinLowest()
    ensures Positive(SimpleAfterMan) && Lowest(SimpleAfterMan, Suited(Pin, 4))
  {
    assert SimpleAfterMan.Keys == {Suited(Pin, 4), Suited(Pin, 5), Suited(Pin, 6),
                               Suited(Sou, 7), Suited(Sou, 8), Suited(Sou, 9), Honor(East)};
  }

  /** 789s111z: the lowest tile is 7s, and 789s leaves 111z. */
  lemma SouStep()
    ensures LeadsWith(SimpleAfterPin, Shuntsu(Suited(Sou, 7)), SimpleAfterSou)
  {
    SouBag();
    SouLowest();
  }

  lemma SouBag()
    ensures Bag(SimpleAfterPin) == MeldTiles(Shuntsu(Suited(Sou, 7))) + Bag(SimpleAfterSou)
  {
    forall u ensures Get(SimpleAfterPin, u) == MeldTiles(Shuntsu(Suited(Sou, 7)))[u] + Get(SimpleAfterSou, u) {
      SouStepCount(u);
    }
    BagOf(SimpleAfterPin, Shuntsu(Suited(Sou, 7)), SimpleAfterSou);
  }

  lemma SouLowest()
    ensures Positive(SimpleAfterPin) && Lowest(SimpleAfterPin, Suited(Sou, 7))
  {
    assert SimpleAfterPin.Keys == {Suited(Sou, 7), Suited(Sou, 8), Suited(Sou, 9), Honor(East)};
  }

  /** 111z: the triplet uses up the tiles. */
  lemma EastStep()
    ensures LeadsWith(SimpleAfterSou, Koutsu(Honor(East)), map[])
  {
    EastBag();
    EastLowest();
  }

  lemma EastBag()
    ensures Bag(SimpleAfterSou) == MeldTiles(Koutsu(Honor(East))) + Bag(map[])
  {
    forall u ensures Get(SimpleAfterSou, u) == MeldTiles(Koutsu(Honor(East)))[u] + Get(map[], u) {
      EastStepCount(u);
    }
    BagOf(SimpleAfterSou, Koutsu(Honor(East)), map[]);
  }

  lemma EastLowest()
    ensures Positive(SimpleAfterSou) && Lowest(SimpleAfterSou, Honor(East))
  {
    assert SimpleAfterSou.Keys == {Honor(East)};
  }

  /** The search finds exactly one split of 123m456p789s111z: the expected four melds. */
  lemma SimpleFound()
    ensures FindAll(SimpleRest, 4) == [SimpleMelds]
  {
    ManStep();
    PinStep();
    SouStep();
    EastStep();
    FoundChain(SimpleRest, Shuntsu(Suited(Man, 1)), SimpleAfterMan, Shuntsu(Suited(Pin, 4)),
               SimpleAfterPin, Shuntsu(Suited(Sou, 7)), SimpleAfterSou, Koutsu(Honor(East)));
  }

  /** With 1z as the pair the single 1z left cannot be part of a meld. */
  lemma EastPairNoSplit(ms: seq<Meld>)
    ensures !Splits(RemovePair(SimpleHand, Honor(East)), 4, ms)
  {
    var r := RemovePair(SimpleHand, Honor(East));
    assert Bag(r)[Honor(East)] + 2 == Bag(SimpleHand)[Honor(East)];
    if Splits(r, 4, ms) {
      HonorInTriplet(r, 4, ms, Honor(East));
      assert false;
    }
  }

  /** Taking the pair 2z leaves 123m456p789s111z. */
  lemma SouthPairLeaves()
    ensures RemovePair(SimpleHand, Honor(South)) == SimpleRest
  {
    assert Honor(South) !in SimpleRest;
    RemovePairAdded(SimpleRest, Honor(South));
  }

  /** Every split of 123m456p789s111z into four melds has the expected melds, up to order. */
  lemma SimpleMeldsOnly(ms: seq<Meld>)
    requires Splits(SimpleRest, 4, ms)
    ensures multiset(ms) == multiset(SimpleMelds)
  {
    var f := FindAllComplete(SimpleRest, 4, ms);
    SimpleFound();
  }

  /** The hand has one reading: the pair 2z and 123m 456p 789s 111z. */
  lemma SimpleOnly(h: HandStructure)
    ensures IsDecomposition(SimpleHand, h) <==> h == Standard(SimpleMelds, Honor(South))
  {
    match h
    case Kokushi(_) =>
      SimpleNotSpecial();
    case Chiitoitsu(_) =>
      SimpleNotSpecial();
    case Standard(ms, p) =>
      if IsDecomposition(SimpleHand, h) {
        SimplePairs(p);
        EastPairNoSplit(ms);
        SouthPairLeaves();
        SimpleMeldsOnly(ms);
        SimpleReading();
        OneReadingPerDecomposition(SimpleHand, h, Standard(SimpleMelds, Honor(South)));
      } else {
        SimpleReading();
      }
  }

  /** 9m is missing and 1m is single: neither thirteen orphans nor seven pairs. */
  lemma SimpleNotSpecial()
    ensures !KokushiShape(SimpleHand) && !IsChiitoitsu(SimpleHand)
  {
    NoSpecialShape(SimpleHand);
  }

  /** 1z and 2z are the tiles held at least twice. */
  lemma SimplePairs(p: Tile)
    requires p in SimpleHand && SimpleHand[p] >= 2
    ensures p == Honor(East) || p == Honor(South)
  {
  }

  /** The hand is a standard hand, wins, and has exactly one reading: 123m 456p 789s 111z with the pair 2z. */
  method Simple() returns (standard: bool, winning: bool, results: seq<HandStructure>)
    ensures standard && winning
    ensures results == [Standard(SimpleMelds, Honor(South))]
  {
    SimpleReading();
    standard := IsStandardHand(SimpleHand);
    winning := IsWinningHand(SimpleHand);
    results := DecomposeHand(SimpleHand);
    forall h ensures h in results <==> h == Standard(SimpleMelds, Honor(South)) {
      SimpleOnly(h);
    }
    OnlyReading(results, Standard(SimpleMelds, Honor(South)));
  }

  // ---------------------------------------------------------------------
  // 111222333m11155z: all triplets or three equal sequences
  // ---------------------------------------------------------------------

  const LadderRest: Counts := map[
    Suited(Man, 1) := 3, Suited(Man, 2) := 3, Suited(Man, 3) := 3, Honor(East) := 3]

  const LadderHand: Counts := LadderRest[Honor(White) := 2]

  const LadderTriplets: seq<Meld> :=
    [Koutsu(Suited(Man, 1)), Koutsu(Suited(Man, 2)), Koutsu(Suited(Man, 3)), Koutsu(Honor(East))]

  const LadderRuns: seq<Meld> :=
    [Shuntsu(Suited(Man, 1)), Shuntsu(Suited(Man, 1)), Shuntsu(Suited(Man, 1)), Koutsu(Honor(East))]

  lemma LadderTripletCount(u: Tile)
    ensures MeldTiles(Koutsu(Suited(Man, 1)))[u] + MeldTiles(Koutsu(Suited(Man, 2)))[u]
          + MeldTiles(Koutsu(Suited(Man, 3)))[u] + MeldTiles(Koutsu(Honor(East)))[u]
         == Get(LadderRest, u)
  {
  }

  lemma LadderRunCount(u: Tile)
    ensures MeldTiles(Shuntsu(Suited(Man, 1)))[u] + MeldTiles(Shuntsu(Suited(Man, 1)))[u]
          + MeldTiles(Shuntsu(Suited(Man, 1)))[u] + MeldTiles(Koutsu(Honor(East)))[u]
         == Get(LadderRest, u)
  {
  }

  lemma LadderTripletSplits()
    ensures Splits(LadderRest, 4, LadderTriplets)
  {
    var ms := LadderTriplets;
    forall u ensures MeldTiles(ms[0])[u] + MeldTiles(ms[1])[u] + MeldTiles(ms[2])[u] + MeldTiles(ms[3])[u] == Get(LadderRest, u) {
      LadderTripletCount(u);
    }
    SplitsOf(LadderRest, ms);
  }

  lemma LadderRunSplits()
    ensures Splits(LadderRest, 4, LadderRuns)
  {
    var ms := LadderRuns;
    forall u ensures MeldTiles(ms[0])[u] + MeldTiles(ms[1])[u] + MeldTiles(ms[2])[u] + MeldTiles(ms[3])[u] == Get(LadderRest, u) {
      LadderRunCount(u);
    }
    SplitsOf(LadderRest, ms);
  }

  lemma LadderTripletReading()
    ensures IsDecomposition(LadderHand, Standard(LadderTriplets, Honor(White)))
  {
    assert Honor(White) !in LadderRest;
    Sorted4(LadderTriplets);
    LadderTripletSplits();
    PairedReading(LadderRest, Honor(White), LadderTriplets);
  }

  lemma LadderRunReading()
    ensures IsDecomposition(LadderHand, Standard(LadderRuns, Honor(White)))
  {
    assert Honor(White) !in LadderRest;
    Sorted4(LadderRuns);
    LadderRunSplits();
    PairedReading(LadderRest, Honor(White), LadderRuns);
  }

  /** Both the all-triplet and the all-sequence readings are found, so at least two. */
  method Ladder() returns (results: seq<HandStructure>)
    ensures Standard(LadderTriplets, Honor(White)) in results
    ensures Standard(LadderRuns, Honor(White)) in results
    ensures |results| >= 2
  {
    LadderTripletReading();
    LadderRunReading();
    results := DecomposeHand(LadderHand);
    assert LadderTriplets[0] != LadderRuns[0];
    TwoMembers(results, Standard(LadderTriplets, Honor(White)), Standard(LadderRuns, Honor(White)));
  }

  /** A list holding two different readings has at least two entries. */
  lemma TwoMembers(s: seq<HandStructure>, x: HandStructure, y: HandStructure)
    requires x in s && y in s && x != y
    ensures |s| >= 2
  {
    var i := Sorting.IndexOf(s, x);
    var j := Sorting.IndexOf(s, y);
  }

  // ---------------------------------------------------------------------
  // 112233m456p789s55z: two equal sequences
  // ---------------------------------------------------------------------

  const TwinRest: Counts := map[
    Suited(Man, 1) := 2, Suited(Man, 2) := 2, Suited(Man, 3) := 2,
    Suited(Pin, 4) := 1, Suited(Pin, 5) := 1, Suited(Pin, 6) := 1,
    Suited(Sou, 7) := 1, Suited(Sou, 8) := 1, Suited(Sou, 9) := 1]

  const TwinHand: Counts := TwinRest[Honor(White) := 2]

  const TwinMelds: seq<Meld> :=
    [Shuntsu(Suited(Man, 1)), Shuntsu(Suited(Man, 1)), Shuntsu(Suited(Pin, 4)), Shuntsu(Suited(Sou, 7))]

  lemma TwinCount(u: Tile)
    ensures MeldTiles(Shuntsu(Suited(Man, 1)))[u] + MeldTiles(Shuntsu(Suited(Man, 1)))[u]
          + MeldTiles(Shuntsu(Suited(Pin, 4)))[u] + MeldTiles(Shuntsu(Suited(Sou, 7)))[u]
         == Get(TwinRest, u)
  {
  }

  lemma TwinSplits()
    ensures Splits(TwinRest, 4, TwinMelds)
  {
    var ms := TwinMelds;
    forall u ensures MeldTiles(ms[0])[u] + MeldTiles(ms[1])[u] + MeldTiles(ms[2])[u] + MeldTiles(ms[3])[u] == Get(TwinRest, u) {
      TwinCount(u);
    }
    SplitsOf(TwinRest, ms);
  }

  lemma TwinReading()
    ensures IsDecomposition(TwinHand, Standard(TwinMelds, Honor(White)))
    ensures StandardShape(TwinHand)
  {
    assert Honor(White) !in TwinRest;
    Sorted4(TwinMelds);
    TwinSplits();
    PairedReading(TwinRest, Honor(White), TwinMelds);
  }

  /** The hand reads with 123m twice. */
  method Twin() returns (results: seq<HandStructure>)
    ensures Standard(TwinMelds, Honor(White)) in results
  {
    TwinReading();
    results := DecomposeHand(TwinHand);
  }

  // ---------------------------------------------------------------------
  // 111m222p333s44455z and 123456m789p234s55z: standard hands
  // ---------------------------------------------------------------------

  const TripletsRest: Counts := map[
    Suited(Man, 1) := 3, Suited(Pin, 2) := 3, Suited(Sou, 3) := 3, Honor(North) := 3]

  const TripletsHand: Counts := TripletsRest[Honor(White) := 2]

  const TripletsMelds: seq<Meld> :=
    [Koutsu(Suited(Man, 1)), Koutsu(Suited(Pin, 2)), Koutsu(Suited(Sou, 3)), Koutsu(Honor(North))]

  lemma TripletsCount(u: Tile)
    ensures MeldTiles(Koutsu(Suited(Man, 1)))[u] + MeldTiles(Koutsu(Suited(Pin, 2)))[u]
          + MeldTiles(Koutsu(Suited(Sou, 3)))[u] + MeldTiles(Koutsu(Honor(North)))[u]
         == Get(TripletsRest, u)
  {
  }

  lemma TripletsSplits()
    ensures Splits(TripletsRest, 4, TripletsMelds)
  {
    var ms := TripletsMelds;
    forall u ensures MeldTiles(ms[0])[u] + MeldTiles(ms[1])[u] + MeldTiles(ms[2])[u] + MeldTiles(ms[3])[u] == Get(TripletsRest, u) {
      TripletsCount(u);
    }
    SplitsOf(TripletsRest, ms);
  }

  lemma TripletsReading()
    ensures IsDecomposition(TripletsHand, Standard(TripletsMelds, Honor(White)))
    ensures StandardShape(TripletsHand)
  {
    assert Honor(White) !in TripletsRest;
    Sorted4(TripletsMelds);
    TripletsSplits();
    PairedReading(TripletsRest, Honor(White), TripletsMelds);
  }

  /** Four triplets and a pair make a standard hand. */
  method AllTriplets() returns (standard: bool)
    ensures standard
  {
    TripletsReading();
    standard := IsStandardHand(TripletsHand);
  }

  const RunsRest: Counts := map[
    Suited(Man, 1) := 1, Suited(Man, 2) := 1, Suited(Man, 3) := 1,
    Suited(Man, 4) := 1, Suited(Man, 5) := 1, Suited(Man, 6) := 1,
    Suited(Pin, 7) := 1, Suited(Pin, 8) := 1, Suited(Pin, 9) := 1,
    Suited(Sou, 2) := 1, Suited(Sou, 3) := 1, Suited(Sou, 4) := 1]

  const RunsHand: Counts := RunsRest[Honor(White) := 2]

  const RunsMelds: seq<Meld> :=
    [Shuntsu(Suited(Man, 1)), Shuntsu(Suited(Man, 4)), Shuntsu(Suited(Pin, 7)), Shuntsu(Suited(Sou, 2))]

  lemma RunsCount(u: Tile)
    ensures MeldTiles(Shuntsu(Suited(Man, 1)))[u] + MeldTiles(Shuntsu(Suited(Man, 4)))[u]
          + MeldTiles(Shuntsu(Suited(Pin, 7)))[u] + MeldTiles(Shuntsu(Suited(Sou, 2)))[u]
         == Get(RunsRest, u)
  {
  }

  lemma RunsSplits()
    ensures Splits(RunsRest, 4, RunsMelds)
  {
    var ms := RunsMelds;
    forall u ensures MeldTiles(ms[0])[u] + MeldTiles(ms[1])[u] + MeldTiles(ms[2])[u] + MeldTiles(ms[3])[u] == Get(RunsRest, u) {
      RunsCount(u);
    }
    SplitsOf(RunsRest, ms);
  }

  lemma RunsReading()
    ensures IsDecomposition(RunsHand, Standard(RunsMelds, Honor(White)))
    ensures StandardShape(RunsHand)
  {
    assert Honor(White) !in RunsRest;
    Sorted4(RunsMelds);
    RunsSplits();
    PairedReading(RunsRest, Honor(White), RunsMelds);
  }

  /** Four sequences and a pair make a standard hand. */
  method AllRuns() returns (standard: bool)
    ensures standard
  {
    RunsReading();
    standard := IsStandardHand(RunsHand);
  }

  // ---------------------------------------------------------------------
  // 1234m5678p9s123z and 1234m5678p9s12355z: no reading
  // ---------------------------------------------------------------------

  /** 1234m5678p9s123z: twelve different tiles, one of each. */
  const Scattered: Counts := map[
    Suited(Man, 1) := 1, Suited(Man, 2) := 1, Suited(Man, 3) := 1, Suited(Man, 4) := 1,
    Suited(Pin, 5) := 1, Suited(Pin, 6) := 1, Suited(Pin, 7) := 1, Suited(Pin, 8) := 1,
    Suited(Sou, 9) := 1, Honor(East) := 1, Honor(South) := 1, Honor(West) := 1]

  /** 1234m5678p9s12355z: the same tiles with a pair of 5z. */
  const ScatteredHand: Counts := Scattered[Honor(White) := 2]

  /** What is left of `Scattered` after the sequence 123m: 4m5678p9s123z. */
  const ScatteredAfterRun: Counts := map[
    Suited(Man, 4) := 1,
    Suited(Pin, 5) := 1, Suited(Pin, 6) := 1, Suited(Pin, 7) := 1, Suited(Pin, 8) := 1,
    Suited(Sou, 9) := 1, Honor(East) := 1, Honor(South) := 1, Honor(West) := 1]

  /** Neither thirteen orphans (9m is missing) nor seven pairs (1m is single). */
  lemma NoSpecialShape(counts: Counts)
    requires Get(counts, Suited(Man, 9)) == 0
    requires Get(counts, Suited(Man, 1)) == 1
    ensures !KokushiShape(counts) && !IsChiitoitsu(counts)
  {
    assert KokushiTiles[1] == Suited(Man, 9);
  }

  /** With no tile held twice there is no pair, so the twelve tiles do not win. */
  lemma ScatteredNotWinning()
    ensures !WinningShape(Scattered)
  {
    NoSpecialShape(Scattered);
    assert forall p :: p in Scattered ==> Scattered[p] == 1;
  }

  /** The twelve tiles are not a winning hand. */
  method NotWinning() returns (winning: bool)
    ensures !winning
  {
    ScatteredNotWinning();
    winning := IsWinningHand(Scattered);
  }

  lemma AfterRunCount(t: Tile)
    ensures Get(Scattered, t) == Get(ScatteredAfterRun, t)
                                + (if t in {Suited(Man, 1), Suited(Man, 2), Suited(Man, 3)} then 1 else 0)
  {
  }

  /** Taking 123m from the twelve tiles leaves 4m5678p9s123z. */
  lemma AfterRun()
    ensures RunAvailable(Scattered, Suited(Man, 1))
    ensures Retain(TakeRun(Scattered, Suited(Man, 1))) == ScatteredAfterRun
  {
    var t := Suited(Man, 1);
    assert Succ(t, 1) == Suited(Man, 2) && Succ(t, 2) == Suited(Man, 3);
    assert Get(Scattered, Suited(Man, 2)) == 1 && Get(Scattered, Suited(Man, 3)) == 1;
    var x := TakeRun(Scattered, t);
    forall u ensures Get(x, u) == Get(ScatteredAfterRun, u) {
      AfterRunCount(u);
    }
    RetainIs(x, ScatteredAfterRun);
  }

  /** The pivot 4m is single and 5m is missing: no meld can start there. */
  lemma StuckAtFour(x: Counts)
    requires Retain(x) == ScatteredAfterRun
    ensures !CanForm(x, 3)
  {
    var d := ScatteredAfterRun;
    MinTileIs(d, Suited(Man, 4));
    assert Get(d, Suited(Man, 4)) == 1;
    assert Succ(Suited(Man, 4), 1) == Suited(Man, 5) && Get(d, Suited(Man, 5)) == 0;
  }

  /** The search's only start, 123m, leaves the pivot 4m, which starts nothing. */
  lemma ScatteredCannotForm()
    ensures !CanForm(Scattered, 4)
  {
    var t := Suited(Man, 1);
    ScatteredLowest();
    AfterRun();
    StuckAtFour(TakeRun(Scattered, t));
    BlockedAfterRun(Scattered, 4, t);
  }

  lemma ScatteredLowest()
    ensures Positive(Scattered) && Lowest(Scattered, Suited(Man, 1))
  {
    assert Scattered.Keys == {
      Suited(Man, 1), Suited(Man, 2), Suited(Man, 3), Suited(Man, 4),
      Suited(Pin, 5), Suited(Pin, 6), Suited(Pin, 7), Suited(Pin, 8),
      Suited(Sou, 9), Honor(East), Honor(South), Honor(West)};
  }

  /** 5z is the only tile held twice. */
  lemma OnlyPairWhite(p: Tile)
    requires p in ScatteredHand && ScatteredHand[p] >= 2
    ensures p == Honor(White)
  {
  }

  /** The only pair is 5z, and what it leaves does not split into four melds. */
  lemma ScatteredHandNotWinning()
    ensures !WinningShape(ScatteredHand)
  {
    var h := ScatteredHand;
    NoSpecialShape(h);
    assert Honor(White) !in Scattered;
    RemovePairAdded(Scattered, Honor(White));
    ScatteredCannotForm();
    forall p ensures !PairThenMelds(h, p) {
      if p in h && h[p] >= 2 {
        OnlyPairWhite(p);
      }
    }
    StandardHandIffSplits(h);
  }

  /** The hand has no reading at all. */
  method NoReadings() returns (results: seq<HandStructure>)
    ensures results == []
  {
    ScatteredHandNotWinning();
    results := DecomposeHand(ScatteredHand);
  }
}
