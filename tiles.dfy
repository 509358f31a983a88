/**
 * Tile identities of the standard 34-kind set: three numbered suits with
 * values 1..9 and seven honor kinds.  The total order used throughout is the
 * one given by `Index`: suits in the order man, pin, sou, each suit's tiles
 * contiguous and ascending by value, honors last.  The pivot argument of the
 * meld search depends on exactly this shape of the order.
 */
module Tiles {

  datatype Suit = Man | Pin | Sou

  datatype HonorKind = East | South | West | North | White | Green | Red

  type Value = v: int | 1 <= v <= 9 witness 1

  datatype Tile = Suited(suit: Suit, value: Value) | Honor(kind: HonorKind)

  /** Number of distinct tile identities. */
  const KindCount: nat := 34

  function SuitRank(s: Suit): nat
  {
    match s
    case Man => 0
    case Pin => 1
    case Sou => 2
  }

  function HonorRank(h: HonorKind): nat
  {
    match h
    case East => 0
    case South => 1
    case West => 2
    case North => 3
    case White => 4
    case Green => 5
    case Red => 6
  }

  function SuitOf(r: nat): Suit
    requires r < 3
  {
    if r == 0 then Man else if r == 1 then Pin else Sou
  }

  function HonorOf(r: nat): HonorKind
    requires r < 7
  {
    if r == 0 then East else if r == 1 then South else if r == 2 then West
    else if r == 3 then North else if r == 4 then White else if r == 5 then Green
    else Red
  }

  /** Position of a tile in the total order. */
  function Index(t: Tile): (i: nat)
    ensures i < KindCount
    ensures t.Suited? <==> i < 27
  {
    match t
    case Suited(s, v) => 9 * SuitRank(s) + (v - 1)
    case Honor(h) => 27 + HonorRank(h)
  }

  /** The tile at a given position of the order; the inverse of `Index`. */
  function TileOf(i: nat): (t: Tile)
    requires i < KindCount
    ensures Index(t) == i
  {
    if i < 27 then Suited(SuitOf(i / 9), i % 9 + 1) else Honor(HonorOf(i - 27))
  }

  /** Distinct tiles have distinct positions, so `Index` orders tiles totally. */
  lemma IndexInjective(a: Tile, b: Tile)
    ensures Index(a) == Index(b) ==> a == b
  {
    if Index(a) == Index(b) {
      match a
      case Suited(s, v) =>
        assert b.Suited?;
        assert SuitRank(s) == SuitRank(b.suit);
      case Honor(h) =>
        assert b.Honor?;
    }
  }

  /** The tile `k` places above a numbered tile, in the same suit. */
  function Succ(t: Tile, k: nat): (r: Tile)
    requires t.Suited? && t.value + k <= 9
    ensures r.Suited? && r.suit == t.suit && r.value == t.value + k
    ensures Index(r) == Index(t) + k
  {
    Suited(t.suit, t.value + k)
  }

  /** Terminals (values 1 and 9) and honors. */
  predicate IsTerminalOrHonor(t: Tile)
  {
    t.Honor? || t.value == 1 || t.value == 9
  }

  /**
   * The `i`-th thirteen-orphans tile: 1 and 9 of man, pin and sou in that
   * order, then the seven honors.
   */
  function KokushiTile(i: nat): Tile
    requires i < 13
  {
    if i == 0 then Suited(Man, 1) else if i == 1 then Suited(Man, 9)
    else if i == 2 then Suited(Pin, 1) else if i == 3 then Suited(Pin, 9)
    else if i == 4 then Suited(Sou, 1) else if i == 5 then Suited(Sou, 9)
    else if i == 6 then Honor(East) else if i == 7 then Honor(South)
    else if i == 8 then Honor(West) else if i == 9 then Honor(North)
    else if i == 10 then Honor(White) else if i == 11 then Honor(Green)
    else Honor(Red)
  }

  /** The thirteen tiles of the thirteen-orphans shape, in tile order. */
  const KokushiTiles: seq<Tile> := KokushiList()

  function KokushiList(): (ts: seq<Tile>)
    ensures |ts| == 13 && forall i :: 0 <= i < 13 ==> ts[i] == KokushiTile(i)
  {
    seq(13, i requires 0 <= i < 13 => KokushiTile(i))
  }

  /** The thirteen-orphans set is exactly the terminals and honors. */
  lemma KokushiTilesAreTerminalsAndHonors(t: Tile)
    ensures t in KokushiTiles <==> IsTerminalOrHonor(t)
  {
    if IsTerminalOrHonor(t) {
      match t
      case Suited(s, v) =>
        var k := 2 * SuitRank(s) + (if v == 1 then 0 else 1);
        assert t == KokushiTiles[k];
      case Honor(h) =>
        assert t == KokushiTiles[6 + HonorRank(h)];
    }
  }

  /** Every thirteen-orphans tile occurs once in the list. */
  lemma KokushiTilesDistinct()
    ensures |KokushiTiles| == 13
    ensures forall i, j :: 0 <= i < j < 13 ==> Index(KokushiTiles[i]) < Index(KokushiTiles[j])
  {
    forall i, j | 0 <= i < j < 13 ensures Index(KokushiTiles[i]) < Index(KokushiTiles[j]) {
      assert Index(KokushiTile(i)) < Index(KokushiTile(i + 1)) <= Index(KokushiTile(j)) by {
        KokushiStep(i, j);
      }
    }
  }

  /** Positions in the list increase with the index. */
  lemma KokushiStep(i: nat, j: nat)
    requires i < j < 13
    ensures Index(KokushiTile(i)) < Index(KokushiTile(i + 1)) <= Index(KokushiTile(j))
    decreases j - i
  {
    if i + 1 < j {
      KokushiStep(i + 1, j);
    }
  }

  /** The thirteen-orphans list is in increasing tile order. */
  lemma KokushiTilesAscending()
    ensures |KokushiTiles| == 13 && Ascending(KokushiTiles)
  {
    KokushiTilesDistinct();
  }

  /** Strictly increasing in the tile order (so also free of repeats). */
  predicate Ascending(ts: seq<Tile>)
  {
    forall i, j :: 0 <= i < j < |ts| ==> Index(ts[i]) < Index(ts[j])
  }

  lemma AscendingCons(t: Tile, ts: seq<Tile>)
    requires Ascending(ts)
    requires forall u :: u in ts ==> Index(t) < Index(u)
    ensures Ascending([t] + ts)
  {
    var s := [t] + ts;
    forall i, j | 0 <= i < j < |s| ensures Index(s[i]) < Index(s[j]) {
      assert s[j] == ts[j - 1];
      if i > 0 { assert s[i] == ts[i - 1]; } else { assert s[j] in ts; }
    }
  }
  lemma AscendingTail(ts: seq<Tile>)
    requires ts != [] && Ascending(ts)
    ensures Ascending(ts[1..]) && ts[0] !in ts[1..]
  {
    var tail := ts[1..];
    forall i, j | 0 <= i < j < |tail| ensures Index(tail[i]) < Index(tail[j]) {
      assert tail[i] == ts[i + 1] && tail[j] == ts[j + 1];
    }
    forall k | 0 <= k < |tail| ensures tail[k] != ts[0] {
      assert tail[k] == ts[k + 1];
    }
  }

  /** In a strictly increasing sequence every tile occurs at most once. */
  lemma {:induction false} AscendingCount(ts: seq<Tile>, t: Tile)
    requires Ascending(ts)
    ensures multiset(ts)[t] == if t in ts then 1 else 0
  {
    if ts != [] {
      var tail := ts[1..];
      assert ts == [ts[0]] + tail;
      AscendingTail(ts);
      AscendingCount(tail, t);
    }
  }

  lemma SetOfCons(ts: seq<Tile>)
    requires ts != []
    ensures (set t | t in ts) == {ts[0]} + (set t | t in ts[1..])
  {
    assert ts == [ts[0]] + ts[1..];
  }

  /** A strictly increasing sequence has as many distinct tiles as elements. */
  lemma {:induction false} AscendingCard(ts: seq<Tile>)
    requires Ascending(ts)
    ensures |set t | t in ts| == |ts|
  {
    if ts != [] {
      AscendingTail(ts);
      AscendingCard(ts[1..]);
      SetOfCons(ts);
    }
  }
}
