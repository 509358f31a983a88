# Hand-shape engine of a riichi mahjong scorer, in Dafny

This project models the part of the scorer that decides what a fourteen-tile
hand *is*, from `src/hand.rs`. It answers three questions:

- **Is the hand winning?** `is_winning_hand`: thirteen orphans, seven pairs, or four melds and a pair.
- **Which readings does it have?** `decompose_hand`: every `HandStructure`, sorted and without repeats.
- **Is a thirteen-orphans hand waiting on all thirteen tiles?** `is_kokushi_13_wait`.

Data model:

- A tile is `Suited(suit, value)` or `Honor(kind)`.
- Tiles are ordered by `Index`: man 1–9, pin 1–9, sou 1–9, then the honors east … red.
- A hand is `Counts`, a map from tile to count, like the source's `TileCounts`.
  Entries with count zero are allowed, as in the source, and dropped by `Retain`.
- `Bag(c)` is the multiset of tiles a map stands for. It is the specification
  view: a reading is correct when the tiles of its melds and pair make up
  exactly that multiset.

The modules follow the source:

- `Tiles`: tiles, their order, the thirteen orphans.
- `TileCounts`: the count map.
- `Sorting`: the stable sort and `dedup` the engine applies to its vectors.
- `Melds`: `find_all_meld_combinations` and `can_form_melds`.
- `Shapes`: `is_chiitoitsu`, `check_kokushi` and `is_kokushi_13_wait`.
- `Decompose`: `decompose_hand`, `is_standard_hand` and `is_winning_hand`.
- `SearchFacts`: general facts for working out what the search answers on a given hand:
  the search led by one meld, a hand on which no meld can start, an honor held fewer than three times.
- `Scenarios`: the example hands of the module's unit tests, restated as lemmas and methods.

How each part of the source is written in Dafny:

- The recursive search and the fast check are recursive functions.
- The functions that walk the map or the orphan list in a loop are methods
  with loops. Each is proved against a predicate that says what the loop decides.
- The map's iteration order is unspecified, so the order in which pair tiles
  are tried is a nondeterministic choice from the keys not yet tried.

## Model

| member | source | states |
|---|---|---|
| Tiles.Index | src/hand.rs:101-102 | The tile order used to pick the pivot: 34 positions, numbered tiles before honors |
| Tiles.IndexInjective | src/hand.rs:101-102 | Different tiles have different positions, so the lowest key is unique |
| Tiles.Succ | src/hand.rs:117-120 | The tiles one and two above a numbered tile: same suit, value plus k, next positions in the order |
| Tiles.KokushiTilesAreTerminalsAndHonors | src/hand.rs:155-166 | A tile is one of the thirteen orphans exactly when it is a terminal or an honor |
| Tiles.KokushiTilesDistinct | src/hand.rs:155-159 | The thirteen orphans are listed in strictly increasing tile order, so no orphan is listed twice |
| TileCounts.Retain | src/hand.rs:83 | Dropping zero entries keeps every count and leaves exactly the tiles held at least once |
| TileCounts.RetainBag | src/hand.rs:83 | Dropping zero entries does not change the tiles of the hand |
| TileCounts.MinTile | src/hand.rs:101-102 | The pivot is a key of the map and no key is below it |
| TileCounts.Take | src/hand.rs:107-108 | Taking k copies of a tile lowers its count by k and leaves every other count alone |
| TileCounts.SortedKeys | src/hand.rs:43-45 | The keys listed once each, in increasing tile order |
| Sorting.SortBy | src/hand.rs:62-64 | Sorting is a permutation of its input |
| Sorting.SortBySorted | src/hand.rs:74 | For a total preorder, the sorted output is ordered |
| Sorting.SortedUnique | src/hand.rs:74-75 | Under a total order, two sorted permutations of the same elements are equal |
| Sorting.Dedup | src/hand.rs:75 | Removing repeats keeps exactly the same elements |
| Sorting.DedupSorted | src/hand.rs:74-75 | `dedup` after a sort by an antisymmetric order leaves a sorted list with no element twice |
| Melds.RunAvailable | src/hand.rs:117-123 | No contract of its own: the sequence guard, a numbered tile of value at most 7 whose two successors are held. Melds.FoundLead and Melds.CanRunIffFound state what it admits |
| Melds.TakeRun | src/hand.rs:125-129 | No contract of its own; see Melds.TakeRunTiles |
| Melds.TakeTriplet | src/hand.rs:106-108 | No contract of its own; see Melds.TakeTripletTiles |
| Melds.Prepend | src/hand.rs:110-113 | Puts the meld in front of every result, keeping their number and order |
| Melds.FindAll | src/hand.rs:81-140 | No contract of its own: `find_all_meld_combinations`. See Melds.FindAllBase, Melds.FindAllSound, Melds.FindAllComplete, Melds.FindAllDistinct, Melds.FoundLead |
| Melds.TripletResults | src/hand.rs:105-114 | No contract of its own: the triplet branch. See Melds.TripletResultsSound and Melds.TripletResultsDistinct |
| Melds.RunResults | src/hand.rs:116-137 | No contract of its own: the sequence branch. See Melds.RunResultsSound and Melds.RunResultsDistinct |
| Melds.CanForm | src/hand.rs:219-262 | No contract of its own: `can_form_melds`. See Melds.CanFormIffFound and Melds.CanFormIffSplits |
| Melds.CanTriplet | src/hand.rs:233-239 | No contract of its own: the fast check's triplet option. See Melds.CanTripletIffFound |
| Melds.CanRun | src/hand.rs:241-259 | No contract of its own: the fast check's sequence option. See Melds.CanRunIffFound |
| Melds.ExpandSize | src/hand.rs:4-11 | Valid melds hold three tiles each |
| Melds.ExpandPermutation | src/hand.rs:62-64 | Reordering a meld list changes neither its tiles nor its validity |
| Melds.TakeTripletTiles | src/hand.rs:106-108 | Forming a triplet removes exactly its three tiles from the hand |
| Melds.TakeRunTiles | src/hand.rs:125-129 | Forming a sequence removes exactly its three tiles from the hand |
| Melds.FindAllBase | src/hand.rs:86-97 | Nothing needed: one empty result if no tile is left, else none. Melds needed but no tile left: no result |
| Melds.FindAllSound | src/hand.rs:81-140 | Every result splits the tiles into exactly `needed` valid melds |
| Melds.TripletResultsSound | src/hand.rs:105-114 | Every triplet-first result splits the tiles |
| Melds.RunResultsSound | src/hand.rs:116-137 | Every sequence-first result splits the tiles |
| Melds.PivotSplit | src/hand.rs:101-137 | Every splitting has a meld on the lowest tile, which passes that branch's guard; the other melds split what it leaves |
| Melds.FindAllComplete | src/hand.rs:81-140 | Every splitting into `needed` melds is found, up to the order of its melds |
| Melds.LeadFound | src/hand.rs:105-134 | A splitting led by a meld on the lowest tile is found with that meld in front |
| Melds.FoundLead | src/hand.rs:101-125 | Every result starts on the lowest tile. It is a triplet only if that tile is held three times, and a sequence only if the tile is numbered, at most 7, and its two successors are held |
| Melds.FindAllDistinct | src/hand.rs:81-140 | The search never returns the same list twice |
| Melds.TripletResultsDistinct | src/hand.rs:105-114 | Triplet-option results are distinct and all start with the triplet |
| Melds.RunResultsDistinct | src/hand.rs:116-137 | Sequence-option results are distinct and all start with the sequence |
| Melds.CanFormIffFound | src/hand.rs:219-262 | `can_form_melds` is true exactly when `find_all_meld_combinations` returns something |
| Melds.CanTripletIffFound | src/hand.rs:233-239 | The fast check's triplet option succeeds exactly when the search's triplet option finds something |
| Melds.CanRunIffFound | src/hand.rs:241-259 | The fast check's sequence option succeeds exactly when the search's sequence option finds something |
| Melds.CanFormIffSplits | src/hand.rs:219-262 | `can_form_melds` is true exactly when the tiles split into `needed` melds |
| Shapes.IsChiitoitsu | src/hand.rs:142-144 | No contract of its own: seven entries, each count two. See Shapes.ChiitoitsuShape |
| Shapes.ChiitoitsuShape | src/hand.rs:142-144 | Seven pairs iff seven distinct tiles each held twice, fourteen tiles in all, so four of a kind is not two pairs |
| Shapes.CheckKokushi | src/hand.rs:148-183 | Returns a tile iff the hand has 14 tiles, every orphan, only orphans and exactly one orphan twice with none above two; the tile returned is that pair |
| Shapes.CheckOrphansPresent | src/hand.rs:154-159 | True iff each of the thirteen orphans is held |
| Shapes.CheckOnlyOrphans | src/hand.rs:161-166 | True iff every key is a terminal or an honor |
| Shapes.FindPair | src/hand.rs:168-182 | A tile iff no orphan is held three times and exactly one is held twice; that tile is returned |
| Shapes.KokushiHand | src/hand.rs:148-183 | The thirteen-orphans hands with pair p are exactly the map of one of each orphan with p raised to two |
| Shapes.KokushiWaitTiles | src/hand.rs:186-199 | The thirteen-way wait holds one of each orphan, thirteen tiles |
| Shapes.IsKokushi13Wait | src/hand.rs:186-199 | True iff the map holds exactly one of each orphan and nothing else |
| Decompose.MeldOrders | src/hand.rs:62-64 | Tile-then-kind is a total order on melds. Ordering by the representative tile alone is a preorder that does not tell melds apart |
| Decompose.SortMeldsByRep | src/hand.rs:62-64 | The meld sort as written: the same melds, ordered by representative tile alone |
| Decompose.SortMeldsCanonical | src/hand.rs:62-64 | With the tile-then-kind order, two lists of the same melds sort to the same list, ordered and a permutation |
| Decompose.KeyInjective | src/hand.rs:74-75 | Different structures have different sort keys |
| Decompose.ResultOrder | src/hand.rs:74 | The order on results is total, transitive and antisymmetric, so sorting brings equal readings together |
| Decompose.RemovePair | src/hand.rs:52-56 | Taking the pair leaves the hand minus two copies of the tile, and drops the entry when it reaches zero |
| Decompose.DecompositionTiles | src/hand.rs:33-78 | Every reading uses exactly the tiles of the hand, fourteen of them |
| Decompose.StandardReadingShape | src/hand.rs:50-64 | A standard reading lists its melds by tile, and its pair tile is held at least twice |
| Decompose.KokushiPairUnique | src/hand.rs:168-182 | A thirteen-orphans hand has only one possible pair |
| Decompose.DecompositionExists | src/hand.rs:264-266 | A reading exists exactly for winning hands |
| Decompose.StandardListed | src/hand.rs:57-69 | With pair p, the search results in meld order are exactly the standard readings with that pair |
| Decompose.SpecialReadings | src/hand.rs:36-46 | The first two checks list exactly the thirteen-orphans and seven-pairs readings |
| Decompose.PushStandards | src/hand.rs:61-69 | The inner loop appends one standard reading per search result, in order |
| Decompose.ReadingsListed | src/hand.rs:49-70 | After pair p is tried, the list holds what it held before plus exactly the standard readings with pair p |
| Decompose.DecomposeHand | src/hand.rs:33-78 | The result is sorted, has no repeats, and holds exactly the readings of the hand. It is non-empty iff the hand wins |
| Decompose.OneReadingPerDecomposition | src/hand.rs:73-75 | Two standard readings of a hand with the same pair and the same melds are the same entry, so the corrected result lists each decomposition once |
| Decompose.StandardHandIffSplits | src/hand.rs:201-217 | Some pair tile passes the fast check iff the hand is four melds and a pair |
| Decompose.IsStandardHand | src/hand.rs:201-217 | True iff some tile held twice leaves tiles that split into four melds |
| Decompose.IsWinningHand | src/hand.rs:264-266 | True iff the hand is thirteen orphans, seven pairs or four melds and a pair |
| Decompose.RepSortKeepsDuplicates | src/hand.rs:62-64 | For 111123m456p789s55z the search finds two lists of the same melds. The tile-only order keeps them as different readings; the tile-then-kind order makes them one |
| Decompose.BothLeadsFound | src/hand.rs:105-134 | Two splittings with swapped lead melds on the lowest tile both appear among the results, with the same melds |
| Decompose.RepOrderKeepsLead | src/hand.rs:62-64 | Stable sorting by tile alone keeps a triplet and a sequence on the same tile in the order they came |
| SearchFacts.SplitStart | src/hand.rs:101-137 | Tiles that split into at least one meld have a tile that starts a triplet or a sequence |
| SearchFacts.NoMeldStarts | src/hand.rs:81-140 | If no tile starts a triplet or a sequence, the tiles do not split into one meld or more |
| SearchFacts.HonorInTriplet | src/hand.rs:116-123 | An honor in a split is held at least three times, since sequences start only on numbered tiles |
| SearchFacts.MeldLeaves | src/hand.rs:105-129 | A valid meld whose tiles are in the hand passes its branch's guard, and taking it leaves exactly the rest |
| SearchFacts.FoundByRun | src/hand.rs:116-137 | When the lowest tile is held fewer than three times and starts a sequence, the search's results are those of what the sequence leaves, with the sequence in front |
| SearchFacts.FoundByTriplet | src/hand.rs:101-114 | When the lowest tile is an honor held three times, the search's results are those of what the triplet leaves, with the triplet in front |
| SearchFacts.FoundChain | src/hand.rs:81-140 | If the tiles are three sequences, each on the lowest tile left and that tile held fewer than three times, then an honor triplet using up the rest, the search returns exactly one list: those four melds in that order |
| SearchFacts.OnlyRunFrom | src/hand.rs:233-259 | With the lowest tile held fewer than three times, the fast check succeeds only through the sequence from it |
| SearchFacts.BlockedAfterRun | src/hand.rs:219-262 | If the lowest tile is held fewer than three times and the sequence from it is missing or leaves tiles that cannot be split, the tiles cannot be split |
| Scenarios.SevenPairs | src/hand.rs:337-350 | 1122m3344p5566s77z is seven pairs and winning (also the test at lines 274-280). Its readings are exactly one, the seven-pairs reading with seven tiles |
| Scenarios.SevenPairsOnly | src/hand.rs:337-350 | The only reading of 1122m3344p5566s77z is seven pairs: no tile can start a meld, and it is not thirteen orphans |
| Scenarios.FourOfAKindIsNotSevenPairs | src/hand.rs:283-287 | 1111m22m33p44p55s66s is not seven pairs |
| Scenarios.SimpleFound | src/hand.rs:320-335 | The search on 123m456p789s111z returns exactly one list: 123m 456p 789s 111z |
| Scenarios.SimpleOnly | src/hand.rs:320-335 | The only reading of 123m456p789s11122z is 123m 456p 789s 111z with pair 22z. With 11z as the pair, 2z cannot be placed |
| Scenarios.Simple | src/hand.rs:320-335 | 123m456p789s11122z is a standard, winning hand (also the test at lines 289-295). It has exactly one reading: 123m 456p 789s 111z with pair 22z |
| Scenarios.AllTriplets | src/hand.rs:298-302 | 111m222p333s44455z is a standard hand |
| Scenarios.AllRuns | src/hand.rs:312-316 | 123456m789p234s55z is a standard hand |
| Scenarios.Ladder | src/hand.rs:353-384 | 111222333m11155z has at least two readings: the all-triplet one and the all-sequence one |
| Scenarios.ScatteredNotWinning | src/hand.rs:304-309 | 1234m5678p9s123z is neither thirteen orphans, seven pairs nor four melds and a pair |
| Scenarios.NotWinning | src/hand.rs:304-309 | `is_winning_hand` on 1234m5678p9s123z is false |
| Scenarios.ScatteredCannotForm | src/hand.rs:411-418 | The fast check fails on 1234m5678p9s123z: after 123m, 4m starts no meld |
| Scenarios.ScatteredHandNotWinning | src/hand.rs:411-418 | 1234m5678p9s12355z is not a winning shape: its only pair is 5z, and the rest cannot be split |
| Scenarios.NoReadings | src/hand.rs:411-418 | `decompose_hand` on 1234m5678p9s12355z returns no reading |
| Scenarios.Twin | src/hand.rs:387-409 | 112233m456p789s55z has a reading with two sequences from 1m |

## Left out

- Parsing hand strings and building the count map are not part of this model.
  The example hands are written out as maps.
- The tile type and its order come from `src/tile.rs`, which is not part of this model.
  The order is modelled by `Tiles.Index`: suits man, pin, sou, values ascending, then honors east to red.
- Scoring, the web front end and localisation are out of scope.
- Shapes.CheckKokushi: the tile total is summed as an unbounded integer, not as a `u8`.
  The overflow is not modelled. With at most four of each tile the total is at most 136.
- Shapes.IsKokushi13Wait: the same `u8` total is not modelled.
- Decompose.DecomposeHand: the final sort compares an integer code for each structure (`Decompose.Key`),
  not the `Debug` text. Both put seven pairs before thirteen orphans before standard hands,
  and both tell any two structures apart. So the result holds the same entries and is free of
  repeats, but standard readings may be listed in another order.
- Decompose.DecomposeHand: standard readings list their melds by tile then kind (sequence before triplet),
  not by tile alone. This is the correction described under Findings.
- Decompose.DecomposeHand and Decompose.IsStandardHand: the order in which pair tiles are tried is left open.
  It follows the map's iteration order (unspecified) and does not change the result set or the answer.

## Findings

| source | as written | input that shows it | evidently intended | confidence | as-written member | corrected member |
|---|---|---|---|---|---|---|
| src/hand.rs:62-64 | Melds are sorted by representative tile alone, with a stable sort. A triplet and a sequence on the same tile keep the order the search found them in. | 111123m456p789s55z: the search returns 111m 123m 456p 789s and 123m 111m 456p 789s. Both stay after sorting, so two `Standard` entries for one decomposition survive `dedup` | One entry per decomposition ("same structure found via different paths" removed) | not executed | Decompose.RepSortKeepsDuplicates | Decompose.SortMeldsCanonical (used by Decompose.DecomposeHand) |
