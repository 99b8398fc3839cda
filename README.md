# Egyptian Ratscrew server core, in Dafny

This project models the card logic of a small Rust server for the card game
Egyptian Ratscrew, in two revisions:

- `src/bin/card.rs`, module `Cards` (`cards.dfy`): suits, ranks and their
  numeric value (the ace is worth 1), and the two card equalities. `Card == Card`
  compares ranks only. `Card == u32` compares the rank's value with a number.
  `Card::new` is the datatype constructor `Card(rank, suit)`.
- `src/bin/server/server.rs`, module `Server` (`server.dfy`): `make_deck` as a
  loop method, the combination tests, `test_pile`, and the deal in `main`.
  The combination tests are pair, sandwich, sixty-nine, sixty-nine sandwich
  and run. The deal moves eleven cards from the deck onto the pile with
  `pop`/`push`.
- `src/main.rs`, module `EarlyServer` (`early_server.dfy`): the earlier
  revision. It has a literal 52-card deck, pair and sandwich tests written
  with `split_at` and one-element slices, and a deal that calls
  `remove(1)` eleven times.
- Module `DeckLayout` (`deck_layout.dfy`) holds what both `make_deck`s
  share. Each builds one block of 13 cards per suit, in the rank order Num
  2..10, Jack, Queen, King, Ace. Only the order of the suits differs. The
  integrity proofs (52 cards, every card once, 4 per rank, 13 per suit) hold
  for any order of the four suits.

Index 0 of a pile is its top card. `Rank::Num` carries a `u32`, so the type
admits ranks that no real card has. `WellFormed` picks out the real ones:
`Num(2)` to `Num(10)` and the four faces. `find_abs` casts the values to
`i32`, subtracts and takes `abs`, and this is modelled bit for bit. A debug
build panics on overflow there, so `AbsDefined` states when the call is
safe. The lemma `WellFormedRunDefined` shows that this always holds for real
cards.

A Rust index out of range, `split_at` past the end, `pop().unwrap()` on an
empty deck and `remove(1)` on a deck of one card are all panics. Each is a
`requires` clause here. Both `main`s receive the shuffled deck as a
parameter, which must be a permutation of the canonical deck.

Where the intended rules of the game differ from what the code does, this
model follows the code:

- the newest card of the pile would be its last element; the code reads
  index 0 as the top;
- `test_pile` would be true for any combination; the code returns true only
  for a pair (see Findings);
- the tests would run pair, sixty-nine, sandwich; the code runs pair,
  sandwich, sixty-nine, sixty-nine sandwich, run;
- the ace would count as 1 and as 14 in runs; the code counts it only as 1,
  so Q, K, A is not a run (`Server.AceIsLowOnly`);
- a pile of 0 or 1 cards would simply not match; in the code it panics, so
  here it is excluded by `requires`.

## Model

| member | source | states |
|---|---|---|
| `Cards.Rank.Value` | src/bin/card.rs:35-43 | a real rank is worth 1..13; among real ranks only the ace is worth 1; only `Num(6)` is worth 6 and only `Num(9)` is worth 9 |
| `Cards.ValueIsInjective` | src/bin/card.rs:35-43 | on real ranks, equal values mean equal ranks, and `RankOfValue` inverts `value`, so `value` is a bijection onto 1..13 |
| `Cards.RankEqualityIsStructural` | src/bin/card.rs:24-31 | `Num(11)` equals 11 as a number but is not equal to a Jack; equal cards equal each other's value; on real cards, `c1 == c2` iff `c1 == c2.rank.value()` |
| `Cards.Card.SameRank` | src/bin/card.rs:56-60 | two cards are equal iff they become the identical card once the other card gets this card's suit, so the suit is ignored |
| `Cards.SameRankIsEquivalence` | src/bin/card.rs:56-60 | card equality is reflexive, symmetric and transitive, and changing a suit never changes it |
| `Cards.Card.EqValue` | src/bin/card.rs:63-67 | a real card equals no number outside 1..13, and equals a number in 1..13 iff that number stands for its rank |
| `Cards.AceEqualsOne` | src/bin/card.rs:41 | an ace equals 1 and no other number, so it is never 14 |
| `DeckLayout.RankAt` | src/bin/server/server.rs:20-25 | each position of a suit block holds a real rank, worth position + 2 for Num 2..King and 1 for the closing ace |
| `DeckLayout.DeckAt` | src/bin/server/server.rs:19-25 | entry `13*s + k` of the deck is the card with the `k`-th rank of the `s`-th suit |
| `DeckLayout.DeckIntegrity` | src/bin/server/server.rs:19-26 | for any order of the four suits: 52 cards; every real rank×suit exactly once and no other card; no two entries equal in rank and suit; 4 cards of each rank and 13 of each suit |
| `Server.MakeDeck` | src/bin/server/server.rs:16-28 | the nested loops build the suit blocks in the order Hearts, Diamonds, Clubs, Spades: 52 cards, each real card exactly once |
| `Server.IsPair` | src/bin/server/server.rs:40-42 | reads `pile[0]` and `pile[1]` (needs two cards); a pair has equal values, and real cards are a pair iff their values are equal |
| `Server.IsSandwich` | src/bin/server/server.rs:45-47 | reads `pile[0]` and `pile[2]` (needs three cards); equal values, and iff for real cards |
| `Server.IsSixtyNineMatch` | src/bin/server/server.rs:50-58 | true iff the two values are exactly {6, 9} |
| `Server.SixtyNineMatchIsSymmetric` | src/bin/server/server.rs:50-58 | the test is symmetric, and true iff the two ranks are `Num(6)` and `Num(9)` whatever the suits |
| `Server.IsSixtyNine` | src/bin/server/server.rs:61-63 | true iff the ranks of `pile[0]` and `pile[1]` are 6 and 9 in some order |
| `Server.IsSixtyNineSandwich` | src/bin/server/server.rs:66-68 | true iff the ranks of `pile[0]` and `pile[2]` are 6 and 9 in some order |
| `Server.FindPairRun` | src/bin/server/server.rs:72-77 | true iff the three ranks are not pairwise distinct |
| `Server.AsI32` | src/bin/server/server.rs:81 | `as i32` stays in the `i32` range and keeps the same 32 bits |
| `Server.FindAbs` | src/bin/server/server.rs:80-86 | true iff the values differ by ±1 modulo 2^32; on real cards, iff they differ by exactly one |
| `Server.FindAbsIsSymmetric` | src/bin/server/server.rs:80-86 | swapping the cards keeps `find_abs` safe and keeps its result |
| `Server.WellFormedRunDefined` | src/bin/server/server.rs:80-86 | on real cards no `find_abs` inside `is_run` can overflow |
| `Server.IsRun` | src/bin/server/server.rs:89-122 | a shared rank among the top three masks the run; on real cards, a run iff the three values are distinct and consecutive |
| `Server.IsRunPermutationInvariant` | src/bin/server/server.rs:89-122 | any reordering of the top three cards leaves `is_run` unchanged and still safe |
| `Server.AceIsLowOnly` | src/bin/server/server.rs:80-122 | A, 2, 3 is a run; Q, K, A and A, K, Q are not |
| `Server.Classify` | src/bin/server/server.rs:125-165 | the branch taken is the first test that holds, in the order pair, sandwich, sixty-nine, sixty-nine sandwich, run; no branch is taken iff no test holds |
| `Server.TestPile` | src/bin/server/server.rs:125-167 | the result is true iff the top two cards are a pair; the other branches fall through to false |
| `Server.TestPileIntended` | src/bin/server/server.rs:125-166 | the corrected test: true iff any of the five combinations holds |
| `Server.SandwichNotReported` | src/bin/server/server.rs:134-141 | on 7♠, J♥, 7♦ the sandwich branch is taken, yet `test_pile` returns false and the corrected test returns true |
| `Server.DetectorExamples` | src/bin/server/server.rs:125-167 | 5♣ 5♦ is reported; 6♣ 9♥ and 9♣ 6♥ take the sixty-nine branch and are not reported; 4♣ 4♦ 5♥ is not a run |
| `Server.DealEleven` | src/bin/server/server.rs:182-184 | after eleven `pop`/`push` steps the pile is the deck's last eleven cards, last card on top, and the deck keeps the rest in order; no card is lost or duplicated |
| `Server.ServerMain` | src/bin/server/server.rs:170-185 | on a shuffled full deck, the deal and `test_pile` never panic; a pair is reported iff the deck's last two cards have the same rank |
| `EarlyServer.MakeDeck` | src/main.rs:63-121 | the literal deck is the suit blocks in the order Clubs, Spades, Diamonds, Hearts |
| `EarlyServer.EarlyDeckIntegrity` | src/main.rs:63-121 | 52 cards; every real rank×suit exactly once and no other card; 4 cards per rank, 13 per suit |
| `EarlyServer.EarlyDeckSuitBlocks` | src/main.rs:63-121 | entry `i` belongs to the `i / 13`-th suit of Clubs, Spades, Diamonds, Hearts |
| `EarlyServer.EqualityIgnoresSuit` | src/main.rs:39-44 | comparing one-card slices compares ranks only; the suit never matters |
| `EarlyServer.IsEqual` | src/main.rs:131-136 | needs both slices non-empty; depends only on `left[0]` and `right[0]` and is true iff they have the same rank |
| `EarlyServer.IsPair` | src/main.rs:139-142 | the `split_at(1)` form needs two cards and is true iff `pile[0] == pile[1]` |
| `EarlyServer.IsSandwich` | src/main.rs:145-148 | the `split_at(2)` form needs three cards and is true iff `pile[0] == pile[2]` |
| `EarlyServer.DealByRemove` | src/main.rs:156-158 | after eleven `push(remove(1))` steps on a deck of 12 or more cards: pile = d[1..12] in order, deck = [d[0]] ++ d[12..], and no card is lost or duplicated |
| `EarlyServer.Announce` | src/main.rs:160-180 | the pair message iff `pile[0] == pile[1]`; the sandwich message iff there is no pair and `pile[0] == pile[2]` |
| `EarlyServer.EarlyMain` | src/main.rs:150-181 | on a shuffled full deck: the pile is cards 1..11 of the deck, the second card is on top, and the pair and sandwich messages follow as above |

## Left out

- `shuffle_deck` (`src/bin/server/server.rs:31-35`, `src/main.rs:124-128`)
  calls the `rand` crate. Both `main`s take its result as a parameter and
  require only that it is a permutation of the canonical deck.
- The TCP listener, `accept` and `writeln!` in the server's `main`: network
  I/O.
- Every `println!`, including those in `test_pile` and in the early `main`.
  Only which branch prints is modelled (`Classify`, `Announce`).
- The `Display` impls: text formatting that depends on Rust's derived
  `Debug` output.
- `src/bin/client/client.rs`: terminal key capture, threads and TCP reading.
- The unused `serde` imports.
- Hands, side piles, hand recovery, turn alternation, win detection and the
  quit protocol: no code in these files implements them.
- The early revision declares its own `Suit`, `Rank` and `Card`. They have
  the same variants, in the same order, with the same rank-only equality,
  so the model reuses `Cards`. That revision has no `Rank::value`, and the
  model never uses one for it.
- `Server.AbsDefined`: `find_abs` is modelled as a debug build runs it,
  where an `i32` overflow panics. A release build would wrap instead. This
  matters only for `Num` values of 2^31 and above.
- `Server.IsRun`: "a run iff the values are distinct and consecutive" is
  stated for real ranks only. For other `Num` values the contract says only
  that a shared rank masks the run.

## Findings

| source | as written | input that shows it | evidently intended | confidence | as-written member | corrected member |
|---|---|---|---|---|---|---|
| src/bin/server/server.rs:134-166 | the sandwich, sixty-nine, sixty-nine-sandwich and run branches print the combination but fall through to `false`; only the pair branch returns `true` | pile 7♠, J♥, 7♦: prints "There is a sandwich" and returns false | `test_pile` returns true whenever it finds a combination | medium; not executed | `Server.TestPile` (with `Server.SandwichNotReported`) | `Server.TestPileIntended` |
