/**
 * The server of the final revision: it builds the deck, deals eleven cards
 * onto the pile and tests the pile for combinations. Index 0 of the pile is
 * its top card; `is_pair` looks at indices 0 and 1, the sandwich tests at
 * 0 and 2, the run test at 0, 1 and 2.
 */
module Server {
  import opened Cards
  import opened DeckLayout

  /** The suit order of `make_deck`'s outer loop. */
  const ServerSuitOrder: seq<Suit> := [Hearts, Diamonds, Clubs, Spades]

  /**
   * `make_deck`: for each suit, push Num 2..10 and then the four faces.
   * The deck is laid out suit by suit in `ServerSuitOrder` and holds every
   * real card exactly once.
   */
  method MakeDeck() returns (deck: seq<Card>)
    ensures deck == DeckInSuitOrder(ServerSuitOrder)
    ensures |deck| == 52
    ensures forall c: Card :: multiset(deck)[c] == if c.rank.WellFormed() then 1 else 0
  {
    deck := [];
    var suits := [Hearts, Diamonds, Clubs, Spades];
    for s := 0 to |suits|
      invariant deck == DeckInSuitOrder(suits[..s])
    {
      var suit := suits[s];
      ghost var before := deck;
      for i := 2 to 11
        invariant deck == before + SuitBlock(suit)[..i - 2]
      {
        deck := deck + [Card(Num(i), suit)];
      }
      var faces := [Jack, Queen, King, Ace];
      for f := 0 to |faces|
        invariant deck == before + SuitBlock(suit)[..9 + f]
      {
        deck := deck + [Card(faces[f], suit)];
      }
      assert suits[..s + 1][..s] == suits[..s];
    }
    assert suits[..4] == suits;
    DeckIntegrity(suits);
  }

  // ---------------------------------------------------------------------
  // Combination tests

  /** `is_pair`: the top two cards have the same rank. */
  function IsPair(pile: seq<Card>): (pair: bool)
    requires |pile| >= 2
    ensures pair ==> pile[0].rank.Value() == pile[1].rank.Value()
    ensures pile[0].rank.WellFormed() && pile[1].rank.WellFormed() ==>
              (pair <==> pile[0].rank.Value() == pile[1].rank.Value())
  {
    pile[0].SameRank(pile[1])
  }

  /** `is_sandwich`: the top card and the third have the same rank. */
  function IsSandwich(pile: seq<Card>): (sandwich: bool)
    requires |pile| >= 3
    ensures sandwich ==> pile[0].rank.Value() == pile[2].rank.Value()
    ensures pile[0].rank.WellFormed() && pile[2].rank.WellFormed() ==>
              (sandwich <==> pile[0].rank.Value() == pile[2].rank.Value())
  {
    pile[0].SameRank(pile[2])
  }

  /** `is_sixty_nine_match`: the two cards are worth 6 and 9, in either order. */
  function IsSixtyNineMatch(left: Card, right: Card): (found: bool)
    ensures found <==> {left.rank.Value(), right.rank.Value()} == {6, 9}
  {
    if left.EqValue(6) && right.EqValue(9) then true
    else if right.EqValue(6) && left.EqValue(9) then true
    else false
  }

  /** The sixty-nine test is symmetric, and only a 6 and a 9 of any suits pass it. */
  lemma SixtyNineMatchIsSymmetric(left: Card, right: Card)
    ensures IsSixtyNineMatch(left, right) == IsSixtyNineMatch(right, left)
    ensures IsSixtyNineMatch(left, right) <==> {left.rank, right.rank} == {Num(6), Num(9)}
  {
  }

  /** `is_sixty_nine`: the top two cards are a 6 and a 9. */
  function IsSixtyNine(pile: seq<Card>): (found: bool)
    requires |pile| >= 2
    ensures found <==> {pile[0].rank, pile[1].rank} == {Num(6), Num(9)}
  {
    IsSixtyNineMatch(pile[0], pile[1])
  }

  /** `is_sixty_nine_sandwich`: the top card and the third are a 6 and a 9. */
  function IsSixtyNineSandwich(pile: seq<Card>): (found: bool)
    requires |pile| >= 3
    ensures found <==> {pile[0].rank, pile[2].rank} == {Num(6), Num(9)}
  {
    IsSixtyNineMatch(pile[0], pile[2])
  }

  /** `find_pair_run`: some two of the three cards have the same rank. */
  function FindPairRun(left: Card, middle: Card, right: Card): (paired: bool)
    ensures paired <==> |{left.rank, middle.rank, right.rank}| < 3
  {
    if left.SameRank(middle) || left.SameRank(right) || middle.SameRank(right) then true
    else false
  }

  /** `v as i32` for a `u32` `v`: the same 32 bits read in two's complement. */
  function AsI32(v: u32): (x: int)
    ensures -0x8000_0000 <= x < 0x8000_0000
    ensures (x - v) % 0x1_0000_0000 == 0
  {
    if v < 0x8000_0000 then v else v - 0x1_0000_0000
  }

  /**
   * `find_abs` runs without an arithmetic panic: the `i32` subtraction does
   * not overflow and its result is not `i32::MIN`, whose `abs` overflows.
   */
  predicate AbsDefined(left: Card, right: Card) {
    -0x8000_0000 < AsI32(left.rank.Value()) - AsI32(right.rank.Value()) < 0x8000_0000
  }

  /**
   * `find_abs`: the two ranks' values differ by one, computed in `i32`. On
   * the whole `u32` range this is adjacency modulo 2^32 (so `Num(u32::MAX)`
   * and `Num(0)` count as adjacent); on real cards it is plain adjacency,
   * with the ace worth 1.
   */
  function FindAbs(left: Card, right: Card): (adjacent: bool)
    requires AbsDefined(left, right)
    ensures adjacent <==>
              (left.rank.Value() - right.rank.Value()) % 0x1_0000_0000 in {1, 0xFFFF_FFFF}
    ensures left.rank.WellFormed() && right.rank.WellFormed() ==>
              (adjacent <==> left.rank.Value() - right.rank.Value() in {1, -1})
  {
    var value := AsI32(left.rank.Value()) - AsI32(right.rank.Value());
    (if value < 0 then -value else value) == 1
  }

  /** `is_run` runs without an arithmetic panic (its `find_abs` calls are defined). */
  predicate RunDefined(pile: seq<Card>) {
    && |pile| >= 3
    && (!FindPairRun(pile[0], pile[1], pile[2]) ==>
          && AbsDefined(pile[0], pile[1])
          && AbsDefined(pile[0], pile[2])
          && AbsDefined(pile[1], pile[2]))
  }

  function Min3(a: int, b: int, c: int): int {
    if a <= b && a <= c then a else if b <= c then b else c
  }

  function Max3(a: int, b: int, c: int): int {
    if a >= b && a >= c then a else if b >= c then b else c
  }

  /** Three distinct integers that are consecutive in some order. */
  predicate Consecutive(a: int, b: int, c: int) {
    a != b && a != c && b != c && Max3(a, b, c) - Min3(a, b, c) == 2
  }

  /**
   * `is_run`: unless two of the top three cards have the same rank, some
   * two of the three pairs among them are adjacent. On real cards this is
   * "the three values are distinct and consecutive", with the ace only low.
   */
  function IsRun(pile: seq<Card>): (run: bool)
    requires RunDefined(pile)
    ensures FindPairRun(pile[0], pile[1], pile[2]) ==> !run
    ensures pile[0].rank.WellFormed() && pile[1].rank.WellFormed() && pile[2].rank.WellFormed() ==>
              (run <==> Consecutive(pile[0].rank.Value(), pile[1].rank.Value(), pile[2].rank.Value()))
  {
    var left, middle, right := pile[0], pile[1], pile[2];
    if !FindPairRun(left, middle, right) then
      var oneTwo := FindAbs(left, middle);
      var oneThree := FindAbs(left, right);
      var twoThree := FindAbs(middle, right);
      if oneTwo && twoThree then true
      else if oneThree && twoThree then true
      else if oneTwo && oneThree then true
      else false
    else
      false
  }

  /** `is_run` does not depend on the order of the top three cards. */
  lemma IsRunPermutationInvariant(pile: seq<Card>, i: nat, j: nat, k: nat)
    requires RunDefined(pile)
    requires i < 3 && j < 3 && k < 3 && i != j && i != k && j != k
    ensures RunDefined([pile[i], pile[j], pile[k]])
    ensures IsRun([pile[i], pile[j], pile[k]]) == IsRun(pile)
  {
    var a, b, c := pile[0], pile[1], pile[2];
    if !FindPairRun(a, b, c) {
      FindAbsIsSymmetric(a, b);
      FindAbsIsSymmetric(a, c);
      FindAbsIsSymmetric(b, c);
    }
  }

  lemma FindAbsIsSymmetric(left: Card, right: Card)
    requires AbsDefined(left, right)
    ensures AbsDefined(right, left) && FindAbs(right, left) == FindAbs(left, right)
  {
  }

  /** The ace is only low: A, 2, 3 is a run, Q, K, A is not. */
  lemma AceIsLowOnly(s1: Suit, s2: Suit, s3: Suit)
    ensures IsRun([Card(Ace, s1), Card(Num(2), s2), Card(Num(3), s3)])
    ensures !IsRun([Card(Queen, s1), Card(King, s2), Card(Ace, s3)])
    ensures !IsRun([Card(Ace, s1), Card(King, s2), Card(Queen, s3)])
  {
  }

  /** On real cards `find_abs`, and so `is_run`, can never panic. */
  lemma WellFormedRunDefined(pile: seq<Card>)
    requires |pile| >= 3
    requires pile[0].rank.WellFormed() && pile[1].rank.WellFormed() && pile[2].rank.WellFormed()
    ensures RunDefined(pile)
  {
  }

  // ---------------------------------------------------------------------
  // test_pile

  /** The branch `test_pile` takes, that is the combination it prints. */
  datatype Combination = Pair | Sandwich | SixtyNine | SixtyNineSandwich | Run | NoCombination

  /**
   * `test_pile` runs without a panic: a pile of two cards suffices when
   * they are a pair, otherwise the sandwich test reads the third card, and
   * the run test must be defined when it is reached.
   */
  predicate ClassifyDefined(pile: seq<Card>) {
    && |pile| >= 2
    && (!IsPair(pile) ==>
          && |pile| >= 3
          && (!IsSandwich(pile) && !IsSixtyNine(pile) && !IsSixtyNineSandwich(pile) ==>
                RunDefined(pile)))
  }

  /**
   * The combination `test_pile` reports, trying pair, sandwich, sixty-nine,
   * sixty-nine sandwich and run in this order; the first that holds wins.
   */
  function Classify(pile: seq<Card>): (found: Combination)
    requires ClassifyDefined(pile)
    ensures found == Pair <==> IsPair(pile)
    ensures found == Sandwich <==> !IsPair(pile) && IsSandwich(pile)
    ensures found == SixtyNine <==> !IsPair(pile) && !IsSandwich(pile) && IsSixtyNine(pile)
    ensures found == SixtyNineSandwich <==>
              !IsPair(pile) && !IsSandwich(pile) && !IsSixtyNine(pile) && IsSixtyNineSandwich(pile)
    ensures found == NoCombination <==>
              && !IsPair(pile) && !IsSandwich(pile) && !IsSixtyNine(pile)
              && !IsSixtyNineSandwich(pile) && !IsRun(pile)
  {
    if IsPair(pile) then Pair
    else if IsSandwich(pile) then Sandwich
    else if IsSixtyNine(pile) then SixtyNine
    else if IsSixtyNineSandwich(pile) then SixtyNineSandwich
    else if IsRun(pile) then Run
    else NoCombination
  }

  /**
   * `test_pile` as written: only the pair branch returns `true`; the
   * sandwich, sixty-nine, sixty-nine sandwich and run branches print the
   * combination and then fall through to `false`.
   */
  function TestPile(pile: seq<Card>): (found: bool)
    requires ClassifyDefined(pile)
    ensures found <==> IsPair(pile)
  {
    Classify(pile) == Pair
  }

  /** `test_pile` as its branches evidently intend: true when any combination is found. */
  function TestPileIntended(pile: seq<Card>): (found: bool)
    requires ClassifyDefined(pile)
    ensures found <==>
              || IsPair(pile)
              || IsSandwich(pile) || IsSixtyNine(pile) || IsSixtyNineSandwich(pile) || IsRun(pile)
  {
    Classify(pile) != NoCombination
  }

  /** A sandwich is found and printed, but `test_pile` returns false for it. */
  lemma SandwichNotReported()
    ensures var pile := [Card(Num(7), Spades), Card(Jack, Hearts), Card(Num(7), Diamonds)];
            ClassifyDefined(pile) && Classify(pile) == Sandwich
            && !TestPile(pile) && TestPileIntended(pile)
  {
  }

  /** Examples: a pair, sixty-nines in both orders, a pair masking a run. */
  lemma DetectorExamples()
    ensures var pile := [Card(Num(5), Clubs), Card(Num(5), Diamonds)];
            ClassifyDefined(pile) && TestPile(pile)
    ensures var pile := [Card(Num(6), Clubs), Card(Num(9), Hearts), Card(Num(2), Spades)];
            ClassifyDefined(pile) && Classify(pile) == SixtyNine && !TestPile(pile)
    ensures var pile := [Card(Num(9), Clubs), Card(Num(6), Hearts), Card(Num(2), Spades)];
            ClassifyDefined(pile) && Classify(pile) == SixtyNine
    ensures var pile := [Card(Num(4), Clubs), Card(Num(4), Diamonds), Card(Num(5), Hearts)];
            RunDefined(pile) && !IsRun(pile)
  {
  }

  // ---------------------------------------------------------------------
  // Dealing in main

  /** How many cards `main` moves from the deck onto the pile. */
  const DealtCount := 11

  /**
   * `main`'s deal: eleven times `pile.push(deck.pop().unwrap())`. The last
   * card of the deck becomes the pile's top; nothing is lost or duplicated.
   */
  method DealEleven(shuffled: seq<Card>) returns (deck: seq<Card>, pile: seq<Card>)
    requires |shuffled| >= DealtCount
    ensures deck == shuffled[..|shuffled| - DealtCount]
    ensures |pile| == DealtCount
    ensures forall i :: 0 <= i < DealtCount ==> pile[i] == shuffled[|shuffled| - 1 - i]
    ensures multiset(deck) + multiset(pile) == multiset(shuffled)
  {
    deck, pile := shuffled, [];
    for n := 0 to DealtCount
      invariant deck == shuffled[..|shuffled| - n]
      invariant |pile| == n
      invariant forall i :: 0 <= i < n ==> pile[i] == shuffled[|shuffled| - 1 - i]
      invariant multiset(deck) + multiset(pile) == multiset(shuffled)
    {
      var top := deck[|deck| - 1];
      assert deck == deck[..|deck| - 1] + [top];
      deck := deck[..|deck| - 1];
      pile := pile + [top];
    }
  }

  /**
   * What `main` does apart from the network: given the shuffled deck (a
   * permutation of `make_deck`'s), deal eleven cards and test the pile.
   * The test never panics, and it reports a pair exactly when the last two
   * cards of the shuffled deck have the same rank.
   */
  method ServerMain(shuffled: seq<Card>) returns (deck: seq<Card>, pile: seq<Card>, shown: Combination)
    requires multiset(shuffled) == multiset(DeckInSuitOrder(ServerSuitOrder))
    ensures |shuffled| == 52 && deck == shuffled[..41]
    ensures |pile| == 11 && forall i :: 0 <= i < 11 ==> pile[i] == shuffled[51 - i]
    ensures multiset(deck) + multiset(pile) == multiset(shuffled)
    ensures ClassifyDefined(pile) && shown == Classify(pile)
    ensures shown == Pair <==> shuffled[51].SameRank(shuffled[50])
  {
    ghost var canonical := DeckInSuitOrder(ServerSuitOrder);
    assert |shuffled| == |multiset(shuffled)| == |multiset(canonical)| == 52;
    deck, pile := DealEleven(shuffled);
    forall i | 0 <= i < 3 ensures pile[i].rank.WellFormed() {
      assert pile[i] == shuffled[51 - i];
      assert pile[i] in multiset(canonical);
      DeckIsWellFormed(ServerSuitOrder, pile[i]);
    }
    WellFormedRunDefined(pile);
    shown := Classify(pile);
  }
}
