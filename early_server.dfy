/**
 * The early revision of the server: its own literal deck, the pair and
 * sandwich tests written with `split_at` and one-element slices, and a deal
 * that removes the second card of the deck eleven times. Its `Suit`, `Rank`
 * and `Card` have the same variants and the same rank-only card equality as
 * the final revision's, so the types of `Cards` are reused.
 */
module EarlyServer {
  import opened Cards
  import opened DeckLayout

  /** The order of the suit blocks in the literal deck. */
  const EarlySuitOrder: seq<Suit> := [Clubs, Spades, Diamonds, Hearts]

  /** One suit's block of the literal deck. */
  lemma LiteralBlock(s: Suit)
    ensures SuitBlock(s) == [
      Card(Num(2), s), Card(Num(3), s), Card(Num(4), s), Card(Num(5), s), Card(Num(6), s),
      Card(Num(7), s), Card(Num(8), s), Card(Num(9), s), Card(Num(10), s),
      Card(Jack, s), Card(Queen, s), Card(King, s), Card(Ace, s)]
  {
  }

  /**
   * `make_deck`: the 52 cards written out one by one. They are the blocks of
   * the four suits in the order Clubs, Spades, Diamonds, Hearts.
   */
  function MakeDeck(): (deck: seq<Card>)
    ensures deck == DeckInSuitOrder(EarlySuitOrder)
  {
    FourSuitBlocks(Clubs, Spades, Diamonds, Hearts);
    LiteralBlock(Clubs);
    LiteralBlock(Spades);
    LiteralBlock(Diamonds);
    LiteralBlock(Hearts);
    [
      Card(Num(2), Clubs), Card(Num(3), Clubs), Card(Num(4), Clubs), Card(Num(5), Clubs), Card(Num(6), Clubs),
      Card(Num(7), Clubs), Card(Num(8), Clubs), Card(Num(9), Clubs), Card(Num(10), Clubs),
      Card(Jack, Clubs), Card(Queen, Clubs), Card(King, Clubs), Card(Ace, Clubs)
    ] +
    [
      Card(Num(2), Spades), Card(Num(3), Spades), Card(Num(4), Spades), Card(Num(5), Spades), Card(Num(6), Spades),
      Card(Num(7), Spades), Card(Num(8), Spades), Card(Num(9), Spades), Card(Num(10), Spades),
      Card(Jack, Spades), Card(Queen, Spades), Card(King, Spades), Card(Ace, Spades)
    ] +
    [
      Card(Num(2), Diamonds), Card(Num(3), Diamonds), Card(Num(4), Diamonds), Card(Num(5), Diamonds), Card(Num(6), Diamonds),
      Card(Num(7), Diamonds), Card(Num(8), Diamonds), Card(Num(9), Diamonds), Card(Num(10), Diamonds),
      Card(Jack, Diamonds), Card(Queen, Diamonds), Card(King, Diamonds), Card(Ace, Diamonds)
    ] +
    [
      Card(Num(2), Hearts), Card(Num(3), Hearts), Card(Num(4), Hearts), Card(Num(5), Hearts), Card(Num(6), Hearts),
      Card(Num(7), Hearts), Card(Num(8), Hearts), Card(Num(9), Hearts), Card(Num(10), Hearts),
      Card(Jack, Hearts), Card(Queen, Hearts), Card(King, Hearts), Card(Ace, Hearts)
    ]
  }

  /**
   * The literal deck has 52 cards; every real card occurs exactly once and
   * nothing else does; each rank occurs 4 times and each suit 13 times.
   */
  lemma EarlyDeckIntegrity()
    ensures |MakeDeck()| == 52
    ensures forall c: Card :: multiset(MakeDeck())[c] == if c.rank.WellFormed() then 1 else 0
    ensures forall r: Rank :: r.WellFormed() ==> Count(MakeDeck(), OfRank(r)) == 4
    ensures forall s: Suit :: Count(MakeDeck(), OfSuit(s)) == 13
  {
    DeckIntegrity(EarlySuitOrder);
  }

  /** The literal deck's blocks of 13 are Clubs, Spades, Diamonds and Hearts, in this order. */
  lemma EarlyDeckSuitBlocks()
    ensures forall i :: 0 <= i < 52 ==> MakeDeck()[i].suit == EarlySuitOrder[i / 13]
  {
    forall i | 0 <= i < 52 ensures MakeDeck()[i].suit == EarlySuitOrder[i / 13] {
      DeckAt(EarlySuitOrder, i / 13, i % 13);
    }
  }

  /** Rust's `==` on two slices of cards: equal lengths and pairwise equal cards. */
  predicate SlicesEqual(a: seq<Card>, b: seq<Card>) {
    |a| == |b| && forall i :: 0 <= i < |a| ==> a[i].SameRank(b[i])
  }

  /**
   * `is_equal`: compares the one-element slices `left[0..1]` and
   * `right[0..1]`, so only the first card of each slice matters.
   */
  function IsEqual(left: seq<Card>, right: seq<Card>): (equal: bool)
    requires |left| >= 1 && |right| >= 1
    ensures equal <==> left[0].SameRank(right[0])
  {
    if SlicesEqual(left[0..1], right[0..1]) then true else false
  }

  /** The slices' equality compares ranks only, so a suit never matters. */
  lemma EqualityIgnoresSuit(a: Card, b: Card, s: Suit)
    ensures IsEqual([a], [b]) <==> a.rank == b.rank
    ensures IsEqual([a], [b]) == IsEqual([Card(a.rank, s)], [b])
  {
  }

  /** `slice::split_at`: the first `mid` elements and the rest. */
  function SplitAt(s: seq<Card>, mid: nat): (parts: (seq<Card>, seq<Card>))
    requires mid <= |s|
    ensures parts.0 + parts.1 == s && |parts.0| == mid
  {
    (s[..mid], s[mid..])
  }

  /** `is_pair`: split after the top card and compare the first cards of both halves. */
  function IsPair(pile: seq<Card>): (pair: bool)
    requires |pile| >= 2
    ensures pair <==> pile[0].SameRank(pile[1])
  {
    var (left, right) := SplitAt(pile, 1);
    IsEqual(left[0..1], right[0..1])
  }

  /** `is_sandwich`: split after the second card and compare the first cards of both halves. */
  function IsSandwich(pile: seq<Card>): (sandwich: bool)
    requires |pile| >= 3
    ensures sandwich <==> pile[0].SameRank(pile[2])
  {
    var (left, right) := SplitAt(pile, 2);
    IsEqual(left[0..1], right[0..1])
  }

  /**
   * `main`'s deal: eleven times `pile.push(deck.remove(1))`. Each pass takes
   * the deck's second card, so the pile gets the deck's cards 1 to 11 in
   * order and the deck keeps its first card followed by the rest.
   */
  method DealByRemove(shuffled: seq<Card>) returns (deck: seq<Card>, pile: seq<Card>)
    requires |shuffled| >= 12
    ensures pile == shuffled[1..12]
    ensures deck == [shuffled[0]] + shuffled[12..]
    ensures multiset(deck) + multiset(pile) == multiset(shuffled)
  {
    deck, pile := shuffled, [];
    for n := 0 to 11
      invariant deck == [shuffled[0]] + shuffled[n + 1..]
      invariant pile == shuffled[1..n + 1]
      invariant multiset(deck) + multiset(pile) == multiset(shuffled)
    {
      var removed := deck[1];
      assert deck == deck[..1] + [removed] + deck[2..];
      deck := deck[..1] + deck[2..];
      pile := pile + [removed];
    }
  }

  /** Which message `main` prints about the pile. */
  datatype Announcement = PairShown | SandwichShown | NothingShown

  /**
   * `main`'s classification: the pair test first, the sandwich test only
   * when there is no pair. Every branch but the pair's prints three cards.
   */
  function Announce(pile: seq<Card>): (shown: Announcement)
    requires |pile| >= 2 && (!pile[0].SameRank(pile[1]) ==> |pile| >= 3)
    ensures shown == PairShown <==> pile[0].SameRank(pile[1])
    ensures shown == SandwichShown <==> !pile[0].SameRank(pile[1]) && pile[0].SameRank(pile[2])
  {
    if IsPair(pile) then PairShown
    else if IsSandwich(pile) then SandwichShown
    else NothingShown
  }

  /**
   * What `main` does apart from printing: given the shuffled deck (a
   * permutation of `make_deck`'s), deal eleven cards and classify the pile.
   * The deck's second card is the pile's top.
   */
  method EarlyMain(shuffled: seq<Card>) returns (deck: seq<Card>, pile: seq<Card>, shown: Announcement)
    requires multiset(shuffled) == multiset(DeckInSuitOrder(EarlySuitOrder))
    ensures |shuffled| == 52
    ensures pile == shuffled[1..12] && deck == [shuffled[0]] + shuffled[12..]
    ensures multiset(deck) + multiset(pile) == multiset(shuffled)
    ensures shown == PairShown <==> shuffled[1].SameRank(shuffled[2])
    ensures shown == SandwichShown <==> !shuffled[1].SameRank(shuffled[2]) && shuffled[1].SameRank(shuffled[3])
  {
    assert |shuffled| == |multiset(shuffled)| == |multiset(DeckInSuitOrder(EarlySuitOrder))| == 52;
    deck, pile := DealByRemove(shuffled);
    shown := Announce(pile);
  }
}
