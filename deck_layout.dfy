/**
 * The layout both revisions of `make_deck` give the 52-card deck: one block
 * of 13 cards per suit, the suits one after another, and inside each block
 * the ranks Num 2..10, Jack, Queen, King, Ace. The revisions differ only in
 * the order of the suits. The lemmas here prove the deck's integrity for
 * any order of the four suits.
 */
module DeckLayout {
  import opened Cards

  /** The rank at position `k` of a suit block. */
  function RankAt(k: nat): (r: Rank)
    requires k < 13
    ensures r.WellFormed()
    ensures r.Value() == if k < 12 then k + 2 else 1
  {
    if k < 9 then Num(k + 2)
    else if k == 9 then Jack
    else if k == 10 then Queen
    else if k == 11 then King
    else Ace
  }

  /** The position of a real rank in a suit block; the inverse of `RankAt`. */
  function RankIndex(r: Rank): (k: nat)
    requires r.WellFormed()
    ensures k < 13 && RankAt(k) == r
  {
    match r
    case Num(n) => n - 2
    case Jack => 9
    case Queen => 10
    case King => 11
    case Ace => 12
  }

  /** Different positions of a suit block hold different ranks. */
  lemma RankAtInjective(j: nat, k: nat)
    requires j < 13 && k < 13 && j != k
    ensures RankAt(j) != RankAt(k)
  {
  }

  /** The 13 cards of one suit, in rank order. */
  function SuitBlock(suit: Suit): (block: seq<Card>)
    ensures |block| == 13
  {
    seq(13, k requires 0 <= k < 13 => Card(RankAt(k), suit))
  }

  /** The deck built suit block by suit block, in the order `suits` lists them. */
  function DeckInSuitOrder(suits: seq<Suit>): (deck: seq<Card>)
    ensures |deck| == 13 * |suits|
  {
    if suits == [] then []
    else DeckInSuitOrder(suits[..|suits| - 1]) + SuitBlock(suits[|suits| - 1])
  }

  /** A deck of four suits is their four blocks one after another. */
  lemma FourSuitBlocks(a: Suit, b: Suit, c: Suit, d: Suit)
    ensures DeckInSuitOrder([a, b, c, d]) ==
              SuitBlock(a) + SuitBlock(b) + SuitBlock(c) + SuitBlock(d)
  {
    assert [a, b, c, d][..3] == [a, b, c];
    assert [a, b, c][..2] == [a, b];
    assert [a, b][..1] == [a];
    assert [a][..0] == [];
    calc {
      DeckInSuitOrder([a, b, c, d]);
      DeckInSuitOrder([a, b, c]) + SuitBlock(d);
      DeckInSuitOrder([a, b]) + SuitBlock(c) + SuitBlock(d);
      DeckInSuitOrder([a]) + SuitBlock(b) + SuitBlock(c) + SuitBlock(d);
      SuitBlock(a) + SuitBlock(b) + SuitBlock(c) + SuitBlock(d);
    }
  }

  /** The four suits, each exactly once, in some order. */
  predicate IsSuitOrder(suits: seq<Suit>) {
    multiset(suits) == multiset{Hearts, Diamonds, Spades, Clubs}
  }

  /** What a count of cards can select on: a rank (rank-only card equality) or a suit. */
  datatype Criterion = OfRank(rank: Rank) | OfSuit(suit: Suit)

  predicate Meets(c: Card, k: Criterion) {
    match k
    case OfRank(r) => c.rank == r
    case OfSuit(s) => c.suit == s
  }

  /** The number of cards in `cards` that meet `k`. */
  function Count(cards: seq<Card>, k: Criterion): (n: nat)
    ensures n <= |cards|
  {
    if cards == [] then 0
    else (if Meets(cards[0], k) then 1 else 0) + Count(cards[1..], k)
  }

  lemma {:induction false} CountConcat(a: seq<Card>, b: seq<Card>, k: Criterion)
    ensures Count(a + b, k) == Count(a, k) + Count(b, k)
  {
    if a == [] {
      assert a + b == b;
    } else {
      assert (a + b)[0] == a[0];
      assert (a + b)[1..] == a[1..] + b;
      CountConcat(a[1..], b, k);
    }
  }

  lemma {:induction false} CountNone(a: seq<Card>, k: Criterion)
    requires forall i :: 0 <= i < |a| ==> !Meets(a[i], k)
    ensures Count(a, k) == 0
  {
    if a != [] {
      CountNone(a[1..], k);
    }
  }

  lemma {:induction false} CountAll(a: seq<Card>, k: Criterion)
    requires forall i :: 0 <= i < |a| ==> Meets(a[i], k)
    ensures Count(a, k) == |a|
  {
    if a != [] {
      CountAll(a[1..], k);
    }
  }

  /** Entry `13 * s + k` of the deck is the card of rank `RankAt(k)` in the `s`-th suit. */
  lemma {:induction false} DeckAt(suits: seq<Suit>, s: nat, k: nat)
    requires s < |suits| && k < 13
    ensures 13 * s + k < |DeckInSuitOrder(suits)|
    ensures DeckInSuitOrder(suits)[13 * s + k] == Card(RankAt(k), suits[s])
  {
    var n := |suits| - 1;
    if s < n {
      DeckAt(suits[..n], s, k);
    }
  }

  /** A suit block holds each real rank of its suit once and nothing else. */
  lemma BlockMultiplicity(t: Suit, c: Card)
    ensures multiset(SuitBlock(t))[c] == if c.rank.WellFormed() && c.suit == t then 1 else 0
  {
    var block := SuitBlock(t);
    if c.rank.WellFormed() && c.suit == t {
      var k := RankIndex(c.rank);
      assert block == block[..k] + [c] + block[k + 1..];
      assert c !in block[..k] by {
        forall j | 0 <= j < k ensures block[..k][j] != c {
          assert block[..k][j] == Card(RankAt(j), t);
          RankAtInjective(j, k);
        }
      }
      var after := block[k + 1..];
      assert c !in after by {
        forall j | 0 <= j < |after| ensures after[j] != c {
          assert after[j] == Card(RankAt(k + 1 + j), t);
          RankAtInjective(k + 1 + j, k);
        }
      }
    } else {
      assert c !in block;
    }
  }

  /** A suit block holds one card of each real rank, and 13 cards of its own suit. */
  lemma BlockCount(t: Suit, k: Criterion)
    ensures Count(SuitBlock(t), k) ==
              match k
              case OfRank(r) => if r.WellFormed() then 1 else 0
              case OfSuit(s) => if s == t then 13 else 0
  {
    var block := SuitBlock(t);
    match k
    case OfRank(r) =>
      if r.WellFormed() {
        var i := RankIndex(r);
        assert block == block[..i] + [block[i]] + block[i + 1..];
        forall j | 0 <= j < i ensures !Meets(block[..i][j], k) {
          assert block[..i][j] == Card(RankAt(j), t);
          RankAtInjective(j, i);
        }
        var after := block[i + 1..];
        forall j | 0 <= j < |after| ensures !Meets(after[j], k) {
          assert after[j] == Card(RankAt(i + 1 + j), t);
          RankAtInjective(i + 1 + j, i);
        }
        CountNone(block[..i], k);
        CountNone(block[i + 1..], k);
        CountConcat(block[..i] + [block[i]], block[i + 1..], k);
        CountConcat(block[..i], [block[i]], k);
      } else {
        CountNone(block, k);
      }
    case OfSuit(s) =>
      if s == t {
        CountAll(block, k);
      } else {
        CountNone(block, k);
      }
  }

  /**
   * How often a card occurs in the deck: a real card once per listing of its
   * suit, any other card never.
   */
  lemma {:induction false} DeckMultiplicity(suits: seq<Suit>, c: Card)
    ensures multiset(DeckInSuitOrder(suits))[c] ==
              if c.rank.WellFormed() then multiset(suits)[c.suit] else 0
  {
    if suits != [] {
      var n := |suits| - 1;
      assert suits == suits[..n] + [suits[n]];
      DeckMultiplicity(suits[..n], c);
      BlockMultiplicity(suits[n], c);
    }
  }

  /** How many cards of a rank, and of a suit, the deck holds. */
  lemma {:induction false} DeckCount(suits: seq<Suit>, k: Criterion)
    ensures Count(DeckInSuitOrder(suits), k) ==
              match k
              case OfRank(r) => if r.WellFormed() then |suits| else 0
              case OfSuit(s) => 13 * multiset(suits)[s]
  {
    if suits != [] {
      var n := |suits| - 1;
      assert suits == suits[..n] + [suits[n]];
      DeckCount(suits[..n], k);
      BlockCount(suits[n], k);
      CountConcat(DeckInSuitOrder(suits[..n]), SuitBlock(suits[n]), k);
    }
  }

  /**
   * Deck integrity, for any order of the four suits: 52 cards, every rank of
   * every suit exactly once and no other card, no two entries alike in both
   * rank and suit, 4 cards of each rank and 13 of each suit.
   */
  lemma DeckIntegrity(suits: seq<Suit>)
    requires IsSuitOrder(suits)
    ensures |DeckInSuitOrder(suits)| == 52
    ensures forall c: Card :: multiset(DeckInSuitOrder(suits))[c] ==
              if c.rank.WellFormed() then 1 else 0
    ensures forall i, j :: 0 <= i < j < 52 ==>
              DeckInSuitOrder(suits)[i] != DeckInSuitOrder(suits)[j]
    ensures forall r: Rank :: r.WellFormed() ==> Count(DeckInSuitOrder(suits), OfRank(r)) == 4
    ensures forall s: Suit :: Count(DeckInSuitOrder(suits), OfSuit(s)) == 13
  {
    var deck := DeckInSuitOrder(suits);
    assert |suits| == |multiset(suits)| == 4;
    forall c: Card ensures multiset(deck)[c] == if c.rank.WellFormed() then 1 else 0 {
      DeckMultiplicity(suits, c);
      match c.suit
      case Hearts => case Diamonds => case Spades => case Clubs =>
    }
    forall i, j | 0 <= i < j < 52 ensures deck[i] != deck[j] {
      // deck[i] occurs before position j and deck[j] from j on, so if they
      // were the same card its multiplicity would be at least 2
      assert deck == deck[..j] + deck[j..];
      assert deck[i] in deck[..j] && deck[j] in deck[j..];
    }
    forall r: Rank | r.WellFormed() ensures Count(deck, OfRank(r)) == 4 {
      DeckCount(suits, OfRank(r));
    }
    forall s: Suit ensures Count(deck, OfSuit(s)) == 13 {
      DeckCount(suits, OfSuit(s));
    }
  }

  /** Every card of a deck laid out this way is a real card. */
  lemma DeckIsWellFormed(suits: seq<Suit>, c: Card)
    requires c in DeckInSuitOrder(suits)
    ensures c.rank.WellFormed()
  {
    DeckMultiplicity(suits, c);
  }
}
