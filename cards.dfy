/**
 * The card model of the game: suits, ranks with their numeric value, and the
 * two equalities the combination tests use (card against card by rank only,
 * card against a bare number by rank value).
 */
module Cards {

  /** Rust's `u32`. */
  type u32 = x: int | 0 <= x < 0x1_0000_0000

  datatype Suit = Hearts | Diamonds | Spades | Clubs

  /**
   * A rank. `Num` carries any `u32`, so the type admits ranks no real card
   * has (`Num(0)`, `Num(11)`, ...); equality is structural, so `Num(11)` and
   * `Jack` are different ranks even though both are worth 11.
   */
  datatype Rank = Num(n: u32) | Jack | Queen | King | Ace
  {
    /** The ranks of real cards: `Num(2)` to `Num(10)` and the four faces. */
    predicate WellFormed() {
      Num? ==> 2 <= n <= 10
    }

    /**
     * The numeric value of a rank. The ace is worth 1 and nothing else:
     * there is no high ace anywhere in the program.
     */
    function Value(): (v: u32)
      ensures WellFormed() ==> 1 <= v <= 13
      ensures WellFormed() ==> (v == 1 <==> this == Ace)
      ensures v == 6 <==> this == Num(6)
      ensures v == 9 <==> this == Num(9)
    {
      match this
      case Num(n) => n
      case Jack => 11
      case Queen => 12
      case King => 13
      case Ace => 1
    }
  }

  /** The well-formed rank worth `v`; used as the inverse of `Value`. */
  function RankOfValue(v: int): (r: Rank)
    requires 1 <= v <= 13
    ensures r.WellFormed() && r.Value() == v
  {
    if v == 1 then Ace
    else if v <= 10 then Num(v)
    else if v == 11 then Jack
    else if v == 12 then Queen
    else King
  }

  datatype Card = Card(rank: Rank, suit: Suit)
  {
    /**
     * `Card == Card`: compares the ranks and ignores the suits. Two cards
     * are equal exactly when they become the same card once the other
     * card is given this card's suit.
     */
    function SameRank(other: Card): (same: bool)
      ensures same <==> Card(other.rank, suit) == this
    {
      rank == other.rank
    }

    /**
     * `Card == u32`: compares the rank's value with the number. A real card
     * equals exactly one number, the one in 1..13 that stands for its rank.
     */
    function EqValue(number: u32): (eq: bool)
      ensures rank.WellFormed() && !(1 <= number <= 13) ==> !eq
      ensures rank.WellFormed() && 1 <= number <= 13 ==>
                (eq <==> rank == RankOfValue(number))
    {
      rank.Value() == number
    }
  }

  /**
   * On real cards `Value` is one-to-one; with `RankOfValue`, which reaches
   * every number in 1..13, it is a bijection between the 13 ranks and 1..13.
   */
  lemma ValueIsInjective(a: Rank, b: Rank)
    requires a.WellFormed() && b.WellFormed()
    ensures a.Value() == b.Value() <==> a == b
    ensures a == RankOfValue(a.Value())
  {
  }

  /** Card equality is an equivalence relation, and suits never matter to it. */
  lemma SameRankIsEquivalence(a: Card, b: Card, c: Card, s: Suit)
    ensures a.SameRank(a)
    ensures a.SameRank(b) <==> b.SameRank(a)
    ensures a.SameRank(b) && b.SameRank(c) ==> a.SameRank(c)
    ensures a.SameRank(b) <==> Card(a.rank, s).SameRank(b)
  {
  }

  /**
   * Rank equality is structural: a `Num(11)` card and a Jack are not equal
   * although both are worth 11. Equal cards always equal each other's
   * value, and on real cards the converse holds too.
   */
  lemma RankEqualityIsStructural(a: Card, b: Card)
    ensures Card(Num(11), a.suit).EqValue(Jack.Value())
    ensures !Card(Num(11), a.suit).SameRank(Card(Jack, b.suit))
    ensures a.SameRank(b) ==> a.EqValue(b.rank.Value()) && b.EqValue(a.rank.Value())
    ensures a.rank.WellFormed() && b.rank.WellFormed() ==>
              (a.SameRank(b) <==> a.EqValue(b.rank.Value()))
  {
  }

  /** An ace equals 1 and no other number; in particular it is never 14. */
  lemma AceEqualsOne(c: Card, number: u32)
    requires c.rank == Ace
    ensures c.EqValue(number) <==> number == 1
  {
  }
}
