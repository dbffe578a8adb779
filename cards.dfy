/** The card model the bot consumes: ranks, suits, the turned-up card (vira)
    and the strength of a card under a given vira. The host engine's card type
    is not part of this model; this module gives it the game's rules: the rank
    after the vira's (cyclically) is the manilha rank, manilhas outrank every
    other card and are ordered among themselves by suit (ouros < espadilha <
    copas < zap), and the other cards keep the ordinary rank order. */
module Cards {

  /** Ranks in ordinary strength order, weakest first. */
  datatype Rank = Four | Five | Six | Seven | Queen | Jack | King | Ace | Two | Three

  /** Suits in manilha strength order, weakest first. */
  datatype Suit = Diamonds | Spades | Hearts | Clubs

  datatype Card = Card(rank: Rank, suit: Suit)

  /** Position of a rank in the ordinary order: Four is 0, Three is 9. */
  function RankStrength(r: Rank): (n: nat)
    ensures n < 10
  {
    match r
    case Four => 0
    case Five => 1
    case Six => 2
    case Seven => 3
    case Queen => 4
    case Jack => 5
    case King => 6
    case Ace => 7
    case Two => 8
    case Three => 9
  }

  /** Position of a suit among manilhas: ouros is 0, zap (clubs) is 3. */
  function SuitStrength(s: Suit): (n: nat)
    ensures n < 4
  {
    match s
    case Diamonds => 0
    case Spades => 1
    case Hearts => 2
    case Clubs => 3
  }

  /** The rank that follows `r`, wrapping from Three back to Four: turning up
      a card of rank `r` makes this rank the manilha. */
  function NextRank(r: Rank): (n: Rank)
    ensures RankStrength(n) == (RankStrength(r) + 1) % 10
  {
    match r
    case Four => Five
    case Five => Six
    case Six => Seven
    case Seven => Queen
    case Queen => Jack
    case Jack => King
    case King => Ace
    case Ace => Two
    case Two => Three
    case Three => Four
  }

  /** Strength of a card under `vira`: the manilhas take 10 (ouros) to 13
      (zap) by suit, every other card its rank position, 0 (Four) to 9
      (Three), whatever its suit. */
  function Value(c: Card, vira: Card): (v: int)
    ensures 0 <= v < 14
  {
    if c.rank == NextRank(vira.rank) then 10 + SuitStrength(c.suit) else RankStrength(c.rank)
  }

  /** The zap, the manilha of clubs: the one card of top strength. */
  function IsZap(c: Card, vira: Card): (b: bool)
    ensures b <==> Value(c, vira) == 13
  {
    c.rank == NextRank(vira.rank) && c.suit == Clubs
  }

  /** The copas, the manilha of hearts: the one card of second strength. */
  function IsCopas(c: Card, vira: Card): (b: bool)
    ensures b <==> Value(c, vira) == 12
  {
    c.rank == NextRank(vira.rank) && c.suit == Hearts
  }

  /** The espadilha, the manilha of spades: the one card of third strength. */
  function IsEspadilha(c: Card, vira: Card): (b: bool)
    ensures b <==> Value(c, vira) == 11
  {
    c.rank == NextRank(vira.rank) && c.suit == Spades
  }

  /** The ouros, the manilha of diamonds: the weakest manilha. */
  function IsOuros(c: Card, vira: Card): (b: bool)
    ensures b <==> Value(c, vira) == 10
  {
    c.rank == NextRank(vira.rank) && c.suit == Diamonds
  }

  /** A manilha is a card of the rank after the vira's; it is exactly one of
      zap, copas, espadilha and ouros, and it outranks every other card. */
  function IsManilha(c: Card, vira: Card): (b: bool)
    ensures b <==> IsZap(c, vira) || IsCopas(c, vira) || IsEspadilha(c, vira) || IsOuros(c, vira)
    ensures b <==> Value(c, vira) >= 10
  {
    c.rank == NextRank(vira.rank)
  }

  /** Comparison of two cards under `vira`: positive when `a` outranks `b`,
      zero when they are of equal strength, negative when `b` outranks `a`. */
  function CompareValueTo(a: Card, b: Card, vira: Card): (d: int)
    ensures d > 0 <==> Value(a, vira) > Value(b, vira)
    ensures d == 0 <==> Value(a, vira) == Value(b, vira)
    ensures d < 0 <==> Value(a, vira) < Value(b, vira)
  {
    Value(a, vira) - Value(b, vira)
  }

  /** Swapping the two cards negates the comparison. */
  lemma CompareIsAntisymmetric(a: Card, b: Card, vira: Card)
    ensures CompareValueTo(a, b, vira) == -CompareValueTo(b, a, vira)
  {
  }

  /** The order of strength under a vira: manilhas by suit (ouros below
      espadilha below copas below zap), every manilha above every other card,
      and the other cards by rank alone, so two of the same rank tie. */
  lemma StrengthOrder(a: Card, b: Card, vira: Card)
    ensures IsManilha(a, vira) && IsManilha(b, vira) ==>
      (CompareValueTo(a, b, vira) < 0 <==> SuitStrength(a.suit) < SuitStrength(b.suit))
    ensures IsManilha(a, vira) && !IsManilha(b, vira) ==> CompareValueTo(a, b, vira) > 0
    ensures !IsManilha(a, vira) && !IsManilha(b, vira) ==>
      (CompareValueTo(a, b, vira) < 0 <==> RankStrength(a.rank) < RankStrength(b.rank)) &&
      (CompareValueTo(a, b, vira) == 0 <==> a.rank == b.rank)
  {
  }

  /** The zap outranks every other card. */
  lemma ZapIsStrongest(z: Card, c: Card, vira: Card)
    requires IsZap(z, vira) && c != z
    ensures CompareValueTo(z, c, vira) > 0
  {
  }

  /** Two manilhas never tie: equal strength among manilhas means the same card. */
  lemma ManilhasNeverTie(a: Card, b: Card, vira: Card)
    requires IsManilha(a, vira) && IsManilha(b, vira)
    requires CompareValueTo(a, b, vira) == 0
    ensures a == b
  {
  }

  /** A card ties a manilha only if it is that very manilha, so a common card
      never ties a manilha. */
  lemma CommonCardNeverTiesManilha(c: Card, m: Card, vira: Card)
    requires IsManilha(m, vira) && !IsManilha(c, vira)
    ensures CompareValueTo(c, m, vira) < 0
  {
  }
}
