/** SlayerBot, a Brazilian-truco bot: four independent decisions, each a pure
    function of one snapshot of the game that the host engine supplies. */
module SlayerBot {
  import opened Cards
  import opened HandUtils

  /** Outcome of a finished round of the current hand, from the bot's side. */
  datatype RoundResult = Won | Lost | Drew

  /** The snapshot the host engine hands to every decision: the bot's cards in
      hand order, the vira, the card the opponent played in this round (if
      the opponent played first), the results of the finished rounds, both
      scores and the cards already shown. */
  datatype Intel = Intel(
    hand: seq<Card>,
    vira: Card,
    opponentCard: Option<Card>,
    roundResults: seq<RoundResult>,
    score: int,
    opponentScore: int,
    openCards: seq<Card>)

  predicate HasManilha(hand: seq<Card>, vira: Card) {
    exists c | c in hand :: IsManilha(c, vira)
  }

  predicate HasZap(hand: seq<Card>, vira: Card) {
    exists c | c in hand :: IsZap(c, vira)
  }

  predicate HasCopas(hand: seq<Card>, vira: Card) {
    exists c | c in hand :: IsCopas(c, vira)
  }

  predicate HasThree(hand: seq<Card>) {
    exists c | c in hand :: c.rank == Three
  }

  /** A card of rank Two or Three. These are the strongest common ranks,
      except under an Ace or a Two vira, where one of them is the manilha rank
      and its cards count here all the same. */
  predicate HasStrongCard(hand: seq<Card>) {
    exists c | c in hand :: c.rank == Two || c.rank == Three
  }

  /** Some card in hand outranks `opponent`. */
  predicate HasWinningCard(hand: seq<Card>, opponent: Card, vira: Card) {
    exists c | c in hand :: CompareValueTo(c, opponent, vira) > 0
  }

  // ---------------------------------------------------------------------
  // Mão de onze: accepting the hand played at eleven points

  /** Accept the mão de onze when holding a manilha and, besides it, either
      exactly two manilhas or a Three. Manilhas are counted with their
      multiplicity in hand. */
  function MaoDeOnzeResponse(intel: Intel): (accept: bool)
    ensures accept <==>
      HasManilha(intel.hand, intel.vira) &&
      (|Manilhas(intel.hand, intel.vira)| == 2 || HasThree(intel.hand))
  {
    var manilhas := Manilhas(intel.hand, intel.vira);
    var threes := Threes(intel.hand);
    if |manilhas| == 0 then
      assert !HasManilha(intel.hand, intel.vira) by {
        forall c | c in intel.hand ensures !IsManilha(c, intel.vira) {
          assert c !in manilhas;
        }
      }
      false
    else if |manilhas| == 2 || |threes| != 0 then
      assert manilhas[0] in manilhas;
      assert |threes| != 0 ==> threes[0] in threes;
      true
    else
      false
  }

  /** Every hand of three manilhas (the best hand there is) without a Three
      is declined: only exactly two manilhas accept without a Three. */
  lemma MaoDeOnzeDeclinesThreeManilhasWithoutThree(intel: Intel)
    requires |intel.hand| == 3 && forall c | c in intel.hand :: IsManilha(c, intel.vira)
    requires !HasThree(intel.hand)
    ensures !MaoDeOnzeResponse(intel)
  {
    assert forall k | 0 <= k < |intel.hand| :: IsManilha(intel.hand[k], intel.vira);
    assert Filter(intel.hand, c => IsManilha(c, intel.vira)) == intel.hand;
  }

  // ---------------------------------------------------------------------
  // Truco: whether to ask for a raise

  /** Either side is at eleven points: the bot never asks for truco then. */
  predicate ScoreVeto(intel: Intel) {
    intel.score == 11 || intel.opponentScore == 11
  }

  /** The hand is tied going into its third round: one round won and one
      lost, in either order. */
  function InThirdRound(rr: seq<RoundResult>): (b: bool)
    ensures b <==> rr == [Won, Lost] || rr == [Lost, Won]
  {
    |rr| == 2 && ((rr[0] == Won && rr[1] == Lost) || (rr[0] == Lost && rr[1] == Won))
  }

  /** The only input on which the decision fails: the tie-break rule reads
      the first card of an empty hand. */
  predicate RaiseDefined(intel: Intel) {
    |intel.hand| > 0 || ScoreVeto(intel) || !InThirdRound(intel.roundResults) || intel.opponentCard.None?
  }

  /** Ordered rules, the first that applies decides: the eleven-point veto;
      three manilhas; a drawn round with a manilha in hand; in the tied third
      round, a first card that beats the opponent's; with the opponent's card
      known, the zap together with a card that beats it; otherwise no. */
  function DecideIfRaises(intel: Intel): (raise: bool)
    requires RaiseDefined(intel)
    // the veto dominates every other rule
    ensures ScoreVeto(intel) ==> !raise
    // all three cards manilhas
    ensures !ScoreVeto(intel) && |intel.hand| == 3 && (forall c | c in intel.hand :: IsManilha(c, intel.vira))
      ==> raise
    // a drawn round and a manilha
    ensures !ScoreVeto(intel) && Drew in intel.roundResults && HasManilha(intel.hand, intel.vira)
      ==> raise
    // tie-break in the third round
    ensures !ScoreVeto(intel) && InThirdRound(intel.roundResults) && intel.opponentCard.Some? &&
      |intel.hand| > 0 && CompareValueTo(intel.hand[0], intel.opponentCard.value, intel.vira) > 0
      ==> raise
    // fallback with the opponent's card known
    ensures !ScoreVeto(intel) && |Manilhas(intel.hand, intel.vira)| != 3 &&
      !(Drew in intel.roundResults && HasManilha(intel.hand, intel.vira)) &&
      intel.opponentCard.Some? &&
      !(InThirdRound(intel.roundResults) && CompareValueTo(intel.hand[0], intel.opponentCard.value, intel.vira) > 0)
      ==> (raise <==> HasZap(intel.hand, intel.vira) && HasWinningCard(intel.hand, intel.opponentCard.value, intel.vira))
    // no opponent card and neither shortcut: no truco
    ensures !ScoreVeto(intel) && |Manilhas(intel.hand, intel.vira)| != 3 &&
      !(Drew in intel.roundResults && HasManilha(intel.hand, intel.vira)) &&
      intel.opponentCard.None?
      ==> !raise
    // the bot only asks for truco holding a manilha or a card that wins the round
    ensures raise ==>
      HasManilha(intel.hand, intel.vira) ||
      (intel.opponentCard.Some? && HasWinningCard(intel.hand, intel.opponentCard.value, intel.vira))
  {
    var hand, vira, rr := intel.hand, intel.vira, intel.roundResults;
    if ScoreVeto(intel) then false
    else if |Manilhas(hand, vira)| == 3 then
      assert Manilhas(hand, vira)[0] in Manilhas(hand, vira);
      true
    else if Drew in rr && HasManilha(hand, vira) then true
    else if InThirdRound(rr) && intel.opponentCard.Some? &&
      CompareValueTo(hand[0], intel.opponentCard.value, vira) > 0 then
      assert hand[0] in hand;
      true
    else if intel.opponentCard.Some? then
      HasZap(hand, vira) && HasWinningCard(hand, intel.opponentCard.value, vira)
    else
      false
  }

  /** For a hand of at most three cards, the three-manilha rule fires exactly
      when the hand is three manilhas. */
  lemma ThreeManilhasMeansWholeHand(hand: seq<Card>, vira: Card)
    requires |hand| <= 3
    ensures |Manilhas(hand, vira)| == 3 <==> |hand| == 3 && forall c | c in hand :: IsManilha(c, vira)
  {
    if |Manilhas(hand, vira)| == 3 {
      assert |Filter(hand, c => IsManilha(c, vira))| == 3;
      forall c | c in hand ensures IsManilha(c, vira) {
        var k :| 0 <= k < |hand| && hand[k] == c;
        if !IsManilha(c, vira) {
          FilterDropsFailing(hand, c => IsManilha(c, vira), k);
        }
      }
    }
    if |hand| == 3 && forall c | c in hand :: IsManilha(c, vira) {
      assert forall k | 0 <= k < |hand| :: IsManilha(hand[k], vira);
      assert Filter(hand, c => IsManilha(c, vira)) == hand;
    }
  }

  /** Before the opponent plays and with no drawn round, a hand of at most
      three cards asks for truco exactly when it is three manilhas and
      neither side is at eleven: every other rule needs the opponent's card. */
  lemma NoTrucoBeforeOpponentPlays(intel: Intel)
    requires |intel.hand| <= 3 && intel.opponentCard.None? && Drew !in intel.roundResults
    ensures DecideIfRaises(intel) <==>
      !ScoreVeto(intel) && |intel.hand| == 3 && forall c | c in intel.hand :: IsManilha(c, intel.vira)
  {
    ThreeManilhasMeansWholeHand(intel.hand, intel.vira);
  }

  // ---------------------------------------------------------------------
  // Choosing the card to play

  predicate IsStrongestIn(hand: seq<Card>, c: Card, vira: Card) {
    c in hand && forall d | d in hand :: Value(d, vira) <= Value(c, vira)
  }

  predicate IsWeakestIn(hand: seq<Card>, c: Card, vira: Card) {
    c in hand && forall d | d in hand :: Value(c, vira) <= Value(d, vira)
  }

  /** `c` sits at a position other than that of some strongest card, and is
      at least as strong as every card except that one. */
  ghost predicate IsSecondStrongestIn(hand: seq<Card>, c: Card, vira: Card) {
    exists i, j | 0 <= i < |hand| && 0 <= j < |hand| && i != j && hand[i] == c ::
      IsStrongestIn(hand, hand[j], vira) &&
      forall k | 0 <= k < |hand| && k != j :: Value(hand[k], vira) <= Value(c, vira)
  }

  /** `c` is the first manilha in hand order. */
  ghost predicate IsFirstManilhaIn(hand: seq<Card>, c: Card, vira: Card) {
    exists i | 0 <= i < |hand| && hand[i] == c ::
      IsManilha(c, vira) && forall k | 0 <= k < i :: !IsManilha(hand[k], vira)
  }

  /** A common card of the same strength as the opponent's. */
  predicate Ties(c: Card, opponent: Card, vira: Card) {
    !IsManilha(c, vira) && CompareValueTo(c, opponent, vira) == 0
  }

  /** `c` is the first card in hand order that ties the opponent's card. */
  ghost predicate IsFirstTieIn(hand: seq<Card>, c: Card, opponent: Card, vira: Card) {
    exists i | 0 <= i < |hand| && hand[i] == c ::
      Ties(c, opponent, vira) && forall k | 0 <= k < i :: !Ties(hand[k], opponent, vira)
  }

  /** `c` beats the opponent's card by the least margin of all winning cards
      in hand, and no earlier winning card has that margin. */
  ghost predicate IsLeastWinnerIn(hand: seq<Card>, c: Card, opponent: Card, vira: Card) {
    exists i | 0 <= i < |hand| && hand[i] == c ::
      CompareValueTo(c, opponent, vira) > 0 &&
      (forall k | 0 <= k < |hand| && CompareValueTo(hand[k], opponent, vira) > 0 ::
        CompareValueTo(c, opponent, vira) <= CompareValueTo(hand[k], opponent, vira)) &&
      (forall k | 0 <= k < i && CompareValueTo(hand[k], opponent, vira) > 0 ::
        CompareValueTo(c, opponent, vira) < CompareValueTo(hand[k], opponent, vira))
  }

  /** Which card to play. After a drawn round, the strongest. With the
      opponent yet to play: in the first round the second strongest, later
      the first manilha in hand order, or the strongest card without one.
      With the opponent's card on the table: the first common card that ties
      it, else the winning card of least margin, else the weakest card. */
  function ChooseCard(intel: Intel): (card: Card)
    requires |intel.hand| > 0
    requires intel.opponentCard.None? && intel.roundResults == [] ==> |intel.hand| >= 2
    ensures card in intel.hand
    ensures Drew in intel.roundResults ==> IsStrongestIn(intel.hand, card, intel.vira)
    ensures Drew !in intel.roundResults && intel.opponentCard.None? && intel.roundResults == []
      ==> IsSecondStrongestIn(intel.hand, card, intel.vira)
    ensures Drew !in intel.roundResults && intel.opponentCard.None? && intel.roundResults != []
      ==> if HasManilha(intel.hand, intel.vira)
          then IsFirstManilhaIn(intel.hand, card, intel.vira)
          else IsStrongestIn(intel.hand, card, intel.vira)
    ensures Drew !in intel.roundResults && intel.opponentCard.Some? ==>
      var o := intel.opponentCard.value;
      if exists c | c in intel.hand :: Ties(c, o, intel.vira)
      then IsFirstTieIn(intel.hand, card, o, intel.vira)
      else if HasWinningCard(intel.hand, o, intel.vira)
      then IsLeastWinnerIn(intel.hand, card, o, intel.vira)
      else IsWeakestIn(intel.hand, card, intel.vira)
  {
    var hand, vira := intel.hand, intel.vira;
    if Drew in intel.roundResults then
      Strongest(hand, vira)
    else
      match intel.opponentCard
      case None =>
        if intel.roundResults == [] then
          var strongest := Strongest(hand, vira);
          var second := SecondStrongest(hand, strongest, vira);
          var j := IndexOf(hand, strongest);
          assert IsStrongestIn(hand, hand[j], vira);
          second
        else
          (match FindFirst(hand, c => IsZap(c, vira) || IsCopas(c, vira) || IsEspadilha(c, vira) || IsOuros(c, vira))
           case Some(i) => hand[i]
           case None => Strongest(hand, vira))
      case Some(o) =>
        match FindFirst(hand, c => Ties(c, o, vira))
        case Some(i) => hand[i]
        case None =>
          match FirstMin(hand, c => CompareValueTo(c, o, vira) > 0, c => CompareValueTo(c, o, vira))
          case Some(i) => hand[i]
          case None => Weakest(hand, vira)
  }

  /** In the first round, with the opponent yet to play, a card strictly
      stronger than all others stays in hand. */
  lemma FirstRoundKeepsTheBestCard(intel: Intel, m: nat)
    requires intel.opponentCard.None? && intel.roundResults == [] && |intel.hand| >= 2
    requires m < |intel.hand|
    requires forall k | 0 <= k < |intel.hand| && k != m :: Value(intel.hand[k], intel.vira) < Value(intel.hand[m], intel.vira)
    ensures Value(ChooseCard(intel), intel.vira) < Value(intel.hand[m], intel.vira)
  {
  }

  /** With the opponent's card on the table, the bot never loses a round it
      could win: whenever some card beats the opponent's, the card played
      wins or ties. */
  lemma NeverLosesAWinnableRound(intel: Intel, o: Card)
    requires |intel.hand| > 0 && intel.opponentCard == Some(o) && Drew !in intel.roundResults
    requires HasWinningCard(intel.hand, o, intel.vira)
    ensures CompareValueTo(ChooseCard(intel), o, intel.vira) >= 0
  {
  }

  // ---------------------------------------------------------------------
  // Answering the opponent's truco

  /** -1 runs, 0 accepts, 1 raises again. Ordered rules: copas with a Two or
      a Three accepts; copas with the zap raises; the zap with a Two or a
      Three accepts; anything else runs. */
  function GetRaiseResponse(intel: Intel): (r: int)
    ensures r in {-1, 0, 1}
    ensures r == 1 <==>
      HasCopas(intel.hand, intel.vira) && HasZap(intel.hand, intel.vira) && !HasStrongCard(intel.hand)
    ensures r == 0 <==>
      HasStrongCard(intel.hand) && (HasCopas(intel.hand, intel.vira) || HasZap(intel.hand, intel.vira))
    ensures !HasZap(intel.hand, intel.vira) && !HasCopas(intel.hand, intel.vira) ==> r == -1
  {
    var hasZap := HasZap(intel.hand, intel.vira);
    var hasCopas := HasCopas(intel.hand, intel.vira);
    var hasStrongCards := HasStrongCard(intel.hand);
    if hasCopas && hasStrongCards then 0
    else if hasCopas && hasZap then 1
    else if hasZap && hasStrongCards then 0
    else -1
  }

  /** Under a Two of clubs the zap and the copas are the Threes of clubs and
      hearts. Holding both (the casal maior) with a Seven accepts and does not
      raise again: the copas is itself a Three, so the copas-with-a-strong-card
      rule, which comes first, decides. */
  lemma CasalMaiorWithAThreeOnlyAccepts()
    ensures GetRaiseResponse(Intel(
      [Card(Three, Clubs), Card(Three, Hearts), Card(Seven, Spades)], Card(Two, Clubs),
      None, [], 0, 0, [Card(Ace, Diamonds)])) == 0
  {
    var hand := [Card(Three, Clubs), Card(Three, Hearts), Card(Seven, Spades)];
    assert hand[1] in hand;
  }

  /** Under an Ace or a Two vira the manilhas are Twos or Threes, so the
      copas is itself a strong card and the answer is never a raise. */
  lemma NoReRaiseUnderAceOrTwoVira(intel: Intel)
    requires intel.vira.rank == Ace || intel.vira.rank == Two
    ensures GetRaiseResponse(intel) != 1
  {
    if HasCopas(intel.hand, intel.vira) {
      var c :| c in intel.hand && IsCopas(c, intel.vira);
      assert c.rank == Two || c.rank == Three;
    }
  }
}
