# SlayerBot — a Dafny model of a Brazilian-truco decision policy

SlayerBot is a bot for Brazilian truco. It plugs into a host game engine. For each decision the engine gives it a snapshot of the game (`GameIntel`). The snapshot holds the bot's cards in hand order, the turned-up card (vira), the card the opponent played this round if there is one, the results of the rounds already played, both scores and the open cards. The bot has four decisions, and each is a pure function of that snapshot:

- `getMaoDeOnzeResponse`: whether to accept the hand played at eleven points (mão de onze);
- `decideIfRaises`: whether to call truco, decided by ordered rules where the first that applies wins;
- `chooseCard`: which card of the hand to play;
- `getRaiseResponse`: how to answer the opponent's truco: -1 runs, 0 accepts, 1 raises again.

The model has three modules:

- `Cards` (`cards.dfy`) is the card model the bot consumes. It defines ranks, suits and cards. A manilha is a card of the rank after the vira's rank, wrapping from Three to Four. The manilhas are zap (clubs), copas (hearts), espadilha (spades) and ouros (diamonds). A card's strength under a vira puts every manilha above every other card. The comparison of two cards is the difference of their strengths.
- `HandUtils` (`hand_utils.dfy`) holds the stream operations the bot uses: filter, `findFirst`, and `min` by an integer key, which keeps the first of several equal minima as Java's `Stream.min` does. It also holds the helpers of the bot's utility class: the manilhas in hand, the Threes in hand, and the strongest, second strongest and weakest card.
- `SlayerBot` (`slayer_bot.dfy`) holds the snapshot as a datatype (`Intel`), the four decisions as functions, and lemmas about them.

Every decision is stated against a declarative description. `GetRaiseResponse` is an ordered chain, and its contract is the flat table it amounts to. `ChooseCard` computes through searches and minima. Its contract says which card comes out in each situation, using predicates over hand positions: strongest, second strongest, first manilha, first tying card, least winning card, weakest.

Some points where the code behaves differently from how the bot is usually described, or from its own comments. The model follows the code:

- Every hand of three manilhas without a Three declines the mão de onze. Only exactly two manilhas accept without a Three (`MaoDeOnzeDeclinesThreeManilhasWithoutThree`).
- Take a Two of clubs as vira and a hand of Three of clubs, Three of hearts and Seven of spades. The two Threes are then the zap and the copas, the two strongest manilhas (casal maior). The answer to truco is 0 (accept), not 1. The copas is itself a Three, so the rule "copas with a Two or a Three" fires, and it comes first in the chain (`CasalMaiorWithAThreeOnlyAccepts`). More generally, under an Ace or a Two vira the copas is a Two or a Three, so the answer is never 1 (`NoReRaiseUnderAceOrTwoVira`).
- Before the opponent plays, with no drawn round, the bot calls truco only with three manilhas. For example, under a King of spades, holding the Ace of spades and the Two of clubs after one won round, it does not call. Only the three-manilha and draw-with-manilha shortcuts (`SlayerBot.java:51-63`) can fire without the opponent's card. The remaining rules (`SlayerBot.java:73-93`) need it (`NoTrucoBeforeOpponentPlays`).
- `chooseCard` plays the strongest card after a drawn round anywhere in the history, not only after a draw in the latest round.
- `decideIfRaises` checks for a draw anywhere in the history as well. The variable name `hasTiedInFirstRound` and the comment at `SlayerBot.java:60` ("the previous round") speak of a single round.
- The comment at `SlayerBot.java:111` says the second strongest card is played in the first round or after losing the first round. The code plays it only when no round has been played yet (`SlayerBot.java:112`). After a lost round it plays the first manilha or the strongest card.
- In later rounds, with the opponent yet to play, `chooseCard` plays the first manilha in hand order. The comment at `SlayerBot.java:118` speaks of playing the best manilha first, but the code does not pick the strongest one.

## Model

| member | source | states |
|---|---|---|
| `Cards.IsManilha` | bot-impl/src/main/java/com/garcia/orlandi/slayerbot/SlayerBot.java:119 | a card is a manilha exactly when it is the zap, the copas, the espadilha or the ouros, the four tests the card search applies; the manilhas are exactly the cards of strength 10 or more |
| `Cards.Value` | bot-impl/src/main/java/com/garcia/orlandi/slayerbot/SlayerBot.java:77 | a card's strength lies in 0..13 |
| `Cards.IsZap` | bot-impl/src/main/java/com/garcia/orlandi/slayerbot/SlayerBot.java:86 | the zap (the manilha of clubs) is exactly the card of strength 13, the top one |
| `Cards.IsCopas` | bot-impl/src/main/java/com/garcia/orlandi/slayerbot/SlayerBot.java:155 | the copas (the manilha of hearts) is exactly the card of strength 12 |
| `Cards.IsEspadilha` | bot-impl/src/main/java/com/garcia/orlandi/slayerbot/SlayerBot.java:119 | the espadilha (the manilha of spades) is exactly the card of strength 11 |
| `Cards.IsOuros` | bot-impl/src/main/java/com/garcia/orlandi/slayerbot/SlayerBot.java:119 | the ouros (the manilha of diamonds) is exactly the card of strength 10, the weakest manilha |
| `Cards.CompareValueTo` | bot-impl/src/main/java/com/garcia/orlandi/slayerbot/SlayerBot.java:138-140 | the comparison is positive, zero or negative exactly as the first card is stronger than, as strong as, or weaker than the second |
| `Cards.CompareIsAntisymmetric` | bot-impl/src/main/java/com/garcia/orlandi/slayerbot/SlayerBot.java:89 | swapping the two cards negates the comparison |
| `Cards.StrengthOrder` | bot-impl/src/main/java/com/garcia/orlandi/slayerbot/SlayerBot.java:77 | manilhas rank by suit, ouros < espadilha < copas < zap; every manilha outranks every common card; common cards rank by rank alone, and two of the same rank tie |
| `Cards.ZapIsStrongest` | bot-impl/src/main/java/com/garcia/orlandi/slayerbot/SlayerBot.java:85-92 | the zap outranks every other card |
| `Cards.ManilhasNeverTie` | bot-impl/src/main/java/com/garcia/orlandi/slayerbot/SlayerBot.java:129 | two manilhas of equal strength are the same card |
| `Cards.CommonCardNeverTiesManilha` | bot-impl/src/main/java/com/garcia/orlandi/slayerbot/SlayerBot.java:129 | a common card always loses to a manilha, so a tie is only ever between common cards |
| `HandUtils.Filter` | bot-impl/src/main/java/com/garcia/orlandi/slayerbot/SlayerBot.java:47-49 | the filtered list holds each passing card as often as the hand does and no failing card; it is the whole hand when every card passes |
| `HandUtils.FilterDropsFailing` | bot-impl/src/main/java/com/garcia/orlandi/slayerbot/SlayerBot.java:47-51 | one failing card makes the filtered list strictly shorter than the hand |
| `HandUtils.FindFirst` | bot-impl/src/main/java/com/garcia/orlandi/slayerbot/SlayerBot.java:128-131 | finds nothing exactly when no card passes; otherwise the position found passes and no earlier one does |
| `HandUtils.FirstMin` | bot-impl/src/main/java/com/garcia/orlandi/slayerbot/SlayerBot.java:138-141 | empty exactly when no card passes; otherwise a passing card whose key is no larger than that of any passing card, and strictly smaller than the keys of earlier passing cards |
| `HandUtils.Manilhas` | bot-impl/src/main/java/com/garcia/orlandi/slayerbot/SlayerBot.java:23 | the manilhas of the hand, each as often as it is in hand, and nothing else |
| `HandUtils.Threes` | bot-impl/src/main/java/com/garcia/orlandi/slayerbot/SlayerBot.java:24 | holds exactly the cards of rank Three in the hand |
| `HandUtils.Strongest` | bot-impl/src/main/java/com/garcia/orlandi/slayerbot/SlayerBot.java:106 | a card of the hand at least as strong as every card of the hand |
| `HandUtils.SecondStrongest` | bot-impl/src/main/java/com/garcia/orlandi/slayerbot/SlayerBot.java:113-114 | a card at a position other than the strongest card's, at least as strong as every card except the strongest |
| `HandUtils.Weakest` | bot-impl/src/main/java/com/garcia/orlandi/slayerbot/SlayerBot.java:141 | a card of the hand no stronger than any card of the hand |
| `SlayerBot.MaoDeOnzeResponse` | bot-impl/src/main/java/com/garcia/orlandi/slayerbot/SlayerBot.java:19-33 | accepts exactly when the hand has a manilha and either exactly two manilhas or a Three; no manilha declines |
| `SlayerBot.MaoDeOnzeDeclinesThreeManilhasWithoutThree` | bot-impl/src/main/java/com/garcia/orlandi/slayerbot/SlayerBot.java:26-32 | every hand of three manilhas and no Three declines the mão de onze |
| `SlayerBot.InThirdRound` | bot-impl/src/main/java/com/garcia/orlandi/slayerbot/SlayerBot.java:66-69 | the hand is tied into its third round exactly when the history is [WON, LOST] or [LOST, WON] |
| `SlayerBot.DecideIfRaises` | bot-impl/src/main/java/com/garcia/orlandi/slayerbot/SlayerBot.java:36-95 | never raises at eleven points, whatever else holds; otherwise raises with three manilhas, and raises after a draw with a manilha; in the tied third round it raises when the first card beats the opponent's card; failing those, with the opponent's card known it raises exactly when holding the zap and a card that beats it, and without it never; a raise always comes with a manilha or a card that wins the round |
| `SlayerBot.ThreeManilhasMeansWholeHand` | bot-impl/src/main/java/com/garcia/orlandi/slayerbot/SlayerBot.java:47-53 | for a hand of at most three cards, the three-manilha rule fires exactly when all three cards are manilhas |
| `SlayerBot.NoTrucoBeforeOpponentPlays` | bot-impl/src/main/java/com/garcia/orlandi/slayerbot/SlayerBot.java:43-94 | with no opponent card and no drawn round, a hand of at most three cards calls truco exactly when it is three manilhas and neither side is at eleven |
| `SlayerBot.ChooseCard` | bot-impl/src/main/java/com/garcia/orlandi/slayerbot/SlayerBot.java:98-145 | the card is in hand. After a draw it is a strongest card. In the first round, with the opponent yet to play, it is the second strongest. In later rounds it is the first manilha in hand order, or a strongest card without one. With the opponent's card known it is the first common card that ties it; otherwise the winning card of least margin (the first of equals); otherwise the weakest card |
| `SlayerBot.FirstRoundKeepsTheBestCard` | bot-impl/src/main/java/com/garcia/orlandi/slayerbot/SlayerBot.java:110-115 | in the first round, with the opponent yet to play, a card strictly stronger than all others is not played |
| `SlayerBot.NeverLosesAWinnableRound` | bot-impl/src/main/java/com/garcia/orlandi/slayerbot/SlayerBot.java:126-143 | with the opponent's card known and no draw, if some card beats it then the card played ties or beats it |
| `SlayerBot.GetRaiseResponse` | bot-impl/src/main/java/com/garcia/orlandi/slayerbot/SlayerBot.java:148-167 | the answer is -1, 0 or 1. It is 1 exactly with copas and zap and no Two or Three. It is 0 exactly with a Two or Three and copas or zap. It is -1 whenever the hand holds neither zap nor copas |
| `SlayerBot.CasalMaiorWithAThreeOnlyAccepts` | bot-impl/src/main/java/com/garcia/orlandi/slayerbot/SlayerBot.java:152-163 | Three of clubs (zap), Three of hearts (copas) and a Seven under a Two of clubs: the answer is 0, not a raise |
| `SlayerBot.NoReRaiseUnderAceOrTwoVira` | bot-impl/src/main/java/com/garcia/orlandi/slayerbot/SlayerBot.java:154-163 | under an Ace or a Two vira the answer to truco is never 1 (raise again) |

## Left out

- The plugin interface, service loading, the snapshot's builder and the `CardToPlay` wrapper belong to the host engine. The snapshot is a plain datatype, and `ChooseCard` returns the card itself.
- The host engine's card type is not part of this model. `Cards` gives it the game's rules. Face-down (hidden) cards are not modelled.
- The code of the bot's utility class is not part of this model. `Manilhas` and `Threes` are filters over the hand. `Strongest`, `SecondStrongest` and `Weakest` are an argmax, a second argmax and an argmin.
- HandUtils.Strongest: states only that the card is of greatest strength. When several cards tie, which one the utility class returns is not visible; the model takes the first.
- HandUtils.SecondStrongest: states only the second-argmax property. Its behaviour on a one-card hand is not visible, so it requires two cards. `ChooseCard` passes that requirement on for the first round with the opponent yet to play.
- HandUtils.Weakest: states only that the card is of least strength. Its tie-break is not visible.
- The open cards are read from the snapshot but never used. They are a field of `Intel` and nothing reads them.
- `ChooseCard` requires a non-empty hand. What the utility class does with an empty hand is not visible.
- `DecideIfRaises` requires that the tie-break rule never reads the first card of an empty hand. In the source that read throws.
- Score range, hand size and history length are game invariants the engine keeps. The decisions do not depend on them, so none of them is required.
