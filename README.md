# Blackjack round logic

This project models the game logic of the single-page blackjack component in
`Frontend/src/App.js`. The component covers:

- the `suits` and `ranks` constants;
- `createDeck`, which pushes the 52 cards suit by suit and shuffles them;
- the descending Fisher-Yates `shuffle`;
- `getValue`, which scores a rank with an Ace starting at 11;
- `getHandValue`, which sums a hand and downgrades Aces from 11 to 1 while the total is over 21;
- the three state transitions `startGame`, `hit` and `stand`.

The component's six pieces of state are the fields of the class
`Game.Blackjack`: `deck`, `playerHand`, `dealerHand`, `dealerVisible`,
`gameOver` and `playerWon`. `playerWon` is an `Option<bool>`, where `None`
stands for `null`. The top of the deck is its last element, because `pop`
takes from the end.

The modules follow the component's layers:

- `Cards`: suits, ranks, card values, image paths and the unshuffled deck order.
- `Deck`: the shuffle and deck construction.
- `Scoring`: hand values.
- `Game`: the round state machine and the invariant every reachable state keeps.

The invariant is `Game.Consistent`:

- the deck and the two hands together hold every card of one standard deck exactly once;
- the dealer's hand is shown only once the round is over;
- during the player's turn the player has not bust and the dealer holds at most one card;
- a round that ended without the dealer's turn is a player bust;
- after the dealer's turn the dealer stands on 17 or more, and `playerWon` is the comparison of the two scores.

The random choices of `shuffle` come in as an index oracle: a sequence `js`
with `js[i] <= i`, where `js[i]` is the position swapped with `i`.

## Model

| member | source | states |
|---|---|---|
| Cards.Suits | Frontend/src/App.js:5 | the `suits` constant, in its order |
| Cards.Ranks | Frontend/src/App.js:6-20 | the `ranks` constant, in its order |
| Cards.SuitName | Frontend/src/App.js:5 | the spelling of each suit |
| Cards.RankName | Frontend/src/App.js:6-20 | the spelling of each rank |
| Cards.NumberRankDigits | Frontend/src/App.js:6-20 | the number ranks are spelled with decimal digits only, so `parseInt` reads them |
| Cards.ParseDecimal | Frontend/src/App.js:58 | `parseInt` on a string of decimal digits |
| Cards.GetValue | Frontend/src/App.js:52-60 | `getValue`: 10 for Jack, Queen and King, 11 for an Ace, otherwise the numeral parsed; its properties are in `Cards.ValueOfRank` |
| Cards.Card.Value | Frontend/src/App.js:36 | a card's `value` field, `getValue` of its rank |
| Cards.ValueOfRank | Frontend/src/App.js:52-60 | every rank is worth 2 to 11; a rank is worth 11 exactly when it is an Ace; it is worth 10 exactly when it is Ten, Jack, Queen or King; the k-th number rank is worth k + 2 |
| Cards.LowerChar | Frontend/src/App.js:37 | `toLowerCase` on one character of the names |
| Cards.Lower | Frontend/src/App.js:37 | `toLowerCase` on a name, which keeps its length |
| Cards.ImagePath | Frontend/src/App.js:37 | the image path template |
| Cards.Card.Image | Frontend/src/App.js:37 | a card's `image` field, the template filled with its suit and rank |
| Cards.ImagePathShape | Frontend/src/App.js:37 | the image path splits into the template's segments: the picture directory, then the lower-cased rank name, `_of_`, the lower-cased suit name, and `.png` |
| Cards.RankInitial | Frontend/src/App.js:37 | every lower-cased rank name is non-empty and its first character names the rank |
| Cards.SuitInitial | Frontend/src/App.js:37 | every lower-cased suit name is non-empty and its first character names the suit |
| Cards.ImagesDistinct | Frontend/src/App.js:37 | two cards have the same image path exactly when they are the same card, so each picture names one card |
| Cards.AceOfHeartsImage | Frontend/src/App.js:37 | the Ace of Hearts gets `/PNG-cards-1.3/ace_of_hearts.png` |
| Cards.Cross | Frontend/src/App.js:31-39 | the cards the nested loops push, suit by suit |
| Cards.Row | Frontend/src/App.js:32-38 | one pass of the inner loop pushes the card of each rank of the suit, in rank order |
| Cards.CrossLength | Frontend/src/App.js:31-39 | the nested loops push one card per suit and rank pair |
| Cards.CrossMembers | Frontend/src/App.js:31-39 | a card is pushed exactly when its suit and its rank are listed |
| Cards.CrossDistinct | Frontend/src/App.js:31-39 | distinct suits and distinct ranks give a deck without duplicate cards |
| Cards.StandardDeck | Frontend/src/App.js:5-40 | the unshuffled deck has 52 cards |
| Cards.StandardDeckFacts | Frontend/src/App.js:5-41 | the unshuffled deck has 52 cards, no card twice, and each of the 52 suit and rank pairs exactly once |
| Cards.StandardDeckIsOneDeck | Frontend/src/App.js:29-41 | every card occurs exactly once in the unshuffled deck |
| Deck.IndexOracle | Frontend/src/App.js:46 | the random choices: at position i, an index from 0 to i |
| Deck.SwapAt | Frontend/src/App.js:47 | the swap of positions i and j |
| Deck.SwapPermutes | Frontend/src/App.js:47 | a swap keeps the multiset of cards |
| Deck.ShuffleDown | Frontend/src/App.js:45-48 | the swap steps for positions k - 1 down to 1, in that order, keeping the length |
| Deck.FisherYates | Frontend/src/App.js:44-50 | the order `shuffle` leaves its input in for the given choices, keeping the length |
| Deck.Shuffle | Frontend/src/App.js:44-50 | the in-place loop leaves the array in the Fisher-Yates order for the oracle's choices |
| Deck.ShuffleDownPermutes | Frontend/src/App.js:45-48 | each run of swap steps keeps the length and the multiset of cards |
| Deck.FisherYatesPermutes | Frontend/src/App.js:44-50 | for every choice of indices, the shuffle returns a permutation of its input |
| Deck.ShuffleDownIdentity | Frontend/src/App.js:45-48 | when every choice picks the current position, the order is unchanged |
| Deck.PushSuit | Frontend/src/App.js:32-38 | the inner loop appends the row of the suit to the deck built so far |
| Deck.NewDeck | Frontend/src/App.js:29-40 | the nested loops build exactly the standard deck order |
| Deck.CreateDeck | Frontend/src/App.js:29-42 | the created deck has 52 cards, is the standard order shuffled by the oracle, and holds every card exactly once |
| Scoring.Sum | Frontend/src/App.js:116 | the `reduce` adding up the card values |
| Scoring.AceCount | Frontend/src/App.js:117 | a hand has no more Aces than cards |
| Scoring.Adjust | Frontend/src/App.js:119-122 | the downgrading `while` loop as a recursive function |
| Scoring.HandValue | Frontend/src/App.js:115-125 | the score `getHandValue` returns; its properties are in `Scoring.SoftAces` and `Scoring.AdjustClosedForm` |
| Scoring.Downgrades | Frontend/src/App.js:119-122 | the number of downgraded Aces is at most the Ace count; it is 0 when the raw total is at most 21; each downgrade was needed; more than 21 after k downgrades means every Ace was downgraded |
| Scoring.AdjustClosedForm | Frontend/src/App.js:119-122 | the downgrading loop takes off exactly 10 per downgraded Ace, for the closed-form count |
| Scoring.GetHandValue | Frontend/src/App.js:115-125 | the loop returns the hand value |
| Scoring.SoftAces | Frontend/src/App.js:115-125 | a hand's value is its raw total less 10 per downgraded Ace; no Ace is downgraded when the raw total is at most 21; none is downgraded without need; a value over 21 means every Ace was downgraded |
| Scoring.HardTotalAtLeastSize | Frontend/src/App.js:116-117 | with every Ace counted as 1, each card adds at least 1 |
| Scoring.HandValueAtLeastSize | Frontend/src/App.js:115-125 | a hand is worth at least its number of cards |
| Scoring.TwoCards | Frontend/src/App.js:116-117 | for a two-card hand, the sum is the two card values and the Ace count is the number of Aces among the two cards |
| Scoring.TwoCardsNeverBust | Frontend/src/App.js:115-125 | a two-card hand is never worth more than 21 |
| Scoring.Examples | Frontend/src/App.js:115-125 | Ace and King score 21, two Aces score 12, and 10, 9, 5 score 24 |
| Game.Outcome | Frontend/src/App.js:101-110 | the player wins exactly when the dealer busts or the player's score is higher; the player loses exactly when the dealer is at most 21 and higher; it is a tie (`null`) exactly when the dealer is at most 21 and the scores are equal |
| Game.Pop | Frontend/src/App.js:64 | `pop` returns the last card and the deck without it |
| Game.Draw | Frontend/src/App.js:92-96 | drawing n cards adds n cards to the hand |
| Game.DrawTop | Frontend/src/App.js:92-96 | drawing keeps the old hand in front and appends the top n cards of the deck, the top card first |
| Game.DrawCards | Frontend/src/App.js:92-96 | the drawn hand's cards are the old hand's cards plus the top n cards of the deck |
| Game.DealerCanFinish | Frontend/src/App.js:92-96 | the deck holds enough cards for the dealer's loop to reach 17 |
| Game.KeptDrawing | Frontend/src/App.js:95-97 | the dealer's hand was under 17 after each earlier draw |
| Game.DealerPlayed | Frontend/src/App.js:91-99 | the dealer's turn: at least one card from the top, drawing while under 17, stopping at the first hand worth 17 or more |
| Game.Consistent | Frontend/src/App.js:22-113 | the invariant every reachable state keeps (listed above) |
| Game.KeptDrawingStep | Frontend/src/App.js:95-97 | the step of the dealer loop's invariant: when the hand after n draws is still under 17, the record of hands under 17 extends to n + 1 draws |
| Game.NeverShortOfCards | Frontend/src/App.js:75-97 | during the player's turn the deck holds at least 30 cards, which covers a hit and the dealer's whole turn |
| Game.FreshDeal | Frontend/src/App.js:62-73 | dealing from a full deck starts a consistent round |
| Game.Deal | Frontend/src/App.js:63-65 | the player gets the top two cards, the dealer the next one, and the deck keeps the other 49 |
| Game.NewRound | Frontend/src/App.js:62-65 | `startGame` lays out the shuffled deck dealt, in a consistent state |
| Game.Blackjack.constructor | Frontend/src/App.js:22-27 | the initial state is a fresh shuffled deck, empty hands, no result, and is consistent |
| Game.Blackjack.StartGame | Frontend/src/App.js:62-73 | after `startGame` the player holds the top two cards, the dealer the third, the deck the other 49, the flags are cleared, and the state is consistent |
| Game.HitKeepsConsistent | Frontend/src/App.js:75-87 | a hit during the player's turn keeps the state consistent and ends the round with a loss exactly when the player's hand goes over 21 |
| Game.Blackjack.Hit | Frontend/src/App.js:75-87 | once the round is over a hit changes nothing; otherwise the top card moves to the player, and `gameOver` and a loss are set exactly when the player's value goes over 21; the state stays consistent |
| Game.StandKeepsConsistent | Frontend/src/App.js:89-113 | the dealer's turn keeps the state consistent, with the verdict being the comparison of the scores |
| Game.DealerDraws | Frontend/src/App.js:91-97 | the dealer draws at least one card from the top, keeps drawing while under 17, and stops at the first hand worth 17 or more |
| Game.DealerTurn | Frontend/src/App.js:89-110 | the dealer's draws, the verdict as the comparison of the scores, and a consistent final state |
| Game.Blackjack.Stand | Frontend/src/App.js:89-113 | the dealer draws from the top until the hand is worth 17 or more; the player's hand is unchanged; the dealer's hand is shown; the round is over; the verdict is the comparison of the scores; the state stays consistent |

## Left out

- Rendering is not modelled: the JSX, the hidden dealer card and the outcome messages (`Frontend/src/App.js:127-184`).
- Math.random is replaced by the index oracle `js`. The model does not show that every permutation is reachable, only that every choice of indices gives a permutation.
- React state setters are modelled as field assignments at the end of each method. Batching and re-rendering are not modelled, and no other step of these functions reads the state they set.
- Game.Blackjack.Hit: requires `Valid()`. The invariant guarantees a non-empty deck during the player's turn, so `pop` on an empty deck (JavaScript's `undefined`, then a crash in `card.value`) cannot be reached.
- Game.Blackjack.Stand: like the source, it has no `gameOver` guard; the UI only hides the button (`Frontend/src/App.js:143-148`). It requires that the deck can carry the dealer to 17, which excludes popping from an empty deck. `Game.NeverShortOfCards` shows this holds throughout the player's turn. A second `stand` after the round is over is covered only while that condition still holds.
- Cards.GetValue: `parseInt` is modelled only on the digit strings the number ranks use, not on arbitrary strings.
- Cards.Card: a card's `value` and `image` fields are derived from its suit and rank (`Card.Value`, `Card.Image`) rather than stored, since the source computes them once from those two and never changes them.
- The `alt` texts and other strings built only for display are not modelled.
