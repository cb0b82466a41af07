/** The round state machine of the blackjack component. The six pieces of
    component state (`deck`, `playerHand`, `dealerHand`, `dealerVisible`,
    `gameOver`, `playerWon`) are the fields of a `Blackjack` object, and each
    state setter is an assignment to its field. The top of the deck is its
    last element: a draw pops it from the end. */
module Game {
  import opened Cards
  import opened Deck
  import opened Scoring

  /** `playerWon`: `None` stands for `null` (no result yet, or a tie). */
  datatype Option<T> = None | Some(value: T)

  /** The comparison at the end of `stand`. */
  function Outcome(playerScore: int, dealerScore: int): (won: Option<bool>)
    ensures won == Some(true) <==> dealerScore > 21 || playerScore > dealerScore
    ensures won == Some(false) <==> dealerScore <= 21 && playerScore < dealerScore
    ensures won == None <==> dealerScore <= 21 && playerScore == dealerScore
  {
    if dealerScore > 21 || playerScore > dealerScore then Some(true)
    else if playerScore < dealerScore then Some(false)
    else None
  }

  /** `pop`: the last card of a non-empty deck and the deck without it. */
  method Pop(deck: seq<Card>) returns (rest: seq<Card>, top: Card)
    requires |deck| > 0
    ensures deck == rest + [top]
    ensures rest == deck[..|deck| - 1] && top == deck[|deck| - 1]
  {
    rest, top := deck[..|deck| - 1], deck[|deck| - 1];
  }

  /** `hand` after n cards are popped from `deck` and pushed onto it, one at a time. */
  function Draw(hand: seq<Card>, deck: seq<Card>, n: nat): (r: seq<Card>)
    requires n <= |deck|
    ensures |r| == |hand| + n
  {
    if n == 0 then hand else Draw(hand, deck, n - 1) + [deck[|deck| - n]]
  }

  /** Drawing keeps the hand in front and adds the top n cards of the deck,
      the top one first. */
  lemma {:induction false} DrawTop(hand: seq<Card>, deck: seq<Card>, n: nat)
    requires n <= |deck|
    ensures Draw(hand, deck, n)[..|hand|] == hand
    ensures forall i | |hand| <= i < |hand| + n :: Draw(hand, deck, n)[i] == deck[|deck| - 1 - (i - |hand|)]
  {
    if n > 0 {
      DrawTop(hand, deck, n - 1);
      assert Draw(hand, deck, n)[..|hand|] == Draw(hand, deck, n - 1)[..|hand|];
    }
  }

  /** Drawing moves cards and nothing else: the cards of the new hand are
      those of the old hand and of the top n cards of the deck. */
  lemma {:induction false} DrawCards(hand: seq<Card>, deck: seq<Card>, n: nat)
    requires n <= |deck|
    ensures multiset(Draw(hand, deck, n)) == multiset(hand) + multiset(deck[|deck| - n..])
  {
    if n > 0 {
      DrawCards(hand, deck, n - 1);
      assert deck[|deck| - n..] == [deck[|deck| - n]] + deck[|deck| - (n - 1)..];
    }
  }

  /** The deck holds enough cards for the dealer to draw at least once and
      keep drawing until the hand is worth 17 or more. */
  ghost predicate DealerCanFinish(hand: seq<Card>, deck: seq<Card>) {
    exists n :: 1 <= n <= |deck| && HandValue(Draw(hand, deck, n)) >= 17
  }

  /** The dealer's hand was worth less than 17 after each of the first n - 1 draws. */
  ghost predicate KeptDrawing(hand: seq<Card>, deck: seq<Card>, n: nat)
    requires n <= |deck|
  {
    forall m | 1 <= m < n :: HandValue(Draw(hand, deck, m)) < 17
  }

  lemma KeptDrawingStep(hand: seq<Card>, deck: seq<Card>, n: nat)
    requires n < |deck|
    requires KeptDrawing(hand, deck, n) && HandValue(Draw(hand, deck, n)) < 17
    ensures KeptDrawing(hand, deck, n + 1)
  {
  }

  /** The dealer's turn took `hand` and `deck` to `newHand` and `newDeck`:
      the dealer drew at least one card from the top of the deck, kept
      drawing while the hand was worth less than 17 and stopped at the first
      hand worth 17 or more. */
  ghost predicate DealerPlayed(hand: seq<Card>, deck: seq<Card>, newHand: seq<Card>, newDeck: seq<Card>) {
    var drawn := |newHand| - |hand|;
    && 1 <= drawn <= |deck|
    && newHand == Draw(hand, deck, drawn)
    && newDeck == deck[..|deck| - drawn]
    && HandValue(newHand) >= 17
    && KeptDrawing(hand, deck, drawn)
  }

  /** The invariant every reachable state keeps. */
  ghost predicate Consistent(deck: seq<Card>, playerHand: seq<Card>, dealerHand: seq<Card>,
                             dealerVisible: bool, gameOver: bool, playerWon: Option<bool>)
  {
    // no card is created, lost or duplicated: the three piles are one standard deck
    && IsOneDeck(multiset(deck + playerHand + dealerHand))
    && |deck| + |playerHand| + |dealerHand| == 52
    // the dealer's hand is revealed only when the round is over
    && (dealerVisible ==> gameOver)
    // during the player's turn the dealer holds at most one card and the player has not bust
    && (!gameOver ==> playerWon == None && |dealerHand| <= 1 && HandValue(playerHand) <= 21)
    // a round over without the dealer's turn ended with a player bust
    && (gameOver && !dealerVisible ==> playerWon == Some(false) && HandValue(playerHand) > 21)
    // after the dealer's turn the dealer stands on 17 or more and the verdict is the comparison
    && (dealerVisible ==> HandValue(dealerHand) >= 17
                          && playerWon == Outcome(HandValue(playerHand), HandValue(dealerHand)))
  }

  /** During the player's turn the deck never runs out: it still holds a card
      for a hit, and enough cards for the dealer's whole turn. */
  lemma NeverShortOfCards(deck: seq<Card>, playerHand: seq<Card>, dealerHand: seq<Card>)
    requires |deck| + |playerHand| + |dealerHand| == 52
    requires HandValue(playerHand) <= 21 && |dealerHand| <= 1
    ensures |deck| >= 30
    ensures DealerCanFinish(dealerHand, deck)
  {
    HandValueAtLeastSize(playerHand);
    HandValueAtLeastSize(Draw(dealerHand, deck, |deck|));
  }

  class Blackjack {
    var deck: seq<Card>
    var playerHand: seq<Card>
    var dealerHand: seq<Card>
    var dealerVisible: bool
    var gameOver: bool
    var playerWon: Option<bool>

    ghost predicate Valid()
      reads this
    {
      Consistent(deck, playerHand, dealerHand, dealerVisible, gameOver, playerWon)
    }

    /** The initial state: a fresh shuffled deck, empty hands, no result. */
    constructor (js: seq<nat>)
      requires IndexOracle(js, 52)
      ensures Valid()
      ensures deck == FisherYates(StandardDeck(), js)
      ensures playerHand == [] && dealerHand == []
      ensures !dealerVisible && !gameOver && playerWon == None
    {
      var newDeck := CreateDeck(js);
      deck := newDeck;
      playerHand := [];
      dealerHand := [];
      dealerVisible := false;
      gameOver := false;
      playerWon := None;
      new;
      assert deck + playerHand + dealerHand == deck;
    }

    /** `startGame`: a fresh shuffled deck; the player gets the top two cards
        and the dealer the next one. */
    method StartGame(js: seq<nat>)
      requires IndexOracle(js, 52)
      modifies this
      ensures Valid()
      ensures var d := FisherYates(StandardDeck(), js);
        && playerHand == [d[51], d[50]]
        && dealerHand == [d[49]]
        && deck == d[..49]
      ensures !dealerVisible && !gameOver && playerWon == None
    {
      var newDeck, newPlayerHand, newDealerHand := NewRound(js);

      deck := newDeck;
      playerHand := newPlayerHand;
      dealerHand := newDealerHand;
      dealerVisible := false;
      gameOver := false;
      playerWon := None;
    }

    /** `hit`: unless the round is over, the top card goes to the end of the
        player's hand, and the round ends with a loss when that hand busts. */
    method Hit()
      requires Valid()
      modifies this
      ensures Valid()
      ensures old(gameOver) ==> unchanged(this)
      ensures !old(gameOver) ==>
        && |old(deck)| > 0
        && deck == old(deck)[..|old(deck)| - 1]
        && playerHand == old(playerHand) + [old(deck)[|old(deck)| - 1]]
        && dealerHand == old(dealerHand) && dealerVisible == old(dealerVisible)
        && gameOver == (HandValue(playerHand) > 21)
        && playerWon == (if gameOver then Some(false) else None)
    {
      if !gameOver {
        NeverShortOfCards(deck, playerHand, dealerHand);
        var newDeck, card := Pop(deck);
        var newPlayerHand := playerHand + [card];
        var value := GetHandValue(newPlayerHand);
        HitKeepsConsistent(deck, playerHand, dealerHand);

        deck := newDeck;
        playerHand := newPlayerHand;
        if value > 21 {
          gameOver := true;
          playerWon := Some(false);
        }
      }
    }

    /** `stand`: the dealer draws one card, then keeps drawing while the hand
        is worth less than 17; the hand is revealed, the scores compared and
        the round ends. Like the source, it has no guard on `gameOver`. */
    method Stand()
      requires Valid()
      requires DealerCanFinish(dealerHand, deck)
      modifies this
      ensures Valid()
      ensures DealerPlayed(old(dealerHand), old(deck), dealerHand, deck)
      ensures playerHand == old(playerHand)
      ensures dealerVisible && gameOver
      ensures playerWon == Outcome(HandValue(playerHand), HandValue(dealerHand))
    {
      var newDeck, newDealerHand, won := DealerTurn(deck, playerHand, dealerHand);
      deck, dealerHand, dealerVisible, playerWon, gameOver := newDeck, newDealerHand, true, won, true;
    }
  }

  /** The values `stand` computes before setting the state: the dealer's
      draws, then the comparison of the two scores. */
  method DealerTurn(deck: seq<Card>, playerHand: seq<Card>, dealerHand: seq<Card>)
    returns (newDeck: seq<Card>, newDealerHand: seq<Card>, won: Option<bool>)
    requires IsOneDeck(multiset(deck + playerHand + dealerHand))
    requires |deck| + |playerHand| + |dealerHand| == 52
    requires DealerCanFinish(dealerHand, deck)
    ensures DealerPlayed(dealerHand, deck, newDealerHand, newDeck)
    ensures won == Outcome(HandValue(playerHand), HandValue(newDealerHand))
    ensures Consistent(newDeck, playerHand, newDealerHand, true, true, won)
  {
    newDealerHand, newDeck := DealerDraws(dealerHand, deck);
    var playerScore := GetHandValue(playerHand);
    var dealerScore := GetHandValue(newDealerHand);
    won := Outcome(playerScore, dealerScore);
    StandKeepsConsistent(deck, playerHand, dealerHand, |newDealerHand| - |dealerHand|);
  }

  /** The cards `startGame` lays out: a fresh shuffled deck, dealt. */
  method NewRound(js: seq<nat>) returns (deck: seq<Card>, playerHand: seq<Card>, dealerHand: seq<Card>)
    requires IndexOracle(js, 52)
    ensures var d := FisherYates(StandardDeck(), js);
      && playerHand == [d[51], d[50]]
      && dealerHand == [d[49]]
      && deck == d[..49]
    ensures Consistent(deck, playerHand, dealerHand, false, false, None)
  {
    var shuffled := CreateDeck(js);
    deck, playerHand, dealerHand := Deal(shuffled);
    FreshDeal(shuffled);
  }

  /** The three pops of `startGame`: two cards to the player, then one to the dealer. */
  method Deal(shuffled: seq<Card>) returns (deck: seq<Card>, playerHand: seq<Card>, dealerHand: seq<Card>)
    requires |shuffled| == 52
    ensures deck == shuffled[..49]
    ensures playerHand == [shuffled[51], shuffled[50]]
    ensures dealerHand == [shuffled[49]]
  {
    deck := shuffled;
    var first, second, third;
    deck, first := Pop(deck);
    deck, second := Pop(deck);
    playerHand := [first, second];
    deck, third := Pop(deck);
    dealerHand := [third];
  }

  /** The deal from a full deck starts a consistent round. */
  lemma FreshDeal(d: seq<Card>)
    requires |d| == 52 && IsOneDeck(multiset(d))
    ensures Consistent(d[..49], [d[51], d[50]], [d[49]], false, false, None)
  {
    var deck, playerHand, dealerHand := d[..49], [d[51], d[50]], [d[49]];
    assert d == d[..49] + [d[49]] + [d[50]] + [d[51]];
    assert multiset(deck + playerHand + dealerHand) == multiset(d);
    TwoCardsNeverBust(d[51], d[50]);
  }

  /** A hit during the player's turn keeps the round consistent: the top card
      moves to the player, and the round ends with a loss exactly when the
      player's hand goes over 21. */
  lemma HitKeepsConsistent(deck: seq<Card>, playerHand: seq<Card>, dealerHand: seq<Card>)
    requires Consistent(deck, playerHand, dealerHand, false, false, None)
    requires |deck| > 0
    ensures var newHand := playerHand + [deck[|deck| - 1]];
      var bust := HandValue(newHand) > 21;
      Consistent(deck[..|deck| - 1], newHand, dealerHand, false, bust, if bust then Some(false) else None)
  {
    var top := deck[|deck| - 1];
    assert deck == deck[..|deck| - 1] + [top];
    assert multiset(deck[..|deck| - 1] + (playerHand + [top]) + dealerHand)
        == multiset(deck + playerHand + dealerHand);
  }

  /** The dealer's turn keeps the round consistent: `drawn` cards move from
      the top of the deck to the dealer, who stands on 17 or more, and the
      verdict is the comparison of the two scores. */
  lemma StandKeepsConsistent(deck: seq<Card>, playerHand: seq<Card>, dealerHand: seq<Card>, drawn: nat)
    requires IsOneDeck(multiset(deck + playerHand + dealerHand))
    requires |deck| + |playerHand| + |dealerHand| == 52
    requires 1 <= drawn <= |deck| && HandValue(Draw(dealerHand, deck, drawn)) >= 17
    ensures var newHand := Draw(dealerHand, deck, drawn);
      Consistent(deck[..|deck| - drawn], playerHand, newHand, true, true,
                 Outcome(HandValue(playerHand), HandValue(newHand)))
  {
    var rest, taken := deck[..|deck| - drawn], deck[|deck| - drawn..];
    assert deck == rest + taken;
    DrawCards(dealerHand, deck, drawn);
    assert multiset(rest + playerHand + Draw(dealerHand, deck, drawn))
        == multiset(deck + playerHand + dealerHand);
  }

  /** The dealer's part of `stand`: draw one card, then keep drawing while the
      hand is worth less than 17. The dealer stops at the first hand worth 17
      or more. */
  method DealerDraws(hand: seq<Card>, deck: seq<Card>) returns (newHand: seq<Card>, newDeck: seq<Card>)
    requires DealerCanFinish(hand, deck)
    ensures DealerPlayed(hand, deck, newHand, newDeck)
  {
    ghost var enough :| 1 <= enough <= |deck| && HandValue(Draw(hand, deck, enough)) >= 17;
    var card;
    newDeck, card := Pop(deck);
    newHand := hand + [card];
    ghost var drawn := 1;

    var value := GetHandValue(newHand);
    while value < 17
      invariant 1 <= drawn <= enough
      invariant newHand == Draw(hand, deck, drawn)
      invariant newDeck == deck[..|deck| - drawn]
      invariant value == HandValue(newHand)
      invariant KeptDrawing(hand, deck, drawn)
      decreases enough - drawn
    {
      KeptDrawingStep(hand, deck, drawn);
      newDeck, card := Pop(newDeck);
      newHand := newHand + [card];
      drawn := drawn + 1;
      value := GetHandValue(newHand);
    }
  }
}
