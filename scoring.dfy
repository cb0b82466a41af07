/** Hand scoring with soft aces. A hand's raw total counts every Ace as 11;
    while the total is over 21 and some Ace still counts 11, one Ace is
    downgraded to 1 (the total drops by 10). */
module Scoring {
  import opened Cards

  /** The `reduce` over card values. */
  function Sum(hand: seq<Card>): int {
    if hand == [] then 0 else Sum(hand[..|hand| - 1]) + hand[|hand| - 1].Value()
  }

  /** The length of the `filter` keeping the Aces. */
  function AceCount(hand: seq<Card>): (n: nat)
    ensures n <= |hand|
  {
    if hand == [] then 0
    else AceCount(hand[..|hand| - 1]) + (if hand[|hand| - 1].rank == Ace then 1 else 0)
  }

  function Min(a: int, b: int): int {
    if a <= b then a else b
  }

  /** How many Aces scoring downgrades from 11 to 1: the fewest that bring
      the total to 21 or less, or all of them when even that is not enough. */
  function Downgrades(raw: int, aces: nat): (k: nat)
    ensures k <= aces
    ensures raw <= 21 ==> k == 0
    ensures k > 0 ==> raw - 10 * (k - 1) > 21
    ensures raw - 10 * k > 21 ==> k == aces
  {
    if raw <= 21 then 0 else Min(aces, (raw - 12) / 10)
  }

  /** The downgrading loop of `getHandValue` as a function: while the total
      is over 21 and an Ace still counts 11, take 10 off. */
  function Adjust(value: int, aces: nat): int
    decreases aces
  {
    if value > 21 && aces > 0 then Adjust(value - 10, aces - 1) else value
  }

  /** The score `getHandValue` returns. */
  function HandValue(hand: seq<Card>): int {
    Adjust(Sum(hand), AceCount(hand))
  }

  /** The downgrading loop agrees with the closed form: it takes off 10 for
      each of exactly `Downgrades(raw, aces)` Aces. */
  lemma {:induction false} AdjustClosedForm(raw: int, aces: nat)
    ensures Adjust(raw, aces) == raw - 10 * Downgrades(raw, aces)
    decreases aces
  {
    if raw > 21 && aces > 0 {
      AdjustClosedForm(raw - 10, aces - 1);
      DowngradesUnique(raw, aces, Downgrades(raw - 10, aces - 1) + 1);
    }
  }

  /** Downgrades is the only count with its three defining properties. */
  lemma DowngradesUnique(raw: int, aces: nat, d: nat)
    requires d <= aces
    requires d > 0 ==> raw - 10 * (d - 1) > 21
    requires raw - 10 * d <= 21 || d == aces
    ensures d == Downgrades(raw, aces)
  {
  }

  /** `getHandValue`: fold the values and count the Aces, then downgrade
      Aces one at a time while the total is over 21. */
  method GetHandValue(hand: seq<Card>) returns (value: int)
    ensures value == HandValue(hand)
  {
    value := Sum(hand);
    var aces := AceCount(hand);
    while value > 21 && aces > 0
      invariant Adjust(value, aces) == HandValue(hand)
    {
      value := value - 10;
      aces := aces - 1;
    }
  }

  /** The scoring rule stated on the hand: the score is the raw total less
      10 for each of k downgraded Aces, no Ace is downgraded when the raw
      total is at most 21, no Ace is downgraded that was not needed, and a
      score over 21 means every Ace was downgraded. */
  lemma SoftAces(hand: seq<Card>)
    ensures var k := Downgrades(Sum(hand), AceCount(hand));
      && 0 <= k <= AceCount(hand)
      && HandValue(hand) == Sum(hand) - 10 * k
      && (Sum(hand) <= 21 ==> k == 0)
      && (k > 0 ==> HandValue(hand) + 10 > 21)
      && (HandValue(hand) > 21 ==> k == AceCount(hand))
  {
    AdjustClosedForm(Sum(hand), AceCount(hand));
  }

  /** Per card, a card adds at least 1 once its Ace (if any) is downgraded. */
  lemma {:induction false} HardTotalAtLeastSize(hand: seq<Card>)
    ensures Sum(hand) - 10 * AceCount(hand) >= |hand|
  {
    if hand != [] {
      var init, last := hand[..|hand| - 1], hand[|hand| - 1];
      HardTotalAtLeastSize(init);
      ValueOfRank(last.rank);
    }
  }

  /** A hand scores at least its number of cards. */
  lemma HandValueAtLeastSize(hand: seq<Card>)
    ensures HandValue(hand) >= |hand|
  {
    HardTotalAtLeastSize(hand);
    AdjustClosedForm(Sum(hand), AceCount(hand));
  }

  lemma TwoCards(c1: Card, c2: Card)
    ensures Sum([c1, c2]) == c1.Value() + c2.Value()
    ensures AceCount([c1, c2]) == (if c1.rank == Ace then 1 else 0) + (if c2.rank == Ace then 1 else 0)
  {
    assert [c1, c2][..1] == [c1];
    assert [c1][..0] == [];
    assert Sum([c1]) == c1.Value();
    assert AceCount([c1]) == (if c1.rank == Ace then 1 else 0);
  }

  /** Two cards never bust: only two Aces reach 22, and one of them is downgraded. */
  lemma TwoCardsNeverBust(c1: Card, c2: Card)
    ensures HandValue([c1, c2]) <= 21
  {
    ValueOfRank(c1.rank);
    ValueOfRank(c2.rank);
    TwoCards(c1, c2);
  }

  /** The worked examples: Ace and King make 21, two Aces make 12, and
      10, 9, 5 make 24 with no Ace to downgrade. */
  lemma Examples()
    ensures HandValue([Card(Spades, Ace), Card(Hearts, King)]) == 21
    ensures HandValue([Card(Spades, Ace), Card(Hearts, Ace)]) == 12
    ensures HandValue([Card(Clubs, Ten), Card(Clubs, Nine), Card(Clubs, Five)]) == 24
  {
    ValueOfRank(Ace);
    ValueOfRank(King);
    TwoCards(Card(Spades, Ace), Card(Hearts, King));
    TwoCards(Card(Spades, Ace), Card(Hearts, Ace));
    ValueOfRank(Ten);
    ValueOfRank(Nine);
    ValueOfRank(Five);
    var tnf := [Card(Clubs, Ten), Card(Clubs, Nine), Card(Clubs, Five)];
    assert tnf[..2] == [Card(Clubs, Ten), Card(Clubs, Nine)];
    TwoCards(Card(Clubs, Ten), Card(Clubs, Nine));
    assert Sum(tnf) == 24 && AceCount(tnf) == 0;
  }
}
