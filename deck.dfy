/** Deck construction and the Fisher-Yates shuffle. The random index drawn at
    each step of the shuffle is supplied by an index oracle: a sequence `js`
    whose entry `js[i]` is the position swapped with `i` when the loop is at `i`. */
module Deck {
  import opened Cards

  /** The oracle stands for the random choices: one index in [0, i] per position i. */
  predicate IndexOracle(js: seq<nat>, n: nat) {
    |js| == n && forall i | 0 <= i < n :: js[i] <= i
  }

  function SwapAt<T>(s: seq<T>, i: nat, j: nat): seq<T>
    requires i < |s| && j < |s|
  {
    s[i := s[j]][j := s[i]]
  }

  /** The shuffle steps for positions k - 1 down to 1, in that order. */
  function ShuffleDown<T>(s: seq<T>, js: seq<nat>, k: nat): (r: seq<T>)
    requires k <= |s| && IndexOracle(js, |s|)
    ensures |r| == |s|
    decreases k
  {
    if k <= 1 then s
    else ShuffleDown(SwapAt(s, k - 1, js[k - 1]), js, k - 1)
  }

  /** The order `shuffle` leaves its input in for the given choices. */
  function FisherYates<T>(s: seq<T>, js: seq<nat>): (r: seq<T>)
    requires IndexOracle(js, |s|)
    ensures |r| == |s|
  {
    ShuffleDown(s, js, |s|)
  }

  /** One swap step keeps the multiset of elements. */
  lemma SwapPermutes<T>(s: seq<T>, i: nat, j: nat)
    requires i < |s| && j < |s|
    ensures multiset(SwapAt(s, i, j)) == multiset(s)
  {
    var t := s[i := s[j]];
    assert multiset(t) == multiset(s) - multiset{s[i]} + multiset{s[j]};
    assert multiset(t[j := s[i]]) == multiset(t) - multiset{t[j]} + multiset{s[i]};
  }

  lemma {:induction false} ShuffleDownPermutes<T>(s: seq<T>, js: seq<nat>, k: nat)
    requires k <= |s| && IndexOracle(js, |s|)
    ensures |ShuffleDown(s, js, k)| == |s|
    ensures multiset(ShuffleDown(s, js, k)) == multiset(s)
    decreases k
  {
    if k > 1 {
      SwapPermutes(s, k - 1, js[k - 1]);
      ShuffleDownPermutes(SwapAt(s, k - 1, js[k - 1]), js, k - 1);
    }
  }

  /** Whatever indices are chosen, `shuffle` returns a permutation of its input. */
  lemma FisherYatesPermutes<T>(s: seq<T>, js: seq<nat>)
    requires IndexOracle(js, |s|)
    ensures |FisherYates(s, js)| == |s|
    ensures multiset(FisherYates(s, js)) == multiset(s)
  {
    ShuffleDownPermutes(s, js, |s|);
  }

  /** An oracle that always picks the current position leaves the order alone. */
  lemma {:induction false} ShuffleDownIdentity<T>(s: seq<T>, js: seq<nat>, k: nat)
    requires k <= |s| && IndexOracle(js, |s|)
    requires forall i | 0 <= i < |s| :: js[i] == i
    ensures ShuffleDown(s, js, k) == s
    decreases k
  {
    if k > 1 {
      assert SwapAt(s, k - 1, js[k - 1]) == s;
      ShuffleDownIdentity(s, js, k - 1);
    }
  }

  /** `shuffle`: the descending Fisher-Yates loop, swapping in place. */
  method Shuffle<T>(a: array<T>, js: seq<nat>)
    requires IndexOracle(js, a.Length)
    modifies a
    ensures a[..] == FisherYates(old(a[..]), js)
  {
    var i := a.Length - 1;
    while i > 0
      invariant -1 <= i < a.Length
      invariant ShuffleDown(a[..], js, i + 1) == FisherYates(old(a[..]), js)
    {
      var j := js[i];
      ghost var before := a[..];
      a[i], a[j] := a[j], a[i];
      assert a[..] == SwapAt(before, i, j);
      i := i - 1;
    }
  }

  /** The outer loop of `createDeck`: push every (suit, rank) card, suit by suit. */
  method NewDeck() returns (newDeck: seq<Card>)
    ensures newDeck == StandardDeck()
  {
    newDeck := [];
    for si := 0 to |Suits|
      invariant newDeck == Cross(Suits[..si], Ranks)
    {
      newDeck := PushSuit(newDeck, Suits[si], Ranks);
      CrossSnoc(Suits, Ranks, si);
    }
    assert Suits[..|Suits|] == Suits;
  }

  /** The inner loop of `createDeck`: push the card of every rank of one suit. */
  method PushSuit(deck: seq<Card>, suit: Suit, ranks: seq<Rank>) returns (newDeck: seq<Card>)
    ensures newDeck == deck + Row(suit, ranks)
  {
    newDeck := deck;
    for ri := 0 to |ranks|
      invariant newDeck == deck + Row(suit, ranks[..ri])
    {
      var rank := ranks[ri];
      var card := Card(suit, rank);
      RowSnoc(suit, ranks, ri);
      newDeck := newDeck + [card];
    }
    assert ranks[..|ranks|] == ranks;
  }

  /** `createDeck`: the standard deck, shuffled. */
  method CreateDeck(js: seq<nat>) returns (deck: seq<Card>)
    requires IndexOracle(js, 52)
    ensures |deck| == 52
    ensures deck == FisherYates(StandardDeck(), js)
    ensures IsOneDeck(multiset(deck))
  {
    var newDeck := NewDeck();
    var a := new Card[|newDeck|](i requires 0 <= i < |newDeck| => newDeck[i]);
    assert a[..] == newDeck;
    Shuffle(a, js);
    deck := a[..];
    FisherYatesPermutes(newDeck, js);
    StandardDeckIsOneDeck();
  }
}
