/** The cards of a standard 52-card deck as the blackjack component builds them:
    the suit and rank constants, the rank-to-value mapping, the image path of
    each card and the order in which the nested loops of deck construction
    produce the cards. */
module Cards {

  datatype Suit = Hearts | Diamonds | Clubs | Spades

  datatype Rank = Two | Three | Four | Five | Six | Seven | Eight | Nine | Ten
                | Jack | Queen | King | Ace

  /** A card record. Its `value` and `image` fields are computed from the suit
      and rank when the card is built and never change, so the model derives
      them from the suit and rank instead of storing them. */
  datatype Card = Card(suit: Suit, rank: Rank) {
    /** The `value` field: the rank's starting value. */
    function Value(): int {
      GetValue(rank)
    }

    /** The `image` field: the card's picture path. */
    function Image(): string {
      ImagePath(suit, rank)
    }
  }

  /** The `suits` constant, in the order the deck lists them. */
  const Suits: seq<Suit> := [Hearts, Diamonds, Clubs, Spades]

  /** The `ranks` constant, in the order the deck lists them. */
  const Ranks: seq<Rank> := [Two, Three, Four, Five, Six, Seven, Eight, Nine, Ten,
                             Jack, Queen, King, Ace]

  predicate IsDigits(s: string) {
    forall i | 0 <= i < |s| :: '0' <= s[i] <= '9'
  }

  function SuitName(s: Suit): string {
    match s
    case Hearts => "Hearts"
    case Diamonds => "Diamonds"
    case Clubs => "Clubs"
    case Spades => "Spades"
  }

  /** The rank as the source spells it; the number ranks are decimal numerals. */
  function RankName(r: Rank): string {
    match r
    case Two => "2"
    case Three => "3"
    case Four => "4"
    case Five => "5"
    case Six => "6"
    case Seven => "7"
    case Eight => "8"
    case Nine => "9"
    case Ten => "10"
    case Jack => "Jack"
    case Queen => "Queen"
    case King => "King"
    case Ace => "Ace"
  }

  /** The number ranks are spelled with decimal digits only. */
  lemma NumberRankDigits(r: Rank)
    requires r !in {Jack, Queen, King, Ace}
    ensures IsDigits(RankName(r))
  {
  }

  /** `parseInt` restricted to strings of decimal digits. */
  function ParseDecimal(s: string): nat
    requires IsDigits(s)
  {
    if s == [] then 0
    else 10 * ParseDecimal(s[..|s| - 1]) + (s[|s| - 1] as int - '0' as int)
  }

  /** `getValue`: face cards count 10, an Ace starts at 11, a number rank is its numeral. */
  function GetValue(rank: Rank): int {
    if rank in {Jack, Queen, King} then 10
    else if rank == Ace then 11
    else NumberRankDigits(rank); ParseDecimal(RankName(rank))
  }

  /** The mapping in words: the k-th number rank of `Ranks` is worth k + 2,
      Ten and the faces are worth 10, only an Ace is worth 11, and every
      value lies in [2, 11]. */
  lemma ValueOfRank(r: Rank)
    ensures 2 <= GetValue(r) <= 11
    ensures GetValue(r) == 11 <==> r == Ace
    ensures GetValue(r) == 10 <==> r in {Ten, Jack, Queen, King}
    ensures forall k | 0 <= k < 9 :: Ranks[k] == r ==> GetValue(r) == k + 2
  {
    match r
    case Ten =>
      assert "10"[..1] == "1";
      assert "1"[..0] == "";
    case Jack =>
    case Queen =>
    case King =>
    case Ace =>
    case _ =>
      assert RankName(r)[..0] == "";
  }

  /** `toLowerCase` on the ASCII letters the suit and rank names use. */
  function LowerChar(c: char): char {
    if 'A' <= c <= 'Z' then (c as int - 'A' as int + 'a' as int) as char else c
  }

  function Lower(s: string): (t: string)
    ensures |t| == |s|
  {
    seq(|s|, i requires 0 <= i < |s| => LowerChar(s[i]))
  }

  /** The image path a card carries. */
  function ImagePath(suit: Suit, rank: Rank): string {
    "/PNG-cards-1.3/" + Lower(RankName(rank)) + "_of_" + Lower(SuitName(suit)) + ".png"
  }

  /** The path names the picture directory, the lower-cased rank and the
      lower-cased suit, joined by `_of_`, and ends in `.png`. */
  lemma ImagePathShape(suit: Suit, rank: Rank)
    ensures var p, r := ImagePath(suit, rank), Lower(RankName(rank));
      && p[..15] == "/PNG-cards-1.3/"
      && p[15..15 + |r|] == r
      && p[15 + |r|..19 + |r|] == "_of_"
      && p[19 + |r|..|p| - 4] == Lower(SuitName(suit))
      && p[|p| - 4..] == ".png"
  {
    var dir, r, of, t, ext := "/PNG-cards-1.3/", Lower(RankName(rank)), "_of_", Lower(SuitName(suit)), ".png";
    assert |dir| == 15 && |of| == 4 && |ext| == 4;
    assert ImagePath(suit, rank) == (((dir + r) + of) + t) + ext;
    PartsOfConcat(dir, r, of, t, ext);
  }

  /** Each of five concatenated parts is the slice at its own offset. */
  lemma PartsOfConcat<T>(a: seq<T>, b: seq<T>, c: seq<T>, d: seq<T>, e: seq<T>)
    ensures var p, i, j, k, l := (((a + b) + c) + d) + e, |a|, |a| + |b|, |a| + |b| + |c|, |a| + |b| + |c| + |d|;
      && p[..i] == a && p[i..j] == b && p[j..k] == c && p[k..l] == d && p[l..] == e
  {
  }

  /** The rank a lower-cased rank name starts with; every rank name starts
      with a different character. */
  function RankOfInitial(c: char): Rank {
    match c
    case '2' => Two case '3' => Three case '4' => Four case '5' => Five
    case '6' => Six case '7' => Seven case '8' => Eight case '9' => Nine
    case '1' => Ten case 'j' => Jack case 'q' => Queen case 'k' => King
    case _ => Ace
  }

  lemma RankInitial(rank: Rank)
    ensures |Lower(RankName(rank))| > 0
    ensures RankOfInitial(Lower(RankName(rank))[0]) == rank
  {
  }

  /** The suit a lower-cased suit name starts with. */
  function SuitOfInitial(c: char): Suit {
    match c
    case 'h' => Hearts case 'd' => Diamonds case 'c' => Clubs
    case _ => Spades
  }

  lemma SuitInitial(suit: Suit)
    ensures |Lower(SuitName(suit))| > 0
    ensures SuitOfInitial(Lower(SuitName(suit))[0]) == suit
  {
  }

  /** Different cards get different image paths: the character after the
      directory names the rank, which fixes where the suit starts, and the
      suit's first character names the suit. */
  lemma ImagesDistinct(c1: Card, c2: Card)
    ensures c1.Image() == c2.Image() <==> c1 == c2
  {
    if c1.Image() == c2.Image() {
      var p := c1.Image();
      var r1, r2 := Lower(RankName(c1.rank)), Lower(RankName(c2.rank));
      ImagePathShape(c1.suit, c1.rank);
      ImagePathShape(c2.suit, c2.rank);
      RankInitial(c1.rank);
      RankInitial(c2.rank);
      assert r1[0] == p[15] == r2[0];
      assert c1.rank == c2.rank;
      var t1, t2 := Lower(SuitName(c1.suit)), Lower(SuitName(c2.suit));
      SuitInitial(c1.suit);
      SuitInitial(c2.suit);
      assert t1[0] == p[19 + |r1|] == t2[0];
    }
  }

  /** The image of the Ace of Hearts. */
  lemma AceOfHeartsImage()
    ensures ImagePath(Hearts, Ace) == "/PNG-cards-1.3/ace_of_hearts.png"
  {
  }

  predicate Distinct<T(==)>(s: seq<T>) {
    forall i, j | 0 <= i < j < |s| :: s[i] != s[j]
  }

  /** The cards one pass of the inner loop pushes for `suit`, in order. */
  function Row(suit: Suit, ranks: seq<Rank>): (row: seq<Card>)
    ensures |row| == |ranks|
    ensures forall k | 0 <= k < |ranks| :: row[k] == Card(suit, ranks[k])
  {
    if ranks == [] then []
    else Row(suit, ranks[..|ranks| - 1]) + [Card(suit, ranks[|ranks| - 1])]
  }

  /** The cards the nested loops push, suit by suit. */
  function Cross(suits: seq<Suit>, ranks: seq<Rank>): seq<Card> {
    if suits == [] then []
    else Cross(suits[..|suits| - 1], ranks) + Row(suits[|suits| - 1], ranks)
  }

  lemma RowSnoc(suit: Suit, ranks: seq<Rank>, k: nat)
    requires k < |ranks|
    ensures Row(suit, ranks[..k + 1]) == Row(suit, ranks[..k]) + [Card(suit, ranks[k])]
  {
    assert ranks[..k + 1][..k] == ranks[..k];
  }

  lemma CrossSnoc(suits: seq<Suit>, ranks: seq<Rank>, k: nat)
    requires k < |suits|
    ensures Cross(suits[..k + 1], ranks) == Cross(suits[..k], ranks) + Row(suits[k], ranks)
  {
    assert suits[..k + 1][..k] == suits[..k];
  }

  /** The deck before shuffling. */
  function StandardDeck(): (d: seq<Card>)
    ensures |d| == 52
  {
    CrossLength(Suits, Ranks);
    Cross(Suits, Ranks)
  }

  lemma {:induction false} CrossLength(suits: seq<Suit>, ranks: seq<Rank>)
    ensures |Cross(suits, ranks)| == |suits| * |ranks|
  {
    if suits != [] {
      var n, m := |suits|, |ranks|;
      CrossLength(suits[..n - 1], ranks);
      assert |Cross(suits, ranks)| == (n - 1) * m + m;
      MulStep(n, m);
    }
  }

  lemma MulStep(n: int, m: int)
    ensures (n - 1) * m + m == n * m
  {
  }

  /** A card is pushed exactly when it is the card of a listed suit and rank. */
  lemma {:induction false} CrossMembers(suits: seq<Suit>, ranks: seq<Rank>, c: Card)
    ensures c in Cross(suits, ranks) <==> c.suit in suits && c.rank in ranks
  {
    if suits != [] {
      var init, last := suits[..|suits| - 1], suits[|suits| - 1];
      assert suits == init + [last];
      CrossMembers(init, ranks, c);
      if c in Row(last, ranks) {
        var k :| 0 <= k < |ranks| && Row(last, ranks)[k] == c;
        assert c == Card(last, ranks[k]);
      }
      if c.suit == last && c.rank in ranks {
        var k :| 0 <= k < |ranks| && ranks[k] == c.rank;
        assert Row(last, ranks)[k] == c;
      }
    }
  }

  lemma DistinctConcat<T>(a: seq<T>, b: seq<T>)
    requires Distinct(a) && Distinct(b)
    requires forall x | x in a :: x !in b
    ensures Distinct(a + b)
  {
    forall i, j | 0 <= i < j < |a + b|
      ensures (a + b)[i] != (a + b)[j]
    {
      if j >= |a| && i < |a| {
        assert (a + b)[i] in a && (a + b)[j] in b;
      }
    }
  }

  /** Distinct suits and distinct ranks give a deck without duplicates. */
  lemma {:induction false} CrossDistinct(suits: seq<Suit>, ranks: seq<Rank>)
    requires Distinct(suits) && Distinct(ranks)
    ensures Distinct(Cross(suits, ranks))
  {
    if suits != [] {
      var init, last := suits[..|suits| - 1], suits[|suits| - 1];
      CrossDistinct(init, ranks);
      var row := Row(last, ranks);
      forall x | x in Cross(init, ranks)
        ensures x !in row
      {
        CrossMembers(init, ranks, x);
        assert last !in init;
      }
      DistinctConcat(Cross(init, ranks), row);
    }
  }

  lemma {:induction false} DistinctCount<T>(s: seq<T>, x: T)
    requires Distinct(s) && x in s
    ensures multiset(s)[x] == 1
  {
    var init, last := s[..|s| - 1], s[|s| - 1];
    assert s == init + [last];
    if x == last {
      assert x !in init;
    } else {
      DistinctCount(init, x);
    }
  }

  /** The position of a rank in `Ranks`. */
  function RankIndex(r: Rank): nat {
    match r
    case Two => 0 case Three => 1 case Four => 2 case Five => 3 case Six => 4
    case Seven => 5 case Eight => 6 case Nine => 7 case Ten => 8
    case Jack => 9 case Queen => 10 case King => 11 case Ace => 12
  }

  lemma RanksDistinct()
    ensures Distinct(Ranks)
  {
    forall k | 0 <= k < |Ranks|
      ensures RankIndex(Ranks[k]) == k
    {
      if k < 4 {} else if k < 8 {} else if k < 12 {} else {}
    }
  }

  lemma AllListed(s: Suit, r: Rank)
    ensures s in Suits && r in Ranks
  {
  }

  /** `createDeck` lists exactly 52 cards, one for each (suit, rank) pair. */
  lemma StandardDeckFacts()
    ensures |StandardDeck()| == 52
    ensures Distinct(StandardDeck())
    ensures forall s: Suit, r: Rank :: multiset(StandardDeck())[Card(s, r)] == 1
  {
    CrossLength(Suits, Ranks);
    assert |Suits| == 4 && |Ranks| == 13;
    assert Distinct(Suits);
    RanksDistinct();
    CrossDistinct(Suits, Ranks);
    forall s: Suit, r: Rank
      ensures multiset(StandardDeck())[Card(s, r)] == 1
    {
      AllListed(s, r);
      CrossMembers(Suits, Ranks, Card(s, r));
      DistinctCount(StandardDeck(), Card(s, r));
    }
  }

  /** The cards of exactly one standard deck: every card once. */
  ghost predicate IsOneDeck(m: multiset<Card>) {
    forall c: Card :: m[c] == 1
  }

  lemma StandardDeckIsOneDeck()
    ensures IsOneDeck(multiset(StandardDeck()))
  {
    StandardDeckFacts();
    forall c: Card
      ensures multiset(StandardDeck())[c] == 1
    {
      assert c == Card(c.suit, c.rank);
    }
  }
}
