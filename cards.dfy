/** Playing cards and the points each one can contribute (`Card`). */
module Cards {

  /** A card; `value` is the rank as the source spells it ("A", "2", ..., "10", "J", "Q", "K"). */
  datatype Card = Card(value: string, suit: string)

  const VALUES: seq<string> := ["A", "2", "3", "4", "5", "6", "7", "8", "9", "10", "J", "Q", "K"]
  const FACES: seq<string> := ["J", "Q", "K"]
  const SUITS: seq<string> := ["C", "S", "A", "D"]

  /** A card whose rank is one of the thirteen ranks of a deck. */
  ghost predicate ValidCard(c: Card)
  {
    c.value in VALUES
  }

  /** A deck (or what is left of one) made only of such cards. */
  ghost predicate ValidDeck(deck: seq<Card>)
  {
    forall k :: 0 <= k < |deck| ==> ValidCard(deck[k])
  }

  predicate IsAce(c: Card): (b: bool)
    ensures b ==> |c.value| > 0 && !IsDigit(c.value[0]) && !IsFace(c)
  {
    c.value == "A"
  }

  predicate IsFace(c: Card): (b: bool)
    ensures b ==> |c.value| > 0 && !IsDigit(c.value[0])
  {
    c.value in FACES
  }

  predicate IsDigit(ch: char)
  {
    '0' <= ch <= '9'
  }

  /** Continue reading decimal digits after the number `acc` read so far. */
  function LeadingNumber(s: string, acc: nat): nat
    decreases |s|
  {
    if |s| == 0 || !IsDigit(s[0]) then acc
    else LeadingNumber(s[1..], acc * 10 + (s[0] as int - '0' as int))
  }

  /** String-to-integer conversion: the value of the leading decimal digits, 0 if there are none. */
  function ToI(s: string): (n: nat)
    ensures |s| == 0 || !IsDigit(s[0]) ==> n == 0
  {
    LeadingNumber(s, 0)
  }

  /** The numeral ranks read as the numbers they name. */
  lemma NumeralRanks()
    ensures ToI("2") == 2 && ToI("3") == 3 && ToI("4") == 4 && ToI("5") == 5
    ensures ToI("6") == 6 && ToI("7") == 7 && ToI("8") == 8 && ToI("9") == 9
    ensures ToI("10") == 10
    ensures ToI("A") == 0 && ToI("J") == 0
  {
    assert LeadingNumber("10", 0) == LeadingNumber("0", 1) == LeadingNumber("", 10);
  }

  /** The candidate points of a card: an ace counts 1 or 11, a face card 10,
      any other rank its number. */
  function PointValues(c: Card): (r: seq<int>)
    ensures |r| == (if IsAce(c) then 2 else 1)
    ensures forall i :: 0 <= i < |r| ==> 0 <= r[0] <= r[i] <= r[|r| - 1]
  {
    if IsAce(c) then [1, 11]
    else if IsFace(c) then [10]
    else [ToI(c.value)]
  }

  /** The smallest and largest candidate points of a card. */
  function LowPoint(c: Card): int
  {
    PointValues(c)[0]
  }

  function HighPoint(c: Card): int
  {
    PointValues(c)[|PointValues(c)| - 1]
  }

  /** On the thirteen ranks: aces give 1 or 11, face cards 10, numerals
      their number; so every card is worth between 1 and 11, and only an
      ace is worth more than 10. */
  lemma {:induction false} ValidPoints(c: Card)
    requires ValidCard(c)
    ensures IsAce(c) ==> PointValues(c) == [1, 11]
    ensures IsFace(c) ==> PointValues(c) == [10]
    ensures !IsAce(c) ==> |PointValues(c)| == 1 && 2 <= LowPoint(c) == HighPoint(c) <= 10
    ensures 1 <= LowPoint(c) <= HighPoint(c) <= 11
    ensures c.value == "10" ==> PointValues(c) == [10]
  {
    NumeralRanks();
    var v := c.value;
    assert v == "A" || v == "2" || v == "3" || v == "4" || v == "5" || v == "6" || v == "7"
        || v == "8" || v == "9" || v == "10" || v == "J" || v == "Q" || v == "K";
  }

  /** A card with a numeral rank is worth exactly its number. */
  lemma NumeralPoints(c: Card, n: nat)
    requires 2 <= n <= 10 && c.value == VALUES[n - 1]
    ensures PointValues(c) == [n]
  {
    NumeralRanks();
  }

  /** Every (rank, suit) pair in rank-major order: the deck before shuffling. */
  function OrderedDeck(): (d: seq<Card>)
    ensures |d| == |VALUES| * |SUITS| == 52
    ensures forall k :: 0 <= k < |d| ==> ValidCard(d[k])
  {
    seq(52, k requires 0 <= k < 52 => Card(VALUES[k / 4], SUITS[k % 4]))
  }

  /** Rank `v` with suit `s` sits at position `v * 4 + s` of the unshuffled
      deck, so each of the 52 pairs appears in it. */
  lemma OrderedDeckAt(v: nat, s: nat)
    requires v < |VALUES| && s < |SUITS|
    ensures v * 4 + s < |OrderedDeck()|
    ensures OrderedDeck()[v * 4 + s] == Card(VALUES[v], SUITS[s])
  {
    var k := v * 4 + s;
    assert k < 52;
    assert k / 4 == v && k % 4 == s;
    assert OrderedDeck()[k] == Card(VALUES[k / 4], SUITS[k % 4]);
  }

  /** Any shuffle of the unshuffled deck is 52 real cards. */
  lemma ShuffledDeck(deck: seq<Card>)
    requires multiset(deck) == multiset(OrderedDeck())
    ensures |deck| == 52 && ValidDeck(deck)
  {
    assert |deck| == |multiset(deck)| == |multiset(OrderedDeck())|;
    forall k | 0 <= k < |deck|
      ensures ValidCard(deck[k])
    {
      assert deck[k] in multiset(deck);
      var j :| 0 <= j < |OrderedDeck()| && OrderedDeck()[j] == deck[k];
    }
  }
}
