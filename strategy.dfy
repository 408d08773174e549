/** Hit/stand decisions (`Strategy`, `BasicStrategy`). */
module Strategy {
  import opened Cards
  import opened Hands

  /** What a strategy answers: stand, hit, or any other symbol, which the
      game rejects. */
  datatype Decision = Stand | Hit | Other(symbol: string)

  /** The basic strategy: stand as soon as some total is 16 or more, otherwise hit. */
  function BasicDecide(cards: seq<Card>): (d: Decision)
    ensures d == Stand || d == Hit
  {
    var vs := Values(cards);
    if exists k :: 0 <= k < |vs| && vs[k] >= 16 then Stand else Hit
  }

  /** The basic strategy stands exactly when the hand, counting every ace as
      11, reaches 16; it hits only while every total is below 16. */
  lemma BasicStandsIff(cards: seq<Card>)
    ensures BasicDecide(cards) == Stand <==> HighTotal(cards) >= 16
    ensures BasicDecide(cards) == Hit <==> forall k :: 0 <= k < |Values(cards)| ==> Values(cards)[k] < 16
  {
    ExtremeValues(cards);
    if HighTotal(cards) < 16 {
      forall k | 0 <= k < |Values(cards)|
        ensures Values(cards)[k] < 16
      {
        ValueBounds(cards, k);
      }
    }
  }

  /** The basic strategy hits only on hands that are under 16 with every ace at 11, so never on a busted hand. */
  lemma BasicHitsOnlyLowHands(cards: seq<Card>)
    requires BasicDecide(cards) == Hit
    ensures LowTotal(cards) <= HighTotal(cards) < 16
    ensures !Busted(cards)
  {
    BasicStandsIff(cards);
    ExtremeValues(cards);
    ValueBounds(cards, 0);
    BustedIff(cards);
  }
}
