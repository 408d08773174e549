/** The cards one player holds and what they are worth (`Hand`). */
module Hands {
  import opened Combination
  import opened Cards

  /** Total of a list of numbers, accumulated from the left starting at 0. */
  function Sum(xs: seq<int>): (s: int)
    ensures (forall i :: 0 <= i < |xs| ==> xs[i] >= 0) ==> s >= 0
  {
    if |xs| == 0 then 0 else Sum(xs[..|xs| - 1]) + xs[|xs| - 1]
  }

  /** The left-to-right total equals the first number plus the total of the rest. */
  lemma {:induction false} SumCons(x: int, xs: seq<int>)
    ensures Sum([x] + xs) == x + Sum(xs)
  {
    if |xs| > 0 {
      var ys := [x] + xs;
      assert ys[..|ys| - 1] == [x] + xs[..|xs| - 1];
      SumCons(x, xs[..|xs| - 1]);
    }
  }

  /** The candidate points of each card, card by card. */
  function PointLists(cards: seq<Card>): (r: seq<seq<int>>)
    ensures |r| == |cards|
  {
    seq(|cards|, i requires 0 <= i < |cards| => PointValues(cards[i]))
  }

  /** The sum of each tuple, tuple by tuple. */
  function Sums(tuples: seq<seq<int>>): (r: seq<int>)
    ensures |r| == |tuples|
  {
    seq(|tuples|, k requires 0 <= k < |tuples| => Sum(tuples[k]))
  }

  /** Every total the hand can make: one sum per combination of candidate
      points, in the order of the product; duplicates are kept. */
  function Values(cards: seq<Card>): (r: seq<int>)
    ensures |r| == Product(PointLists(cards))
  {
    Sums(Combine(PointLists(cards)))
  }

  /** The largest element of a non-empty list. */
  function Max(xs: seq<int>): (m: int)
    requires |xs| > 0
    ensures m in xs
    ensures forall i :: 0 <= i < |xs| ==> xs[i] <= m
  {
    if |xs| == 1 then xs[0]
    else
      var rest := Max(xs[1..]);
      assert forall i :: 1 <= i < |xs| ==> xs[i] == xs[1..][i - 1];
      if xs[0] < rest then rest else xs[0]
  }

  /** Every total is over 21. */
  predicate Busted(cards: seq<Card>): (b: bool)
    ensures b ==> |cards| > 0
  {
    var vs := Values(cards);
    assert |cards| == 0 ==> PointLists(cards) == [] && vs[0] == Sum([]);
    forall k :: 0 <= k < |vs| ==> vs[k] > 21
  }

  /** Exactly two cards whose largest total is 21. */
  predicate IsBlackjack(cards: seq<Card>): (b: bool)
    ensures b ==> !Busted(cards)
  {
    |cards| == 2 && |Values(cards)| > 0 && Max(Values(cards)) == 21
  }

  function AceCount(cards: seq<Card>): nat
  {
    if |cards| == 0 then 0 else (if IsAce(cards[0]) then 1 else 0) + AceCount(cards[1..])
  }

  function Pow2(n: nat): nat
  {
    if n == 0 then 1 else 2 * Pow2(n - 1)
  }

  /** The total with every card at its smallest candidate (aces as 1). */
  function LowTotal(cards: seq<Card>): int
  {
    if |cards| == 0 then 0 else LowPoint(cards[0]) + LowTotal(cards[1..])
  }

  /** The total with every card at its largest candidate (aces as 11). */
  function HighTotal(cards: seq<Card>): int
  {
    if |cards| == 0 then 0 else HighPoint(cards[0]) + HighTotal(cards[1..])
  }

  lemma PointListsTail(cards: seq<Card>)
    requires |cards| > 0
    ensures PointLists(cards)[1..] == PointLists(cards[1..])
    ensures PointLists(cards)[0] == PointValues(cards[0])
  {
  }

  /** A hand has one total per way of counting its aces: 2 to the number of aces. */
  lemma {:induction false} ValuesCount(cards: seq<Card>)
    ensures |Values(cards)| == Pow2(AceCount(cards))
    ensures |Values(cards)| > 0
  {
    ProductOfPoints(cards);
  }

  lemma {:induction false} ProductOfPoints(cards: seq<Card>)
    ensures Product(PointLists(cards)) == Pow2(AceCount(cards)) > 0
  {
    if |cards| > 0 {
      PointListsTail(cards);
      ProductOfPoints(cards[1..]);
    }
  }

  /** The sum of a choice of one candidate per card lies between the low and high totals. */
  lemma {:induction false} ChoiceSumBounds(cards: seq<Card>, idx: seq<nat>)
    requires IsChoice(PointLists(cards), idx)
    ensures LowTotal(cards) <= Sum(Pick(PointLists(cards), idx)) <= HighTotal(cards)
  {
    var pl := PointLists(cards);
    if |cards| == 0 {
      assert Pick(pl, idx) == [];
    } else {
      PickCons(pl, idx);
      PointListsTail(cards);
      ChoiceSumBounds(cards[1..], idx[1..]);
      SumCons(pl[0][idx[0]], Pick(pl[1..], idx[1..]));
    }
  }

  /** Choosing the first candidate of every card sums to the low total. */
  lemma {:induction false} LowChoiceSum(cards: seq<Card>, lo: seq<nat>)
    requires |lo| == |cards| && forall i :: 0 <= i < |cards| ==> lo[i] == 0
    ensures IsChoice(PointLists(cards), lo)
    ensures Sum(Pick(PointLists(cards), lo)) == LowTotal(cards)
  {
    var pl := PointLists(cards);
    if |cards| == 0 {
      assert Pick(pl, lo) == [];
    } else {
      PointListsTail(cards);
      LowChoiceSum(cards[1..], lo[1..]);
      PickCons(pl, lo);
      SumCons(pl[0][lo[0]], Pick(pl[1..], lo[1..]));
    }
  }

  /** Choosing the last candidate of every card sums to the high total. */
  lemma {:induction false} HighChoiceSum(cards: seq<Card>, hi: seq<nat>)
    requires |hi| == |cards| && forall i :: 0 <= i < |cards| ==> hi[i] == |PointValues(cards[i])| - 1
    ensures IsChoice(PointLists(cards), hi)
    ensures Sum(Pick(PointLists(cards), hi)) == HighTotal(cards)
  {
    var pl := PointLists(cards);
    assert IsChoice(pl, hi) by {
      forall i | 0 <= i < |cards|
        ensures hi[i] < |pl[i]|
      {
        assert pl[i] == PointValues(cards[i]);
      }
    }
    if |cards| == 0 {
      assert Pick(pl, hi) == [];
    } else {
      PointListsTail(cards);
      var tail := cards[1..];
      forall i | 0 <= i < |tail|
        ensures hi[1..][i] == |PointValues(tail[i])| - 1
      {
        assert hi[1..][i] == hi[i + 1] && tail[i] == cards[i + 1];
      }
      HighChoiceSum(tail, hi[1..]);
      PickCons(pl, hi);
      SumCons(pl[0][hi[0]], Pick(pl[1..], hi[1..]));
    }
  }

  /** Every total is the sum of one chosen candidate per card. */
  lemma ValueIsChoiceSum(cards: seq<Card>, k: nat)
    requires k < |Values(cards)|
    ensures IsChoice(PointLists(cards), Digits(PointLists(cards), k))
    ensures Values(cards)[k] == Sum(Pick(PointLists(cards), Digits(PointLists(cards), k)))
  {
    CombineElement(PointLists(cards), k);
  }

  /** Every total lies between the low and the high total. */
  lemma ValueBounds(cards: seq<Card>, k: nat)
    requires k < |Values(cards)|
    ensures LowTotal(cards) <= Values(cards)[k] <= HighTotal(cards)
  {
    ValueIsChoiceSum(cards, k);
    ChoiceSumBounds(cards, Digits(PointLists(cards), k));
  }

  /** The first total counts every ace as 1; the high total is among the totals. */
  lemma ExtremeValues(cards: seq<Card>)
    ensures |Values(cards)| > 0 && Values(cards)[0] == LowTotal(cards)
    ensures HighTotal(cards) in Values(cards)
  {
    var pl := PointLists(cards);
    var lo := seq(|cards|, i requires 0 <= i < |cards| => 0 as nat);
    var hi := seq(|cards|, i requires 0 <= i < |cards| => (|PointValues(cards[i])| - 1) as nat);
    LowChoiceSum(cards, lo);
    HighChoiceSum(cards, hi);
    CombineAt(pl, lo);
    CombineAt(pl, hi);
    PositionOfFirsts(pl, lo);
    assert Values(cards)[Position(pl, hi)] == HighTotal(cards);
  }

  /** The largest total counts every ace as 11. */
  lemma MaxValue(cards: seq<Card>)
    ensures |Values(cards)| > 0 && Max(Values(cards)) == HighTotal(cards)
  {
    ExtremeValues(cards);
    var vs := Values(cards);
    var m := Max(vs);
    var k :| 0 <= k < |vs| && vs[k] == m;
    ValueBounds(cards, k);
  }

  /** An empty hand is worth exactly 0. */
  lemma EmptyHandValues()
    ensures Values([]) == [0]
  {
    ValuesCount([]);
    ExtremeValues([]);
  }

  /** Without aces a hand has a single total, the sum of its cards. */
  lemma NoAceValues(cards: seq<Card>)
    requires AceCount(cards) == 0
    ensures Values(cards) == [LowTotal(cards)]
    ensures LowTotal(cards) == HighTotal(cards)
  {
    ValuesCount(cards);
    ExtremeValues(cards);
    var vs := Values(cards);
    assert vs == [vs[0]];
  }

  /** The totals of a hand whose all-aces-as-1 total is `low` and which
      holds `aces` aces, in product order: first every total with the
      first ace as 1, then every total with it as 11. */
  function AceTotals(low: int, aces: nat): (r: seq<int>)
    decreases aces
    ensures |r| == Pow2(aces)
  {
    if aces == 0 then [low] else AceTotals(low, aces - 1) + AceTotals(low + 10, aces - 1)
  }

  /** Every number of `xs` raised by `d`. */
  function Shifted(xs: seq<int>, d: int): (r: seq<int>)
    ensures |r| == |xs|
  {
    seq(|xs|, i requires 0 <= i < |xs| => xs[i] + d)
  }

  /** For each candidate in turn, every total of the rest raised by it:
      the totals of a hand given its first card's candidates. */
  function ShiftAll(heads: seq<int>, totals: seq<int>): seq<int>
  {
    if |heads| == 0 then [] else Shifted(totals, heads[0]) + ShiftAll(heads[1..], totals)
  }

  lemma SumsAppend(a: seq<seq<int>>, b: seq<seq<int>>)
    ensures Sums(a + b) == Sums(a) + Sums(b)
  {
  }

  lemma ShiftedAppend(a: seq<int>, b: seq<int>, d: int)
    ensures Shifted(a + b, d) == Shifted(a, d) + Shifted(b, d)
  {
  }

  /** Putting `x` in front of every tuple raises every sum by `x`. */
  lemma SumsPrependAll(x: int, tails: seq<seq<int>>)
    ensures Sums(PrependAll(x, tails)) == Shifted(Sums(tails), x)
  {
    forall k | 0 <= k < |tails|
      ensures Sums(PrependAll(x, tails))[k] == Shifted(Sums(tails), x)[k]
    {
      SumCons(x, tails[k]);
    }
  }

  /** Summing the product with a given first list is shifting the sums of
      the product of the rest by each of its elements. */
  lemma {:induction false} SumsFlatPrepend(heads: seq<int>, tails: seq<seq<int>>)
    ensures Sums(FlatPrepend(heads, tails)) == ShiftAll(heads, Sums(tails))
  {
    if |heads| > 0 {
      SumsAppend(PrependAll(heads[0], tails), FlatPrepend(heads[1..], tails));
      SumsPrependAll(heads[0], tails);
      SumsFlatPrepend(heads[1..], tails);
    }
  }

  /** The totals of a hand from those of the hand without its first card. */
  lemma ValuesCons(cards: seq<Card>)
    requires |cards| > 0
    ensures Values(cards) == ShiftAll(PointValues(cards[0]), Values(cards[1..]))
  {
    PointListsTail(cards);
    SumsFlatPrepend(PointValues(cards[0]), Combine(PointLists(cards[1..])));
  }

  /** Raising the totals by `d` is raising the all-aces-as-1 total by `d`. */
  lemma {:induction false} ShiftedTotals(low: int, aces: nat, d: int)
    decreases aces
    ensures Shifted(AceTotals(low, aces), d) == AceTotals(low + d, aces)
  {
    if aces > 0 {
      ShiftedAppend(AceTotals(low, aces - 1), AceTotals(low + 10, aces - 1), d);
      ShiftedTotals(low, aces - 1, d);
      ShiftedTotals(low + 10, aces - 1, d);
    }
  }

  /** A hand's totals depend only on its all-aces-as-1 total and its number
      of aces: which cards it holds, and in which order, matters no further. */
  lemma {:induction false} ValuesClosedForm(cards: seq<Card>)
    ensures Values(cards) == AceTotals(LowTotal(cards), AceCount(cards))
  {
    if |cards| == 0 {
      EmptyHandValues();
      assert cards == [];
    } else {
      var c, rest := cards[0], cards[1..];
      assert LowTotal(cards) == LowPoint(c) + LowTotal(rest);
      assert AceCount(cards) == (if IsAce(c) then 1 else 0) + AceCount(rest);
      ValuesCons(cards);
      ValuesClosedForm(rest);
      ConsTotals(c, LowTotal(rest), AceCount(rest));
    }
  }

  /** The closed form survives putting one more card in front. */
  lemma ConsTotals(c: Card, low: int, aces: nat)
    ensures ShiftAll(PointValues(c), AceTotals(low, aces)) ==
              AceTotals(LowPoint(c) + low, (if IsAce(c) then 1 else 0) + aces)
  {
    var totals := AceTotals(low, aces);
    if IsAce(c) {
      assert PointValues(c) == [1, 11];
      assert [1, 11][1..] == [11] && [11][1..] == [];
      assert ShiftAll([11], totals) == Shifted(totals, 11) + ShiftAll([], totals);
      assert ShiftAll([1, 11], totals) == Shifted(totals, 1) + ShiftAll([11], totals);
      ShiftedTotals(low, aces, 1);
      ShiftedTotals(low, aces, 11);
    } else {
      assert ShiftAll(PointValues(c), totals) == Shifted(totals, LowPoint(c)) + [];
      ShiftedTotals(low, aces, LowPoint(c));
    }
  }

  /** Taking out the card at position `i` lowers the all-aces-as-1 total by
      its smallest candidate and the ace count by one if it is an ace. */
  lemma {:induction false} RemoveCard(cards: seq<Card>, i: nat)
    requires i < |cards|
    ensures LowTotal(cards) == LowPoint(cards[i]) + LowTotal(cards[..i] + cards[i + 1..])
    ensures AceCount(cards) == (if IsAce(cards[i]) then 1 else 0) + AceCount(cards[..i] + cards[i + 1..])
  {
    if i == 0 {
      assert cards[..0] + cards[1..] == cards[1..];
    } else {
      var rest := cards[1..];
      RemoveCard(rest, i - 1);
      assert cards[..i] + cards[i + 1..] == [cards[0]] + (rest[..i - 1] + rest[i..]);
    }
  }

  /** The all-aces-as-1 total and the ace count do not depend on the order
      of the cards. */
  lemma {:induction false} ReorderTotals(a: seq<Card>, b: seq<Card>)
    requires multiset(a) == multiset(b)
    decreases |a|
    ensures LowTotal(a) == LowTotal(b) && AceCount(a) == AceCount(b)
  {
    assert |a| == |multiset(a)| == |multiset(b)| == |b|;
    if |a| > 0 {
      assert a[0] in multiset(b);
      var i :| 0 <= i < |b| && b[i] == a[0];
      var rest := b[..i] + b[i + 1..];
      RemoveFirst(a, b, i);
      RemoveCard(b, i);
      ReorderTotals(a[1..], rest);
    }
  }

  /** Matching the first card of `a` with card `i` of `b` leaves the same
      cards on both sides. */
  lemma RemoveFirst(a: seq<Card>, b: seq<Card>, i: nat)
    requires multiset(a) == multiset(b) && |a| > 0 && i < |b| && b[i] == a[0]
    ensures multiset(a[1..]) == multiset(b[..i] + b[i + 1..])
  {
    assert a == [a[0]] + a[1..];
    assert b == b[..i] + [b[i]] + b[i + 1..];
    var one, tail := multiset{a[0]}, multiset(a[1..]);
    var left, right := multiset(b[..i]), multiset(b[i + 1..]);
    assert multiset(a) == one + tail;
    assert multiset(a) == left + one + right;
    assert multiset(b[..i] + b[i + 1..]) == left + right;
    forall z
      ensures tail[z] == (left + right)[z]
    {
      assert (one + tail)[z] == (left + one + right)[z];
    }
  }

  /** A hand's value does not depend on the order of its cards: the same
      cards in any order give the same totals, in the same order, and so
      the same busted and blackjack verdicts. */
  lemma ValuesReorder(a: seq<Card>, b: seq<Card>)
    requires multiset(a) == multiset(b)
    ensures Values(a) == Values(b)
    ensures Busted(a) <==> Busted(b)
    ensures IsBlackjack(a) <==> IsBlackjack(b)
  {
    assert |a| == |multiset(a)| == |multiset(b)| == |b|;
    ReorderTotals(a, b);
    ValuesClosedForm(a);
    ValuesClosedForm(b);
  }

  /** A hand is busted exactly when even counting every ace as 1 it is over 21;
      in particular an empty hand is never busted. */
  lemma BustedIff(cards: seq<Card>)
    ensures Busted(cards) <==> LowTotal(cards) > 21
    ensures !Busted([])
  {
    ExtremeValues(cards);
    ExtremeValues([]);
    if LowTotal(cards) > 21 {
      forall k | 0 <= k < |Values(cards)|
        ensures Values(cards)[k] > 21
      {
        ValueBounds(cards, k);
      }
    }
  }

  /** The blackjack rule as written: two cards whose total with every ace
      at 11 is 21. */
  lemma BlackjackIff(cards: seq<Card>)
    ensures IsBlackjack(cards) <==> |cards| == 2 && HighTotal(cards) == 21
  {
    MaxValue(cards);
  }

  /** On real ranks a blackjack is an ace and a ten-point card, and judging
      two cards by their largest total or by whether 21 is reachable at all
      agrees. */
  lemma BlackjackTwoCards(cards: seq<Card>)
    requires |cards| == 2 && ValidCard(cards[0]) && ValidCard(cards[1])
    ensures IsBlackjack(cards) <==>
              (IsAce(cards[0]) && HighPoint(cards[1]) == 10) || (IsAce(cards[1]) && HighPoint(cards[0]) == 10)
    ensures IsBlackjack(cards) <==> 21 in Values(cards)
  {
    BlackjackIff(cards);
    ExtremeValues(cards);
    ValidPoints(cards[0]);
    ValidPoints(cards[1]);
    assert cards[1..][1..] == [];
    assert HighTotal(cards[1..]) == HighPoint(cards[1]);
    if 21 in Values(cards) {
      var k :| 0 <= k < |Values(cards)| && Values(cards)[k] == 21;
      TwoCardValue(cards, k);
    }
  }

  /** A total of a two-card hand is one candidate of each card added together. */
  lemma TwoCardValue(cards: seq<Card>, k: nat)
    requires |cards| == 2 && k < |Values(cards)|
    ensures exists i, j :: 0 <= i < |PointValues(cards[0])| && 0 <= j < |PointValues(cards[1])| &&
              Values(cards)[k] == PointValues(cards[0])[i] + PointValues(cards[1])[j]
  {
    var pl := PointLists(cards);
    var idx := Digits(pl, k);
    ValueIsChoiceSum(cards, k);
    PickCons(pl, idx);
    PickCons(pl[1..], idx[1..]);
    assert Pick(pl[1..][1..], idx[1..][1..]) == [];
    SumCons(pl[1][idx[1]], []);
    SumCons(pl[0][idx[0]], [pl[1][idx[1]]]);
    assert Values(cards)[k] == pl[0][idx[0]] + pl[1][idx[1]];
  }

  /** Drawing a card raises the low total by that card's smallest candidate. */
  lemma {:induction false} LowTotalAppend(cards: seq<Card>, c: Card)
    ensures LowTotal(cards + [c]) == LowTotal(cards) + LowPoint(c)
  {
    if |cards| > 0 {
      assert (cards + [c])[1..] == cards[1..] + [c];
      LowTotalAppend(cards[1..], c);
    }
  }

  /** In a two-card hand, candidate `a` of the first card with candidate `b`
      of the second gives the total at position `a * |second's candidates| + b`. */
  lemma TwoCardChoice(cards: seq<Card>, a: nat, b: nat)
    requires |cards| == 2 && a < |PointValues(cards[0])| && b < |PointValues(cards[1])|
    ensures a * |PointValues(cards[1])| + b < |Values(cards)|
    ensures Values(cards)[a * |PointValues(cards[1])| + b] == PointValues(cards[0])[a] + PointValues(cards[1])[b]
  {
    var pl := PointLists(cards);
    var idx: seq<nat> := [a, b];
    assert IsChoice(pl, idx);
    CombineAt(pl, idx);
    PickCons(pl, idx);
    PickCons(pl[1..], idx[1..]);
    assert Position(pl, idx) == a * |pl[1]| + b by {
      assert Position(pl[1..][1..], idx[1..][1..]) == 0;
    }
    assert Pick(pl[1..][1..], idx[1..][1..]) == [];
    SumCons(pl[1][b], []);
    SumCons(pl[0][a], [pl[1][b]]);
  }

  /** No card has a negative candidate, so no hand has a negative low total. */
  lemma {:induction false} LowTotalNonnegative(cards: seq<Card>)
    ensures LowTotal(cards) >= 0
  {
    if |cards| > 0 {
      LowTotalNonnegative(cards[1..]);
    }
  }

  /** Two aces make four totals, in the order of the product, duplicates kept. */
  lemma TwoAcesValues()
    ensures Values([Card("A", "S"), Card("A", "C")]) == [2, 12, 12, 22]
  {
    var aa := [Card("A", "S"), Card("A", "C")];
    ValuesCount(aa);
    TwoCardChoice(aa, 0, 0);
    TwoCardChoice(aa, 0, 1);
    TwoCardChoice(aa, 1, 0);
    TwoCardChoice(aa, 1, 1);
    var vs := Values(aa);
    assert vs == [vs[0], vs[1], vs[2], vs[3]];
  }

  /** Ace and king is a blackjack; three cards never are, even totalling 21. */
  lemma BlackjackExamples()
    ensures IsBlackjack([Card("A", "S"), Card("K", "D")])
    ensures !IsBlackjack([Card("A", "S"), Card("A", "C"), Card("9", "D")])
  {
    var ak := [Card("A", "S"), Card("K", "D")];
    BlackjackIff(ak);
    assert ak[1..][1..] == [];
  }

  /** King, queen and five is busted. */
  lemma BustedExample()
    ensures Busted([Card("K", "S"), Card("Q", "C"), Card("5", "D")])
  {
    var kq5 := [Card("K", "S"), Card("Q", "C"), Card("5", "D")];
    BustedIff(kq5);
    NumeralRanks();
    assert kq5[1..][1..][1..] == [];
  }

  /** Ace, nine and queen is not busted: the ace can count 1. */
  lemma NotBustedExample()
    ensures !Busted([Card("A", "S"), Card("9", "C"), Card("Q", "D")])
  {
    var a9q := [Card("A", "S"), Card("9", "C"), Card("Q", "D")];
    BustedIff(a9q);
    NumeralRanks();
    assert a9q[1..][1..][1..] == [];
  }

  /** The cards a player currently holds. */
  class Hand {
    var cards: seq<Card>

    constructor ()
      ensures cards == []
    {
      cards := [];
    }

    method TakeCard(c: Card)
      modifies this
      ensures cards == old(cards) + [c]
    {
      cards := cards + [c];
    }
  }
}
