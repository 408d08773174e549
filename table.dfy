/** Players, the session that owns the deck, and one game: dealing and the
    rubes' hit/stand loop (`Player`, `Session`, `Game`). */
module Table {
  import opened Cards
  import opened Hands
  import opened Strategy

  /** Why play stops: `BlackjackError` for a player without exactly one hand
      or an unknown decision, and a draw from an empty deck. */
  datatype Error = NotOneHand(size: nat) | UnknownDecision(symbol: string) | EmptyDeck

  datatype Result<T> = Ok(value: T) | Err(error: Error)

  /** How a rube's turn ends: `:stand` or `:busted`. */
  datatype HandOutcome = Stood | BustedOut

  /** The outcome of a rube's turn together with the hand and deck it leaves. */
  datatype Turn = Turn(result: Result<HandOutcome>, cards: seq<Card>, deck: seq<Card>)

  /** How a game ends: early on a dealer blackjack, or after every rube's turn. */
  datatype PlayResult = DealerBlackjack | RubesPlayed

  /** The `count` cards popped off the end of `deck` after `from` cards were
      already popped, in the order they are popped. */
  function Drawn(deck: seq<Card>, from: nat, count: nat): (r: seq<Card>)
    requires from + count <= |deck|
    ensures |r| == count
    ensures forall t :: 0 <= t < count ==> r[t] == deck[|deck| - 1 - from - t]
  {
    seq(count, t requires 0 <= t < count => deck[|deck| - 1 - from - t])
  }

  lemma DrawnStep(deck: seq<Card>, from: nat, count: nat)
    requires from + count < |deck|
    ensures Drawn(deck, from, count + 1) == Drawn(deck, from, count) + [deck[|deck| - 1 - from - count]]
  {
  }

  lemma DrawnShift(deck: seq<Card>, from: nat, count: nat)
    requires from + count <= |deck|
    ensures Drawn(deck[..|deck| - from], 0, count) == Drawn(deck, from, count)
  {
  }

  lemma DrawnTop(deck: seq<Card>, count: nat)
    requires count < |deck|
    ensures Drawn(deck, 0, count + 1) == [deck[|deck| - 1]] + Drawn(deck[..|deck| - 1], 0, count)
  {
  }

  /** A rube's turn: ask the strategy; on stand stop, on hit pop the top
      card into the hand and stop if the hand is busted, on anything else
      fail.  Popping from an empty deck fails. */
  function RubeTurn(cards: seq<Card>, deck: seq<Card>, decide: seq<Card> -> Decision): (turn: Turn)
    decreases |deck|
    ensures |turn.deck| <= |deck| && turn.deck == deck[..|turn.deck|]
    ensures turn.cards == cards + Drawn(deck, 0, |deck| - |turn.deck|)
    ensures decide(cards) == Stand ==> turn == Turn(Ok(Stood), cards, deck)
    ensures turn.result == Ok(Stood) ==> decide(turn.cards) == Stand
    ensures turn.result == Ok(BustedOut) ==> Busted(turn.cards) && |turn.deck| < |deck|
    ensures turn.result == Err(EmptyDeck) ==> turn.deck == [] && decide(turn.cards) == Hit
    ensures turn.result.Err? && turn.result.error.UnknownDecision? ==>
              decide(turn.cards) == Other(turn.result.error.symbol)
    ensures turn.result.Err? ==> !turn.result.error.NotOneHand?
  {
    match decide(cards)
    case Stand => Turn(Ok(Stood), cards, deck)
    case Other(symbol) => Turn(Err(UnknownDecision(symbol)), cards, deck)
    case Hit =>
      if |deck| == 0 then Turn(Err(EmptyDeck), cards, deck)
      else
        var hand := cards + [deck[|deck| - 1]];
        var rest := deck[..|deck| - 1];
        if Busted(hand) then
          DrawnTop(deck, 0);
          Turn(Ok(BustedOut), hand, rest)
        else
          var turn := RubeTurn(hand, rest, decide);
          DrawnTop(deck, |rest| - |turn.deck|);
          turn
  }

  /** The loop asks before every card and stops at the first bust: every
      card of a turn was drawn on a hit, the hand before each draw after
      the first was not busted, a hand that did not bust out is not busted,
      and an unknown decision fails at once without drawing. */
  lemma {:induction false} RubeTurnSteps(cards: seq<Card>, deck: seq<Card>, decide: seq<Card> -> Decision)
    decreases |deck|
    ensures var turn := RubeTurn(cards, deck, decide);
            var n := |deck| - |turn.deck|;
            && (decide(cards).Other? ==> turn == Turn(Err(UnknownDecision(decide(cards).symbol)), cards, deck))
            && (forall t :: 0 <= t < n ==> decide(cards + Drawn(deck, 0, t)) == Hit)
            && (forall t :: 1 <= t < n ==> !Busted(cards + Drawn(deck, 0, t)))
            && (n > 0 && turn.result != Ok(BustedOut) ==> !Busted(turn.cards))
  {
    var turn := RubeTurn(cards, deck, decide);
    var n := |deck| - |turn.deck|;
    DrawnAfter(cards, deck, 0);
    if decide(cards) == Hit && |deck| > 0 {
      var hand := cards + [deck[|deck| - 1]];
      var rest := deck[..|deck| - 1];
      if !Busted(hand) {
        assert turn == RubeTurn(hand, rest, decide);
        RubeTurnSteps(hand, rest, decide);
        DrawnAfterEach(cards, deck, n);
        DrawnAfter(hand, rest, 0);
      }
    }
  }

  /** `DrawnAfter` for every count up to `n`. */
  lemma DrawnAfterEach(cards: seq<Card>, deck: seq<Card>, n: nat)
    requires n <= |deck|
    ensures forall t :: 1 <= t < n ==>
              cards + Drawn(deck, 0, t) == (cards + [deck[|deck| - 1]]) + Drawn(deck[..|deck| - 1], 0, t - 1)
  {
    forall t | 1 <= t < n
      ensures cards + Drawn(deck, 0, t) == (cards + [deck[|deck| - 1]]) + Drawn(deck[..|deck| - 1], 0, t - 1)
    {
      DrawnAfter(cards, deck, t);
    }
  }

  /** The hand after drawing `count` cards, seen from before or after the
      first draw. */
  lemma DrawnAfter(cards: seq<Card>, deck: seq<Card>, count: nat)
    requires count <= |deck|
    ensures count == 0 ==> cards + Drawn(deck, 0, count) == cards
    ensures count > 0 ==>
              cards + Drawn(deck, 0, count) == (cards + [deck[|deck| - 1]]) + Drawn(deck[..|deck| - 1], 0, count - 1)
  {
    if count > 0 {
      DrawnTop(deck, count - 1);
    } else {
      assert Drawn(deck, 0, 0) == [];
    }
  }

  /** Under the basic strategy, with real cards and enough of them, a turn
      ends by standing on 16 or more or by busting, and draws at most as
      many cards as the low total is short of 16. */
  lemma {:induction false} BasicTurnEnds(cards: seq<Card>, deck: seq<Card>)
    requires ValidDeck(deck) && LowTotal(cards) + |deck| >= 16
    decreases |deck|
    ensures var turn := RubeTurn(cards, deck, BasicDecide);
              (turn.result == Ok(Stood) && HighTotal(turn.cards) >= 16) ||
              (turn.result == Ok(BustedOut) && LowTotal(turn.cards) > 21)
    ensures |deck| - |RubeTurn(cards, deck, BasicDecide).deck| <=
              (if LowTotal(cards) >= 16 then 0 else 16 - LowTotal(cards))
  {
    BasicStandsIff(cards);
    if BasicDecide(cards) == Hit {
      BasicHitsOnlyLowHands(cards);
      var c := deck[|deck| - 1];
      var hand := cards + [c];
      var rest := deck[..|deck| - 1];
      ValidPoints(c);
      LowTotalAppend(cards, c);
      BustedIff(hand);
      if !Busted(hand) {
        BasicTurnEnds(hand, rest);
      }
    }
  }

  /** Under the basic strategy no decision is ever unknown: a turn fails
      only by running out of cards. */
  lemma BasicTurnNeverUnknown(cards: seq<Card>, deck: seq<Card>)
    ensures RubeTurn(cards, deck, BasicDecide).result.Err? ==>
              RubeTurn(cards, deck, BasicDecide).result.error == EmptyDeck
  {
  }

  /** The cards popped off a deck together with what is left are the deck. */
  lemma {:induction false} DrawnMultiset(deck: seq<Card>, n: nat)
    requires n <= |deck|
    ensures multiset(Drawn(deck, 0, n)) + multiset(deck[..|deck| - n]) == multiset(deck)
  {
    if n == 0 {
      assert deck[..|deck|] == deck;
    } else {
      var k := |deck| - n;
      var top := [deck[k]];
      DrawnMultiset(deck, n - 1);
      DrawnStep(deck, 0, n - 1);
      assert deck[..k + 1] == deck[..k] + top;
      UnionSwap(multiset(Drawn(deck, 0, n - 1)), multiset(top), multiset(deck[..k]));
    }
  }

  lemma UnionSwap(a: multiset<Card>, x: multiset<Card>, b: multiset<Card>)
    ensures (a + x) + b == a + (b + x)
  {
  }

  /** A turn only moves cards from the deck into the hand. */
  lemma TurnConservesCards(cards: seq<Card>, deck: seq<Card>, decide: seq<Card> -> Decision)
    ensures var turn := RubeTurn(cards, deck, decide);
              multiset(turn.cards) + multiset(turn.deck) == multiset(cards) + multiset(deck)
  {
    var turn := RubeTurn(cards, deck, decide);
    DrawnMultiset(deck, |deck| - |turn.deck|);
  }

  /** Each hand's cards after the deal: hand `i` receives the two cards
      popped after those of every earlier hand. */
  function DealtCards(before: seq<seq<Card>>, deck: seq<Card>): (dealt: seq<seq<Card>>)
    requires |deck| >= 2 * |before|
    ensures |dealt| == |before|
    ensures forall i :: 0 <= i < |before| ==> dealt[i] == before[i] + Drawn(deck, 2 * i, 2)
  {
    seq(|before|, i requires 0 <= i < |before| => before[i] + Drawn(deck, 2 * i, 2))
  }

  /** What the rubes' phase leaves: how it ended, every hand's cards, and the deck. */
  datatype Phase = Phase(result: Result<PlayResult>, hands: seq<seq<Card>>, deck: seq<Card>)

  /** The rubes' phase from hand `i` on: each hand takes its turn on the
      deck the previous turn left, and the first failed turn ends the phase. */
  function RubesPhase(hands: seq<seq<Card>>, i: nat, deck: seq<Card>, decide: seq<Card> -> Decision): (p: Phase)
    requires i <= |hands|
    decreases |hands| - i
    ensures |p.hands| == |hands|
    ensures p.result.Ok? ==> p.result.value == RubesPlayed
  {
    if i == |hands| then Phase(Ok(RubesPlayed), hands, deck)
    else
      var turn := RubeTurn(hands[i], deck, decide);
      var after := hands[i := turn.cards];
      if turn.result.Err? then Phase(Err(turn.result.error), after, turn.deck)
      else RubesPhase(after, i + 1, turn.deck, decide)
  }

  /** Every card held in any of the hands. */
  function AllCards(hands: seq<seq<Card>>): multiset<Card>
  {
    if |hands| == 0 then multiset{} else multiset(hands[0]) + AllCards(hands[1..])
  }

  lemma {:induction false} AllCardsUpdate(hands: seq<seq<Card>>, i: nat, cs: seq<Card>)
    requires i < |hands|
    ensures AllCards(hands[i := cs]) + multiset(hands[i]) == AllCards(hands) + multiset(cs)
  {
    var updated := hands[i := cs];
    if i == 0 {
      assert updated[1..] == hands[1..];
      UnionSwap(multiset(cs), AllCards(hands[1..]), multiset(hands[0]));
      UnionSwap(multiset(hands[0]), AllCards(hands[1..]), multiset(cs));
    } else {
      assert updated[1..] == hands[1..][i - 1 := cs];
      AllCardsUpdate(hands[1..], i - 1, cs);
      forall e: Card
        ensures (AllCards(updated) + multiset(hands[i]))[e] == (AllCards(hands) + multiset(cs))[e]
      {
        assert (AllCards(updated[1..]) + multiset(hands[1..][i - 1]))[e] == (AllCards(hands[1..]) + multiset(cs))[e];
      }
    }
  }

  lemma Rebalance(held: multiset<Card>, before: multiset<Card>, hand: multiset<Card>, turned: multiset<Card>,
                  left: multiset<Card>, deck: multiset<Card>)
    requires turned + left == hand + deck
    requires held + hand == before + turned
    ensures held + left == before + deck
  {
    forall x: Card
      ensures (held + left)[x] == (before + deck)[x]
    {
      assert (turned + left)[x] == (hand + deck)[x];
      assert (held + hand)[x] == (before + turned)[x];
    }
  }

  /** The phase only moves cards from the deck into the hands: no card is
      created or lost. */
  lemma {:induction false} PhaseConservesCards(hands: seq<seq<Card>>, i: nat, deck: seq<Card>, decide: seq<Card> -> Decision)
    requires i <= |hands|
    decreases |hands| - i
    ensures var p := RubesPhase(hands, i, deck, decide);
              AllCards(p.hands) + multiset(p.deck) == AllCards(hands) + multiset(deck)
  {
    if i < |hands| {
      var turn := RubeTurn(hands[i], deck, decide);
      var after := hands[i := turn.cards];
      TurnConservesCards(hands[i], deck, decide);
      AllCardsUpdate(hands, i, turn.cards);
      Rebalance(AllCards(after), AllCards(hands), multiset(hands[i]), multiset(turn.cards),
                multiset(turn.deck), multiset(deck));
      if turn.result.Ok? {
        PhaseConservesCards(after, i + 1, turn.deck, decide);
      }
    }
  }

  /** In the phase every hand keeps the cards it had and only gains more,
      and the hands before `i` are left alone. */
  lemma {:induction false} PhaseExtendsHands(hands: seq<seq<Card>>, i: nat, deck: seq<Card>, decide: seq<Card> -> Decision)
    requires i <= |hands|
    decreases |hands| - i
    ensures var p := RubesPhase(hands, i, deck, decide);
            && (forall j :: 0 <= j < |hands| ==> hands[j] <= p.hands[j])
            && (forall j :: 0 <= j < i ==> p.hands[j] == hands[j])
  {
    var p := RubesPhase(hands, i, deck, decide);
    if i < |hands| {
      var turn := RubeTurn(hands[i], deck, decide);
      var after := hands[i := turn.cards];
      assert hands[i] <= turn.cards;
      if turn.result.Ok? {
        PhaseExtendsHands(after, i + 1, turn.deck, decide);
        forall j | 0 <= j < |hands|
          ensures hands[j] <= p.hands[j]
        {
          PrefixTransitive(hands[j], after[j], p.hands[j]);
        }
      }
    }
  }

  lemma PrefixTransitive(a: seq<Card>, b: seq<Card>, c: seq<Card>)
    requires a <= b && b <= c
    ensures a <= c
  {
  }

  /** Under the basic strategy the phase fails only for want of a card. */
  lemma {:induction false} BasicPhaseFailsOnlyOnEmptyDeck(hands: seq<seq<Card>>, i: nat, deck: seq<Card>)
    requires i <= |hands|
    decreases |hands| - i
    ensures RubesPhase(hands, i, deck, BasicDecide).result.Err? ==>
              RubesPhase(hands, i, deck, BasicDecide).result.error == EmptyDeck
  {
    if i < |hands| {
      var turn := RubeTurn(hands[i], deck, BasicDecide);
      BasicTurnNeverUnknown(hands[i], deck);
      if turn.result.Ok? {
        BasicPhaseFailsOnlyOnEmptyDeck(hands[i := turn.cards], i + 1, turn.deck);
      }
    }
  }

  /** Under the basic strategy, with real cards and 16 of them for each
      hand still to play, every hand finishes its turn. */
  lemma {:induction false} BasicPhaseCompletes(hands: seq<seq<Card>>, i: nat, deck: seq<Card>)
    requires i <= |hands|
    requires ValidDeck(deck) && |deck| >= 16 * (|hands| - i)
    decreases |hands| - i
    ensures RubesPhase(hands, i, deck, BasicDecide).result == Ok(RubesPlayed)
  {
    if i < |hands| {
      var turn := RubeTurn(hands[i], deck, BasicDecide);
      LowTotalNonnegative(hands[i]);
      BasicTurnEnds(hands[i], deck);
      assert |deck| - |turn.deck| <= 16;
      assert ValidDeck(turn.deck) by {
        forall k | 0 <= k < |turn.deck|
          ensures ValidCard(turn.deck[k])
        {
          assert turn.deck[k] == deck[k];
        }
      }
      BasicPhaseCompletes(hands[i := turn.cards], i + 1, turn.deck);
    }
  }

  /** Under the basic strategy the phase fails only for want of a card, and
      with real cards and 16 of them for each hand it does not fail. */
  lemma BasicPhaseOutcome(hands: seq<seq<Card>>, deck: seq<Card>)
    ensures var p := RubesPhase(hands, 0, deck, BasicDecide);
            && (p.result.Err? ==> p.result.error == EmptyDeck)
            && (ValidDeck(deck) && |deck| >= 16 * |hands| ==> p.result == Ok(RubesPlayed))
  {
    BasicPhaseFailsOnlyOnEmptyDeck(hands, 0, deck);
    if ValidDeck(deck) && |deck| >= 16 * |hands| {
      BasicPhaseCompletes(hands, 0, deck);
    }
  }

  lemma PrefixOfPrefix(deck: seq<Card>, a: nat, b: nat)
    requires b <= a <= |deck|
    ensures deck[..a][..b] == deck[..b]
  {
  }

  /** The cards of each hand, in order. */
  ghost function CardsOf(hands: seq<Hand>): (cs: seq<seq<Card>>)
    reads hands
    ensures |cs| == |hands|
    ensures forall i :: 0 <= i < |hands| ==> cs[i] == hands[i].cards
  {
    if |hands| == 0 then [] else [hands[0].cards] + CardsOf(hands[1..])
  }

  /** The first hand of each player, in order. */
  function FirstHands(players: seq<Player>): (hs: seq<Hand>)
    reads players
    requires forall i :: 0 <= i < |players| ==> |players[i].hands| > 0
    ensures |hs| == |players|
    ensures forall i :: 0 <= i < |players| ==> hs[i] == players[i].hands[0]
  {
    if |players| == 0 then [] else [players[0].hands[0]] + FirstHands(players[1..])
  }

  /** The name of the rube registered at position `i`. */
  function RubeName(i: nat): (name: string)
    ensures |name| > 5 && name[..5] == "Rube " && ToI(name[5..]) == i
  {
    NatToStringRoundTrip(i);
    var name := "Rube " + NatToString(i);
    assert name[5..] == NatToString(i);
    name
  }

  /** Decimal digits of a number, as string interpolation writes them. */
  function NatToString(n: nat): (s: string)
    decreases n
    ensures |s| > 0 && forall k :: 0 <= k < |s| ==> IsDigit(s[k])
  {
    if n < 10 then [DigitChar(n)] else NatToString(n / 10) + [DigitChar(n % 10)]
  }

  function DigitChar(d: nat): (c: char)
    requires d < 10
    ensures IsDigit(c) && c as int - '0' as int == d
  {
    ('0' as int + d) as char
  }

  lemma {:induction false} LeadingNumberAppend(s: string, c: char, acc: nat)
    requires forall k :: 0 <= k < |s| ==> IsDigit(s[k])
    requires IsDigit(c)
    ensures LeadingNumber(s + [c], acc) == LeadingNumber(s, acc) * 10 + (c as int - '0' as int)
  {
    if |s| > 0 {
      assert (s + [c])[1..] == s[1..] + [c];
      LeadingNumberAppend(s[1..], c, acc * 10 + (s[0] as int - '0' as int));
    }
  }

  /** Reading the digits back gives the number: `to_i` inverts the
      interpolation used for the rubes' names. */
  lemma {:induction false} NatToStringRoundTrip(n: nat)
    decreases n
    ensures ToI(NatToString(n)) == n
  {
    if n < 10 {
      var c := DigitChar(n);
      assert NatToString(n) == [c];
      assert [c][1..] == [];
      assert LeadingNumber([c], 0) == LeadingNumber([], c as int - '0' as int);
    } else {
      NatToStringRoundTrip(n / 10);
      LeadingNumberAppend(NatToString(n / 10), DigitChar(n % 10), 0);
      assert n == (n / 10) * 10 + n % 10;
    }
  }

  /** Rubes registered at different positions get different names. */
  lemma RubeNamesDistinct(i: nat, j: nat)
    requires i != j
    ensures RubeName(i) != RubeName(j)
  {
    NatToStringRoundTrip(i);
    NatToStringRoundTrip(j);
    assert RubeName(i)[5..] == NatToString(i) && RubeName(j)[5..] == NatToString(j);
  }

  class Player {
    const name: string
    var hands: seq<Hand>

    constructor (name: string)
      ensures this.name == name
      ensures |hands| == 1 && fresh(hands[0]) && hands[0].cards == []
    {
      this.name := name;
      new;
      NewHand();
    }

    /** Replace whatever hands the player holds by one empty hand. */
    method NewHand()
      modifies this
      ensures |hands| == 1 && fresh(hands[0]) && hands[0].cards == []
    {
      var h := new Hand();
      hands := [h];
    }

    /** The player's one hand; an error naming the count otherwise. */
    function CurrentHand(): (r: Result<Hand>)
      reads this
      ensures r.Ok? <==> |hands| == 1
      ensures r.Ok? ==> r.value == hands[0]
      ensures r.Err? ==> r.error == NotOneHand(|hands|)
    {
      if |hands| == 1 then Ok(hands[0]) else Err(NotOneHand(|hands|))
    }
  }

  /** `qty` new players named "Rube 0", "Rube 1", ..., each holding its own
      new empty hand. */
  method NewRubes(qty: nat) returns (rs: seq<Player>)
    ensures |rs| == qty
    ensures forall j :: 0 <= j < qty ==>
              && |rs[j].hands| == 1 && fresh(rs[j].hands[0]) && rs[j].hands[0].cards == []
              && rs[j].name == RubeName(j)
    ensures forall j, k :: 0 <= j < k < qty ==> rs[j].hands[0] != rs[k].hands[0]
  {
    rs := [];
    for i := 0 to qty
      invariant |rs| == i
      invariant forall j :: 0 <= j < i ==> rs[j].name == RubeName(j)
      invariant forall j :: 0 <= j < i ==> |rs[j].hands| == 1 && rs[j].hands[0].cards == []
      invariant forall j :: 0 <= j < i ==> fresh(rs[j].hands[0])
      invariant forall j, k :: 0 <= j < k < i ==> rs[j].hands[0] != rs[k].hands[0]
    {
      var p := new Player(RubeName(i));
      rs := rs + [p];
    }
  }

  class Session {
    var deck: seq<Card>
    const dealer: Player
    const rubes: seq<Player>

    /** Every player holds exactly one hand and no two players share one. */
    ghost predicate Valid()
      reads dealer, rubes
    {
      && dealer.CurrentHand().Ok?
      && (forall i :: 0 <= i < |rubes| ==> rubes[i].CurrentHand().Ok?)
      && (forall i :: 0 <= i < |rubes| ==> rubes[i].hands[0] != dealer.hands[0])
      && (forall i, j :: 0 <= i < j < |rubes| ==> rubes[i].hands[0] != rubes[j].hands[0])
    }

    /** The rubes' hands, in registration order: the hands a game plays. */
    function RubeHandList(): (hs: seq<Hand>)
      reads rubes
      requires forall i :: 0 <= i < |rubes| ==> |rubes[i].hands| > 0
      ensures |hs| == |rubes|
      ensures forall i :: 0 <= i < |rubes| ==> hs[i] == rubes[i].hands[0]
    {
      FirstHands(rubes)
    }

    /** A session over a shuffle of the full deck with a dealer and
        `rubeQty` rubes, each holding one empty hand. */
    constructor (deck: seq<Card>, rubeQty: nat)
      requires multiset(deck) == multiset(OrderedDeck())
      ensures this.deck == deck && |deck| == 52 && ValidDeck(deck)
      ensures |rubes| == rubeQty && Valid()
      ensures fresh(dealer.hands[0]) && forall i :: 0 <= i < rubeQty ==> fresh(rubes[i].hands[0])
      ensures dealer.name == "Dealer" && dealer.hands[0].cards == []
      ensures forall i :: 0 <= i < rubeQty ==>
                rubes[i].name == RubeName(i) && rubes[i].hands[0].cards == []
    {
      ShuffledDeck(deck);
      this.deck := deck;
      var d := new Player("Dealer");
      var rs := NewRubes(rubeQty);
      dealer := d;
      rubes := rs;
    }

    /** Pop the top (last) card of the deck into `hand`. */
    method DealCard(hand: Hand)
      requires |deck| > 0
      modifies this, hand
      ensures hand.cards == old(hand.cards) + [old(deck)[|old(deck)| - 1]]
      ensures deck == old(deck)[..|old(deck)| - 1]
    {
      var c := deck[|deck| - 1];
      deck := deck[..|deck| - 1];
      hand.TakeCard(c);
    }
  }

  class Game {
    const session: Session

    constructor (session: Session)
      ensures this.session == session
    {
      this.session := session;
    }

    /** Two cards to the dealer, then two to each rube's hand in order;
        hands are added to, not reset. */
    method Deal()
      requires session.Valid()
      requires |session.deck| >= 2 * (1 + |session.rubes|)
      modifies session, session.dealer.hands[0], session.RubeHandList()
      ensures session.deck == old(session.deck)[..|old(session.deck)| - 2 * (1 + |session.rubes|)]
      ensures old(session.dealer.hands[0]).cards == old(session.dealer.hands[0].cards) + Drawn(old(session.deck), 0, 2)
      ensures CardsOf(old(session.RubeHandList())) ==
                DealtCards(old(CardsOf(session.RubeHandList())), old(session.deck)[..|old(session.deck)| - 2])
    {
      var dealerHand := session.dealer.hands[0];
      var hands := session.RubeHandList();
      DealTo(dealerHand, hands);
    }

    /** Two cards into `first`, then two into each of `hands`, in order. */
    method DealTo(first: Hand, hands: seq<Hand>)
      requires first !in hands
      requires forall i, j :: 0 <= i < j < |hands| ==> hands[i] != hands[j]
      requires |session.deck| >= 2 * (1 + |hands|)
      modifies session, first, hands
      ensures session.deck == old(session.deck)[..|old(session.deck)| - 2 * (1 + |hands|)]
      ensures first.cards == old(first.cards) + Drawn(old(session.deck), 0, 2)
      ensures CardsOf(hands) == DealtCards(old(CardsOf(hands)), old(session.deck)[..|old(session.deck)| - 2])
    {
      ghost var deck := session.deck;
      ghost var before := CardsOf(hands);
      DealTwo(first);
      assert CardsOf(hands) == before;
      DealRubes(hands);
      PrefixOfPrefix(deck, |deck| - 2, |deck| - 2 * (1 + |hands|));
    }

    /** Two cards to each of `hands`, in order. */
    method DealRubes(hands: seq<Hand>)
      requires forall i, j :: 0 <= i < j < |hands| ==> hands[i] != hands[j]
      requires |session.deck| >= 2 * |hands|
      modifies session, hands
      ensures session.deck == old(session.deck)[..|old(session.deck)| - 2 * |hands|]
      ensures CardsOf(hands) == DealtCards(old(CardsOf(hands)), old(session.deck))
    {
      ghost var deck := session.deck;
      ghost var before := CardsOf(hands);
      for i := 0 to |hands|
        invariant session.deck == deck[..|deck| - 2 * i]
        invariant forall j :: 0 <= j < i ==> hands[j].cards == before[j] + Drawn(deck, 2 * j, 2)
        invariant forall j :: i <= j < |hands| ==> hands[j].cards == before[j]
      {
        DealTwo(hands[i]);
        DrawnShift(deck, 2 * i, 2);
        assert deck[..|deck| - 2 * i][..|deck| - 2 * i - 2] == deck[..|deck| - 2 * (i + 1)];
      }
      ghost var dealt := DealtCards(before, deck);
      ghost var now := CardsOf(hands);
      assert |now| == |dealt| && forall j :: 0 <= j < |now| ==> now[j] == dealt[j];
    }

    /** Two cards from the top of the deck into `hand`. */
    method DealTwo(hand: Hand)
      requires |session.deck| >= 2
      modifies session, hand
      ensures session.deck == old(session.deck)[..|old(session.deck)| - 2]
      ensures hand.cards == old(hand.cards) + Drawn(old(session.deck), 0, 2)
    {
      ghost var deck := session.deck;
      for k := 0 to 2
        invariant session.deck == deck[..|deck| - k]
        invariant hand.cards == old(hand.cards) + Drawn(deck, 0, k)
      {
        session.DealCard(hand);
        DrawnStep(deck, 0, k);
      }
    }

    /** The hit/stand loop for one hand, asking `decide` before each card. */
    method RunRubeHand(hand: Hand, decide: seq<Card> -> Decision) returns (r: Result<HandOutcome>)
      modifies session, hand
      ensures var turn := RubeTurn(old(hand.cards), old(session.deck), decide);
                r == turn.result && hand.cards == turn.cards && session.deck == turn.deck
    {
      while true
        invariant RubeTurn(hand.cards, session.deck, decide) == RubeTurn(old(hand.cards), old(session.deck), decide)
        decreases |session.deck|
      {
        match decide(hand.cards)
        case Stand =>
          return Ok(Stood);
        case Other(symbol) =>
          return Err(UnknownDecision(symbol));
        case Hit =>
          if |session.deck| == 0 {
            return Err(EmptyDeck);
          }
          session.DealCard(hand);
          if Busted(hand.cards) {
            return Ok(BustedOut);
          }
      }
    }

    /** Deal, stop at once if the dealer has a blackjack, otherwise give each
        rube a turn under the basic strategy, in order. */
    method Play() returns (r: Result<PlayResult>)
      requires session.Valid()
      requires |session.deck| >= 2 * (1 + |session.rubes|)
      modifies session, session.dealer.hands[0], session.RubeHandList()
      ensures old(session.dealer.hands[0]).cards == old(session.dealer.hands[0].cards) + Drawn(old(session.deck), 0, 2)
      ensures r == Ok(DealerBlackjack) <==> IsBlackjack(old(session.dealer.hands[0]).cards)
      ensures var dealt := DealtCards(old(CardsOf(session.RubeHandList())), old(session.deck)[..|old(session.deck)| - 2]);
              var afterDeal := old(session.deck)[..|old(session.deck)| - 2 * (1 + |session.rubes|)];
              var p := RubesPhase(dealt, 0, afterDeal, BasicDecide);
              if r == Ok(DealerBlackjack) then
                session.deck == afterDeal && CardsOf(old(session.RubeHandList())) == dealt
              else
                r == p.result && session.deck == p.deck && CardsOf(old(session.RubeHandList())) == p.hands
    {
      var dealerHand := session.dealer.hands[0];
      var hands := session.RubeHandList();
      Deal();
      if IsBlackjack(dealerHand.cards) {
        return Ok(DealerBlackjack);
      }
      r := RunRubeHands(hands, BasicDecide);
    }

    /** Every hand's turn, in order; the first failure stops the phase. */
    method RunRubeHands(hands: seq<Hand>, decide: seq<Card> -> Decision) returns (r: Result<PlayResult>)
      requires forall i, j :: 0 <= i < j < |hands| ==> hands[i] != hands[j]
      modifies session, hands
      ensures var p := RubesPhase(old(CardsOf(hands)), 0, old(session.deck), decide);
              r == p.result && session.deck == p.deck && CardsOf(hands) == p.hands
    {
      ghost var cards := CardsOf(hands);
      ghost var goal := RubesPhase(cards, 0, session.deck, decide);
      for i := 0 to |hands|
        invariant CardsOf(hands) == cards
        invariant RubesPhase(cards, i, session.deck, decide) == goal
      {
        ghost var turn := RubeTurn(cards[i], session.deck, decide);
        var outcome := RunRubeHand(hands[i], decide);
        cards := cards[i := turn.cards];
        if outcome.Err? {
          assert goal == Phase(Err(outcome.error), cards, session.deck);
          return Err(outcome.error);
        }
        assert goal == RubesPhase(cards, i + 1, session.deck, decide);
      }
      return Ok(RubesPlayed);
    }
  }
}
