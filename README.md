# Blackjack hand valuation and hit/stand engine, in Dafny

This project models the core of a small Ruby blackjack program
(`blackjack.rb`) and proves properties of that model:

- `Blackjack.combine`, the recursive Cartesian product of a list of lists
  (`combine.dfy`, module `Combination`);
- cards and their candidate points: an ace is 1 or 11, a face card 10, a
  numeral its number (`cards.dfy`, module `Cards`);
- a hand's possible totals (`Hand#values`: one sum per combination of
  candidates, duplicates kept, in product order), `busted?` and
  `blackjack?` (`hands.dfy`, module `Hands`, with the `Hand` class whose
  `take_card` appends in place);
- the basic strategy: stand once some total reaches 16, otherwise hit
  (`strategy.dfy`, module `Strategy`);
- players, the session that owns the deck, and one game (`table.dfy`,
  module `Table`). This covers `deal_card` popping the last card of the
  deck, the deal of two cards to the dealer and then two to each rube, the
  early stop on a dealer blackjack, and the hit/stand loop of each rube.

The pure parts are functions with lemmas about them. The parts of the
source that change state in place are classes: `Hand`, `Player`,
`Session` and `Game`. Their methods are proved against specification
functions:

- `RubeTurn` is one rube's hit/stand loop as a function of the hand, the
  deck and the decision rule;
- `DealtCards` gives the hands after the deal;
- `RubesPhase` is the rubes' phase of a game, one turn after another on
  the deck the previous turn left.

The deck is a sequence whose top card is its **last** element:
`Session#deal_card` takes the card with `@deck.pop`, which removes the end
of the array (blackjack.rb:217). `Game#deal` never resets a hand: it calls
`deal_card` twice on the dealer's current hand and twice on each rube's
current hand (blackjack.rb:238-248), so the deal appends two cards to
whatever each hand already holds.

## Model

| member | source | states |
|---|---|---|
| Combination.Combine | blackjack.rb:50-58 | the product has exactly as many tuples as the product of the list lengths |
| Combination.CombineEmpty | blackjack_test.rb:16-18 | the product of no lists is the single empty tuple |
| Combination.CombineElement | blackjack.rb:50-58 | every tuple of the product has one component per list, the i-th taken from the i-th list; it is the tuple picked by the choice `Digits(s, k)` |
| Combination.CombineAt | blackjack.rb:50-58 | every way of choosing one element per list appears in the product, at the mixed-radix position of the choice |
| Combination.Digits | blackjack.rb:50-58 | every position of the product is the position of some choice (the inverse of the position map) |
| Combination.CombineOrdered | blackjack.rb:53-57 | tuples come out in lexicographic order of their choices, the first list varying slowest |
| Combination.PositionInjective | blackjack.rb:53-57 | different choices sit at different positions, so the product lists each choice exactly once |
| Combination.CombineSingletons | blackjack.rb:50-58 | when every list has one element the product is that single tuple |
| Combination.CombineSingleExample | blackjack_test.rb:6-9 | `combine([[2],[3],[7],[5]])` is `[[2,3,7,5]]` |
| Combination.CombineMultiExample | blackjack_test.rb:11-14 | `combine([[2],[3],[1,11],[5]])` is `[[2,3,1,5],[2,3,11,5]]` |
| Cards.ToI | blackjack.rb:101 | a string that does not start with a digit reads as 0 |
| Cards.NumeralRanks | blackjack.rb:101 | the rank strings "2" to "10" read as the numbers 2 to 10; "A" and "J" read as 0 |
| Cards.IsAce | blackjack.rb:87-89 | an ace is neither a numeral nor a face card |
| Cards.IsFace | blackjack.rb:91-93 | a face card's rank is not a numeral, so it needs its own value rather than `to_i` |
| Cards.PointValues | blackjack.rb:95-103 | an ace has two candidates and any other card one; the candidates are non-negative and ascending |
| Cards.ValidPoints | blackjack.rb:95-103 | on the thirteen ranks an ace gives `[1, 11]`, a face card `[10]`, a numeral a single value from 2 to 10, so every card is worth 1 to 11 |
| Cards.NumeralPoints | blackjack.rb:100-102 | the numeral rank n gives `[n]` |
| Cards.OrderedDeck | blackjack.rb:69-74 | the unshuffled deck has 52 cards, all of real ranks; a session's deck is a shuffle of it (required by `Session`'s constructor) |
| Cards.OrderedDeckAt | blackjack.rb:70-73 | rank v with suit s is at position 4v + s: rank-major order, every pair present |
| Hands.Sum | blackjack.rb:40-42 | a total of non-negative numbers is non-negative |
| Cards.ShuffledDeck | blackjack.rb:69-74 | any shuffle of the unshuffled deck is 52 cards of real ranks |
| Hands.SumCons | blackjack.rb:39-43 | the left-to-right total of `[x] + xs` is x plus the total of xs |
| Hands.Max | blackjack.rb:137 | the maximum of a non-empty list is an element of it and no element exceeds it |
| Hands.Values | blackjack.rb:125-127 | one total per combination of candidate points, so as many totals as the product of the candidate counts |
| Hands.ValuesCount | blackjack.rb:125-127 | a hand has 2^(number of aces) totals, at least one |
| Hands.ValueIsChoiceSum | blackjack.rb:125-127 | each total is the sum of one candidate chosen per card |
| Hands.ValueBounds | blackjack.rb:125-127 | each total lies between the all-aces-as-1 total and the all-aces-as-11 total |
| Hands.ExtremeValues | blackjack.rb:125-127 | the first total counts every ace as 1, and the all-aces-as-11 total is among the totals |
| Hands.MaxValue | blackjack.rb:137 | the largest total counts every ace as 11 |
| Hands.EmptyHandValues | blackjack.rb:125-127 | an empty hand's totals are `[0]` |
| Hands.ValuesCons | blackjack.rb:125-127 | a hand's totals are, for each candidate of its first card in turn, the totals of the rest raised by that candidate |
| Hands.ValuesClosedForm | blackjack.rb:125-127 | a hand's totals, in order, depend only on its all-aces-as-1 total and its number of aces |
| Hands.ReorderTotals | blackjack.rb:125-127 | the all-aces-as-1 total and the number of aces do not depend on the order of the cards |
| Hands.ValuesReorder | blackjack.rb:125-142 | the same cards in any order give the same totals in the same order, and the same busted and blackjack verdicts |
| Hands.NoAceValues | blackjack.rb:125-127 | a hand without aces has exactly one total, the sum of its cards |
| Hands.TwoAcesValues | blackjack.rb:125-127 | two aces give `[2, 12, 12, 22]`: duplicates kept, in product order |
| Hands.TwoCardValue | blackjack.rb:125-127 | a two-card total is one candidate of each card added together |
| Hands.TwoCardChoice | blackjack.rb:125-127 | in a two-card hand, candidates a and b give the total at position a·(second card's candidate count) + b |
| Hands.Busted | blackjack.rb:140-142 | a busted hand holds at least one card (an empty hand totals 0) |
| Hands.BustedIff | blackjack.rb:140-142 | busted exactly when the total with every ace as 1 is over 21; an empty hand is never busted |
| Hands.BustedExample | blackjack.rb:140-142 | king, queen, five is busted |
| Hands.NotBustedExample | blackjack.rb:140-142 | ace, nine, queen is not busted |
| Hands.IsBlackjack | blackjack.rb:136-138 | a blackjack is never busted: one of its totals is 21 |
| Hands.BlackjackIff | blackjack.rb:136-138 | blackjack exactly when there are two cards and the total with every ace as 11 is 21 |
| Hands.BlackjackTwoCards | blackjack.rb:136-138 | with real ranks, blackjack is an ace plus a ten-point card, and it agrees with "21 is among the totals" |
| Hands.BlackjackExamples | blackjack.rb:136-138 | ace and king is a blackjack; ace, ace, nine is not, although it can total 21 |
| Hands.LowTotalAppend | blackjack.rb:120-122 | taking a card raises the all-aces-as-1 total by that card's smallest candidate |
| Hands.Hand.constructor | blackjack.rb:111-114 | a new hand holds no cards |
| Hands.Hand.TakeCard | blackjack.rb:120-122 | the card is appended to the hand's cards |
| Strategy.BasicDecide | blackjack.rb:160-171 | the basic strategy answers only stand or hit |
| Strategy.BasicStandsIff | blackjack.rb:164-170 | it stands exactly when the all-aces-as-11 total reaches 16, and hits exactly when every total is below 16 |
| Strategy.BasicHitsOnlyLowHands | blackjack.rb:164-170 | it hits only on hands below 16, so never on a busted hand |
| Table.Drawn | blackjack.rb:215-218 | the cards popped off the end of the deck, in the order they are popped |
| Table.DrawnMultiset | blackjack.rb:215-218 | the popped cards together with what is left are the deck |
| Table.RubeTurn | blackjack.rb:259-273 | a turn only pops cards off the end of the deck into the hand. On stand nothing is drawn; `:stand` means the last decision was stand; `:busted` means the hand is busted after at least one card; an empty deck on hit fails; any other decision fails with that symbol |
| Table.RubeTurnSteps | blackjack.rb:261-272 | the strategy is asked before every card and every card was drawn on a hit; the hand before each draw after the first was not busted, so the turn stops at the first bust; a turn that did not bust out leaves an unbusted hand; an unknown decision fails before any card is drawn |
| Table.TurnConservesCards | blackjack.rb:259-273 | a turn moves cards from the deck to the hand: no card is created or lost |
| Table.BasicTurnEnds | blackjack.rb:259-273 | under the basic strategy, with real cards and enough of them, a turn ends by standing on 16 or more or by busting, and draws at most 16 minus the all-aces-as-1 total |
| Table.BasicTurnNeverUnknown | blackjack.rb:264-271 | under the basic strategy a turn fails only by running out of cards |
| Table.DealtCards | blackjack.rb:243-247 | hand i gets the two cards popped after those of every earlier hand, after its own cards |
| Table.RubesPhase | blackjack.rb:254-256 | the rubes' phase keeps one hand per rube and, when it completes, ends with the rubes having played |
| Table.PhaseConservesCards | blackjack.rb:254-256 | the phase moves cards from the deck into the hands: no card is created or lost |
| Table.PhaseExtendsHands | blackjack.rb:254-256 | every hand keeps the cards it had and only gains more; hands already played are left alone |
| Table.BasicPhaseFailsOnlyOnEmptyDeck | blackjack.rb:254-256 | under the basic strategy the phase fails only for want of a card |
| Table.BasicPhaseCompletes | blackjack.rb:254-256 | under the basic strategy, with real cards and 16 per hand still to play, every rube finishes the turn |
| Table.BasicPhaseOutcome | blackjack.rb:250-257 | the two previous facts for a whole game's rubes' phase |
| Table.RubeName | blackjack.rb:211 | a rube's name is "Rube " followed by digits that read back as its position |
| Table.NatToString | blackjack.rb:211 | the decimal form of a number is a non-empty string of digits |
| Table.NatToStringRoundTrip | blackjack.rb:211 | reading the decimal form back with `to_i` gives the number |
| Table.RubeNamesDistinct | blackjack.rb:210-212 | rubes at different positions get different names, so the names tell the rubes apart |
| Table.FirstHands | blackjack.rb:234-236 | the list of each player's first hand, player by player |
| Table.Player.constructor | blackjack.rb:178-184 | a new player has the given name and one new empty hand |
| Table.Player.NewHand | blackjack.rb:186-188 | the player's hands become exactly one new empty hand |
| Table.Player.CurrentHand | blackjack.rb:190-194 | the single hand when exactly one is held, otherwise an error naming the count |
| Table.NewRubes | blackjack.rb:210-212 | `qty` players named "Rube 0", "Rube 1", ..., each with its own new empty hand |
| Table.Session.RubeHandList | blackjack.rb:234-236 | the rubes' hands in registration order |
| Table.Session.constructor | blackjack.rb:206-213 | a session over the given shuffle of the full deck (52 real cards) with a dealer and `rubeQty` rubes, every player holding one new empty hand of its own, so a caller may deal and play on them |
| Table.Session.DealCard | blackjack.rb:215-218 | the deck's last card is appended to the hand and removed from the deck; nothing else changes |
| Table.Game.constructor | blackjack.rb:229-231 | a game plays on the session it is given |
| Table.Game.DealTwo | blackjack.rb:240-242 | two cards are popped into the hand, in pop order |
| Table.Game.DealRubes | blackjack.rb:243-247 | each hand in turn gets two cards as `DealtCards` says, and the deck loses two cards per hand |
| Table.Game.DealTo | blackjack.rb:238-248 | two cards into the dealer's hand first, then two into each rube's hand |
| Table.Game.Deal | blackjack.rb:238-248 | the deal removes 2·(1 + number of rubes) cards: the dealer's two first, then each rube's two in registration order |
| Table.Game.RunRubeHand | blackjack.rb:259-273 | the loop returns, leaves in the hand and leaves in the deck exactly what `RubeTurn` says |
| Table.Game.RunRubeHands | blackjack.rb:254-256 | the rubes' turns in order, stopping at the first failure, give exactly the result, hands and deck of `RubesPhase` |
| Table.Game.Play | blackjack.rb:250-257 | after the deal, play stops at once exactly when the dealer has a blackjack; otherwise the result, the rubes' hands and the deck are those of `RubesPhase` under the basic strategy |

## Left out

- Shuffling (`Card.deck` calls `shuffle`): the session is given its deck as a parameter, required to hold exactly the cards of `OrderedDeck`, the deck before shuffling; which order the shuffle picks is not modelled.
- Logging and printing (`log`, `LOG`, the `puts` in `run_rube_hand`, `inspect`, `to_s`): output only.
- `wins(@session.dealer)` is not defined anywhere in the program: `Play` returns `DealerBlackjack` where the source would call it.
- Win/lose/push resolution and a dealer's hit/stand phase do not exist in the program and are not modelled.
- The abstract `Strategy#decide`, the strategy objects and their back-reference to the session: the decision rule is a function parameter of the turn, and `Play` passes the basic strategy.
- `Hand#player`, `Player#session` and `Hand#decide`: back-references only. The decision is asked of the rule directly.
- `Cards.ToI`: models `to_i` only for what the ranks need, the leading decimal digits. Signs, underscores and leading blanks are not modelled.
- Popping an empty deck gives `nil` in Ruby and then a crash in `point_values`. `Session.DealCard` requires a non-empty deck, and `Game.Deal` and `Game.Play` require enough cards for the deal. A hit on an empty deck inside a rube's turn is modelled as the error `EmptyDeck`.
- `Session.constructor`: the number of rubes is a required argument; the Ruby keyword default of one rube (`rube_qty: 1`) is not modelled, a caller passes 1 instead.
- `Session.RubeHandList` models `rube_hands` (a `flat_map` over the rubes' hands) for rubes holding one hand each, which is all the program ever creates.
- `Game.Deal`: does not restate the session invariant afterwards. It changes only hand contents and the deck, never which hands the players hold.
- `Game.Play`: the facts that under the basic strategy the phase fails only on an empty deck, and completes with 16 real cards per rube, are stated about `RubesPhase` by `BasicPhaseOutcome` rather than in `Play`'s own contract.
