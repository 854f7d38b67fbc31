# Future Agents: a model of the game engine

A Dafny model of the game engine inside the React component of a
push-your-luck card game about the UN Sustainable Development Goals. The
component keeps its state in separate React state hooks. Here that state
is one immutable `Game` record, and each handler is a pure transition on it:

- **Deck** (`deck.dfy`): the draw pile is built from the per-goal count table.
  The random sort is modelled as an arbitrary sequence of swaps.
- **Turn engine** (`engine.dfy`): `StartTurn`, `DrawMore` (with bust
  detection), `Collect`, `HandleDiscard`, `EndTurn` and `GoToGiftPhase`.
- **Gift exchange** (`engine.dfy`): `SelectGiftCard`, `HandleGift` and
  `SkipGift`. Each player gets one slot, in seating order.
- **Scoring** (`scoring.dfy`, `Engine.CalculateFinal`): cards are tallied per
  goal and each goal category awards its bonus. The team total is compared
  with the target of 63.
- **Whole games** (`play.dfy`):
  - the moves that can be made in each phase, by the human's controls or by
    the automated driver (`Enabled`), and the human's controls alone (`HumanCan`);
  - the automated driver (`AiMove`);
  - a state invariant that every move that can be made keeps: the phase shape holds,
    and every card in play is one of the starting deck's cards, held in one
    place, except that after a bust the last table card is still the head of
    the deck.

The handlers of the component do not check the phase themselves. The board
only shows a button or card click in the right phase. So each Dafny handler
takes its phase as a precondition, and `Play.Run` ignores a move that neither
the board nor the automated driver would make.

Behaviours of the component worth knowing, all modelled as written:

- A bust card is shown on the table and also stays at the head of the deck.
  It is therefore the next turn's first card (`Play.BustCardComesBack`).
- Goal 17 scores 2 for one to three cards, 4 for four to six, and 0 (not 4)
  for seven or more (`Scoring.SeventhPartnershipCardLosesBonus`).
- Deck + table + hands shrinks: a discard destroys the discarded card, and a
  confirmed bust destroys the table except the duplicate, which is still in
  the deck. The model proves exact accounting for each move instead: the pool
  of cards in play never gains a card and never holds a card twice.
- The table is cleared at every end of turn, including the one that opens the
  gift exchange.
- The automated driver can stall the game (see "## Findings").

## Model

| member | source | states |
|---|---|---|
| Scoring.Score | App.tsx:222-238 | a player's score, in terms of the number of cards held of each goal: 2 per goal-1 card; the goal-2 count plus one when any; 2 for each of goals 4 and 13 held; 1 for each of goals 6, 14 and 15 held; the goal-17 bracket bonus |
| Cards.GoalOnTableIffCount | App.tsx:131 | the bust test "some table card has this goal" holds exactly when the table's count of that goal is positive |
| Cards.CountPermutation | App.tsx:63 | per-goal card counts depend only on which cards there are, so reordering the deck keeps them |
| Cards.DropIndex | App.tsx:167 | the cards kept after a discard: one fewer than the table when the index is on the table, all of them otherwise, each at its original relative position |
| Cards.DropIndexSplits | App.tsx:167 | the kept cards are the cards before and after the discarded one, in order, and together with it they are exactly the table |
| Constants.DeckGoals | constants.ts:71 | the count table lists goals 1, 2, 4, 6, 13, 14, 15 and 17, each once, and no others |
| Constants.DeckSize | constants.ts:71 | a full deck has 7+8+10+8+5+10+12+19 = 79 cards |
| Constants.DeckGoalsCatalogued | constants.ts:4-71 | every goal of the count table has a catalogue entry whose id is that goal |
| Constants.PartnershipCopiesExceedCurve | constants.ts:71 | goal 17 has 19 copies, more than the 6 at which its curve bonus stops |
| Constants.CopiesOfListed | constants.ts:71 | with no goal listed twice, a listed goal has exactly its listed number of copies |
| Deck.Shuffle | App.tsx:63 | shuffling keeps the deck's length and its multiset of cards |
| Deck.CountExpand | App.tsx:57-62 | the unshuffled deck holds, of each goal, the copies the count table lists for it |
| Deck.ExpandNoDuplicates | App.tsx:58-61 | every card identity (goal, copy number) occurs once in the built deck |
| Deck.ExpandLabelled | App.tsx:58-61 | every built card carries its own goal in its identity |
| Deck.DeckCountsKept | App.tsx:56-64 | for any count table with no goal listed twice, any reordering of the built deck has the table's total number of cards, each carrying its goal in its identity, the listed number of each listed goal, none of any other goal, and no card twice |
| Deck.CreateDeck | App.tsx:56-64 | the built and shuffled deck has 79 cards, each carrying its goal in its identity: exactly the listed number of each listed goal, none of any other goal, and no card twice |
| Scoring.TallyCounts | App.tsx:224-225 | the per-goal record filled card by card holds, for every goal, the number of cards of that goal |
| Scoring.ScoreFollowsRules | App.tsx:226-237 | the score equals the rule-by-rule reference: 2 per goal-1 card; the goal-2 count plus one when any; 2 for each of goals 4 and 13 held; 1 for each of goals 6, 14 and 15 held; the goal-17 bracket bonus |
| Scoring.ScoreIgnoresOrder | App.tsx:222-238 | a player's score depends only on the multiset of cards held |
| Scoring.EmptyHandScoresZero | App.tsx:223-238 | an empty hand scores 0 |
| Scoring.UnscoredGoalAddsNothing | App.tsx:227-237 | a card of a goal outside the scoring categories leaves the score unchanged |
| Scoring.ExampleHandScoresTen | App.tsx:227-237 | the hand {1,1,2,2,2,17,17} scores 10 |
| Scoring.SeventhPartnershipCardLosesBonus | App.tsx:235-237 | adding a seventh goal-17 card to a hand lowers its score by 4 |
| Scoring.ThresholdIsExact | App.tsx:243 | a team total of 63 passes and 62 fails |
| Engine.NewGame | App.tsx:100-111 | a new game has the user and two automated agents, all with empty hands, the dealt deck, an empty table, turn 0 and the flip phase |
| Engine.GoToGiftPhase | App.tsx:187-191 | the gift exchange opens at the first player, and nothing else changes |
| Engine.StartTurn | App.tsx:113-124 | on an empty deck the gift exchange opens; otherwise exactly one card moves from the deck's head to an otherwise empty table and the decision phase begins; the first card never busts |
| Engine.DrawMore | App.tsx:126-150 | no-op on an empty deck; busts exactly when the head's goal is on the table, in which case the head joins the table and the deck is unchanged; otherwise the decision phase continues, the head moves to the end of the table, the deck loses its head, and distinct table goals stay distinct |
| Engine.EndTurn | App.tsx:176-185 | the table empties; on an empty deck the gift exchange opens at player 0, otherwise the turn passes to (index+1) mod players in the flip phase, and the index stays in range |
| Engine.Collect | App.tsx:152-164 | a one-card table goes to the end of the current player's hand, no other player changes and the current player changes only in their hand, the gift selection and the verdict are kept, the table empties, and the turn passes to the next player in the flip phase or, on an empty deck, the gift exchange opens at player 0; any other table only switches to discard selection and moves no card |
| Engine.HandleDiscard | App.tsx:166-174 | the current player gains the table minus the chosen position (one card fewer, order kept), no other player changes and the current player changes only in their hand, the gift selection and the verdict are kept, the table empties, and the turn passes to the next player in the flip phase or, on an empty deck, the gift exchange opens at player 0 |
| Engine.SelectGiftCard | App.tsx:434 | clicking a hand card selects it, or clears the selection when that card was selected; nothing else changes |
| Engine.CalculateFinal | App.tsx:220-251 | every player gets the score of their own hand with the hand unchanged, the game is over, and the verdict passes exactly when the total reaches the target |
| Engine.NextGiftSlot | App.tsx:204-208 | after a slot ends, no hand changes; the game is over, with final scoring recorded for the team total of the hands, exactly when the last player's slot ended; otherwise only the turn advances by one |
| Engine.HandleGift | App.tsx:193-209 | without a selection nothing happens; otherwise the selected card leaves the giver's hand and is appended to the target's, other hands are unchanged, the selection clears, and the next player's slot starts or, after the last player, final scoring runs on the updated hands |
| Engine.SkipGift | App.tsx:211-218 | hands are unchanged; the next player's slot starts with nothing else changed, or after the last player final scoring runs |
| Engine.FinalTotalIsSumOfScores | App.tsx:239-249 | the recorded total is the sum of the scores written into the players and of the hands' scores, and it passes exactly when it is at least the target |
| Engine.FinalScoringIdempotent | App.tsx:220-251 | scoring an already scored game again gives the same game |
| Engine.MoveCardConservesHands | App.tsx:195-197 | moving a card from one hand to another keeps the cards held by the players, taken together |
| Engine.GiftConservesCards | App.tsx:193-209 | a gift keeps the multiset of all collected cards and the total number of collected cards |
| Play.AiMove | App.tsx:254-268 | the driver acts exactly for an automated current player in a game that is not over; it flips in the flip phase, draws when the table has fewer than two cards and the random choice says so and extracts otherwise, confirms a bust, discards the first table card, and skips its gift |
| Play.AiStallsOnEmptyDeck | App.tsx:254-268 | in a new game with a two-card deck, after the user flips and extracts one card and the first automated player flips the other, the driver's push-luck draw from the empty deck changes nothing it watches (the empty-deck return of App.tsx:127), so it never acts again, and the user has no control to use |
| Play.AiMoveFixed | App.tsx:258-264 | the driver with the stall removed acts in the same states, extracts whenever the deck is empty in the decision phase, and otherwise moves as the component's driver does |
| Play.AiMoveFixedProgresses | App.tsx:254-268 | every move of the corrected driver can be made and changes the phase, the turn, the players or the table, so the driver acts again |
| Play.BoardNeverStuck | App.tsx:434-504 | in every state that is not over, the human's controls offer some move while the human is the current player, and the driver acts while an automated player is |
| Play.StepKeepsSeats | App.tsx:113-218 | no move changes a player's id, name or whether the driver plays them, nor the number or order of players |
| Play.RunKeepsSeats | App.tsx:100-218 | across any sequence of moves every player keeps their id, name and automated flag; only hands and final scores change |
| Play.ShownCards | App.tsx:126-150 | the cards on display (deck, table and hands) are the pool of cards in play, each once, plus the bust card a second time while a bust is shown |
| Play.AiMovesAreEnabled | App.tsx:254-268 | every move of the automated driver is one that can be made in that state |
| Play.NewGameInv | App.tsx:100-111 | a new game satisfies the invariant, and the cards in play are exactly the dealt deck |
| Play.StartTurnKeepsCards | App.tsx:113-124 | the first flip keeps the invariant and moves a card without losing or adding any |
| Play.DrawMoreKeepsCards | App.tsx:126-142 | a draw, including a bust, keeps the invariant and the cards in play |
| Play.CollectKeepsCards | App.tsx:152-164 | collecting keeps the invariant and the cards in play |
| Play.DiscardDropsOneCard | App.tsx:166-174 | a discard keeps the invariant and takes exactly the discarded card out of play |
| Play.ConfirmLossDropsTable | App.tsx:500-503 | confirming a bust keeps the invariant, starts the next flip, and takes exactly the table minus the duplicate out of play |
| Play.GiftKeepsCards | App.tsx:193-209 | a transfer keeps the invariant and the cards in play |
| Play.SkipKeepsCards | App.tsx:211-218 | a skip keeps the invariant and the cards in play |
| Play.StepKeepsInv | App.tsx:474-504 | every move that can be made keeps the invariant and never brings a card into play |
| Play.RunKeepsInv | App.tsx:113-218 | any sequence of moves keeps the invariant |
| Play.CardsStayUnique | App.tsx:113-218 | in every reachable state, each card in play comes from the dealt deck and is counted once, and the phase's shape holds: in particular, after a bust the last table card is the deck's head |
| Play.InitGame | App.tsx:100-111 | starting a game deals a 79-card deck with the listed count of each goal; in every state reachable from it the phase's shape holds, every player keeps their seat, no card is in two places except that after a bust the last table card is also the deck's head, and a table awaiting a decision holds no two cards of one goal |
| Play.BustNeverOpensGiftExchange | App.tsx:133-135 | ending a busted turn always passes the turn on and never opens the gift exchange, because the duplicate is still in the deck |
| Play.BustCardComesBack | App.tsx:133-135 | the card that caused a bust is the only card on the table after the next flip |
| Play.GiftSlotsInOrder | App.tsx:193-218 | during the gift exchange, the current player is the number of slots already ended; the game is over exactly when every player has had one slot |

## Left out

- Rendering, styling and the board's JSX (App.tsx:271-588) are presentation only.
  The gating of the human's buttons and clicks is kept, as `Play.HumanCan`;
  `Play.Enabled` adds the moves the automated driver may choose.
- Sound is left out: it is synthesized audio with no effect on game state.
- The generative-text calls are left out: the strategist advice, its
  one-second debounce and the goal insight with its timeout. They are network
  I/O whose text never affects game state.
- Log lines, status messages and the `isExploding` flag are left out. So are
  the `isNew` card mark, the `isHost` player mark, the room id, the lobby, the
  mute switch and the colours and long descriptions of the goals. All of them
  are cosmetic.
- The result's reason text is left out; it is fixed by the `passed` flag.
- The driver's two-second timer is left out. Its random choice
  (`Math.random() > 0.3`) is the `pushLuck` parameter of `Play.AiMove`. When
  the timer re-arms is modelled by `Play.Rearms`, which compares values where
  React compares references; the handlers that replace the players array
  also change the phase, turn or table, so the two agree.
- Play.BoardNeverStuck: says the driver acts for an automated player, not
  that its move changes anything. The component's driver can stall (see
  "## Findings"); only the corrected driver is proved to move the game on
  (`Play.AiMoveFixedProgresses`).
- Play.Run: lets any move that can be made happen next, so it does not model the stall
  of `Play.AiStallsOnEmptyDeck`; the finding is stated separately.
- The shuffle's randomness is left out. The permutation it reaches is the
  `swaps` parameter of `Deck.CreateDeck`, and every permutation can be
  written as swaps.
- React's state batching and stale closures are left out. Each handler is one
  atomic transition on the state it was called with. In the handlers modelled
  this matches what the code reads: `endTurn` tests the deck that the
  enclosing handler saw. After the last gift, `calculateFinal` reads the
  players array the gift handler started from, but the gift's `splice` and
  `push` (App.tsx:196-197) changed the shared player records in place, so
  it scores the hands after the gift, as `Engine.HandleGift` states.
- The Intro and Lobby phases exist in `Types.Phase` and have no transitions.
  Starting a game from Intro is `Engine.NewGame`, and "play again" reloads the
  page.
- Engine.HandleGift: requires the selected index to lie in the current
  player's hand. With any other index the component would append `undefined`
  to the target's hand and then fail reading its goal (App.tsx:201). The
  board makes that impossible, because a selection only comes from clicking
  a card of that hand.
- Deck.CreateDeck: states the deck's size, per-goal counts and uniqueness of
  cards, not the exact identity string of each card.

## Findings

| source | as written | input that shows it | evidently intended | confidence | as-written member | corrected member |
|---|---|---|---|---|---|---|
| App.tsx:254-268 | an automated player in the decision phase pushes its luck even when the deck is empty; `drawMore` then returns without changing state, the driver's effect is not re-run, and the board shows no buttons for an automated player | a new game with a two-card deck: the user flips and extracts one card, the first automated player flips the other, and the random choice picks push-luck | extract when the deck is empty, so the turn always moves on | not executed | Play.AiStallsOnEmptyDeck | Play.AiMoveFixed, Play.AiMoveFixedProgresses |
