/** Whole games: the moves that can be made, the automated driver, and the
    invariants every reachable state keeps. */
module Play {
  import opened Types
  import opened Cards
  import opened Engine
  import opened Constants
  import opened Deck

  /** The actions a player can take: the buttons and card clicks of the board. */
  datatype Move =
    | Flip                  // "deploy card"
    | Draw                  // "push luck"
    | Extract               // "extract goals"
    | Discard(idx: nat)     // a table card clicked while one must be given up
    | ConfirmLoss           // "confirm loss" after a bust
    | SelectCard(idx: nat)  // a hand card clicked during the gift exchange
    | Transfer(target: nat) // "transfer to" another player
    | SkipTransfer          // "skip resource transfer"

  /** Move `m` can be made in state `g`: the human's controls offer it, or the
      automated driver may choose it for an automated current player (which
      draws only with fewer than two table cards). */
  predicate Enabled(g: Game, m: Move) {
    WellFormed(g) &&
    match m
    case Flip => g.phase == FlipPhase
    case Draw => g.phase == DecisionPhase && (!g.players[g.turn].isAI || |g.table| < 2)
    case Extract => g.phase == DecisionPhase
    case Discard(idx) => g.phase == DiscardSelect && idx < |g.table|
    case ConfirmLoss => g.phase == Bust
    case SelectCard(idx) =>
      g.phase == GiftExchange && !g.players[g.turn].isAI && idx < |g.players[g.turn].collected|
    case Transfer(target) =>
      && g.phase == GiftExchange && target < |g.players| && target != g.turn
      && g.giftSelected.Some? && g.giftSelected.value < |g.players[g.turn].collected|
    case SkipTransfer => g.phase == GiftExchange && g.giftSelected.None?
  }

  /** The handler the move triggers. */
  function Apply(g: Game, m: Move): Game
    requires Enabled(g, m)
  {
    match m
    case Flip => StartTurn(g)
    case Draw => DrawMore(g)
    case Extract => Collect(g)
    case Discard(idx) => HandleDiscard(g, idx)
    case ConfirmLoss => EndTurn(g)
    case SelectCard(idx) => SelectGiftCard(g, idx)
    case Transfer(target) => HandleGift(g, target)
    case SkipTransfer => SkipGift(g)
  }

  /** Plays the moves in order; a move that cannot be made does nothing. */
  function Run(g: Game, ms: seq<Move>): Game
    decreases |ms|
  {
    if |ms| == 0 then g
    else Run(if Enabled(g, ms[0]) then Apply(g, ms[0]) else g, ms[1..])
  }

  /** The automated player acts: for an automated current player in a game
      that is not over (and has left the menus), some move. */
  predicate AiActs(g: Game) {
    WellFormed(g) && g.players[g.turn].isAI && g.phase !in {Intro, Lobby, GameOver}
  }

  /** The move the automated driver makes for an automated current player, as
      the component's timer does it; `pushLuck` stands for the random draw that
      succeeds seven times in ten. */
  function AiMove(g: Game, pushLuck: bool): (m: Option<Move>)
    ensures m.Some? <==> AiActs(g)
    ensures m.Some? && g.phase == DecisionPhase && |g.table| >= 2 ==> m.value == Extract
    ensures AiActs(g) && g.phase == FlipPhase ==> m == Some(Flip)
    ensures AiActs(g) && g.phase == DecisionPhase ==> m == Some(if |g.table| < 2 && pushLuck then Draw else Extract)
    ensures AiActs(g) && g.phase == Bust ==> m == Some(ConfirmLoss)
    ensures AiActs(g) && g.phase == DiscardSelect ==> m == Some(Discard(0))
    ensures AiActs(g) && g.phase == GiftExchange ==> m == Some(SkipTransfer)
  {
    if !WellFormed(g) || !g.players[g.turn].isAI then None
    else
      match g.phase
      case FlipPhase => Some(Flip)
      case DecisionPhase => if |g.table| < 2 && pushLuck then Some(Draw) else Some(Extract)
      case Bust => Some(ConfirmLoss)
      case DiscardSelect => Some(Discard(0))
      case GiftExchange => Some(SkipTransfer)
      case _ => None
  }

  /** The driver re-arms its timer only when the phase, the turn, the players
      or the table changed. */
  predicate Rearms(g: Game, next: Game) {
    next.phase != g.phase || next.turn != g.turn || next.players != g.players || next.table != g.table
  }

  /** The driver with the stall removed: on an empty deck it extracts instead
      of pushing its luck, since a draw from an empty deck does nothing. */
  function AiMoveFixed(g: Game, pushLuck: bool): (m: Option<Move>)
    ensures m.Some? <==> AiActs(g)
    ensures AiActs(g) && g.phase == DecisionPhase && |g.deck| == 0 ==> m == Some(Extract)
    ensures |g.deck| > 0 || g.phase != DecisionPhase ==> m == AiMove(g, pushLuck)
  {
    if AiActs(g) && g.phase == DecisionPhase && |g.deck| == 0 then Some(Extract)
    else AiMove(g, pushLuck)
  }

  /** The table cards that are only on the table: after a bust the last one
      is still the head of the deck as well. */
  function Held(g: Game): seq<Card> {
    if g.phase == Bust && |g.table| > 0 then g.table[..|g.table| - 1] else g.table
  }

  /** Every card still in play, each counted once. */
  function Pool(g: Game): multiset<Card> {
    multiset(g.deck) + multiset(Held(g)) + Hands(g.players)
  }

  /** What each phase guarantees about the table, the deck and the gift selection. */
  predicate Shape(g: Game) {
    && WellFormed(g)
    && g.phase != Intro && g.phase != Lobby
    && (g.phase == FlipPhase || g.phase == GiftExchange || g.phase == GameOver ==> g.table == [])
    && (g.phase == DecisionPhase ==> |g.table| >= 1 && DistinctGoals(g.table))
    && (g.phase == DiscardSelect ==> |g.table| >= 2 && DistinctGoals(g.table))
    && (g.phase == Bust ==>
          && |g.table| >= 2 && |g.deck| >= 1
          && g.table[|g.table| - 1] == g.deck[0]
          && DistinctGoals(g.table[..|g.table| - 1])
          && GoalOnTable(g.table[..|g.table| - 1], g.deck[0].goal))
    && (g.giftSelected.Some? ==>
          && g.phase == GiftExchange && !g.players[g.turn].isAI
          && g.giftSelected.value < |g.players[g.turn].collected|)
  }

  /** The state invariant: the phase shape holds and every card in play comes
      from the deck the game started with, `full`. */
  ghost predicate Inv(g: Game, full: multiset<Card>) {
    Shape(g) && Pool(g) <= full
  }

  /** A new game satisfies the invariant for the deck it was dealt. */
  lemma NewGameInv(userName: string, deck: seq<Card>)
    ensures Inv(NewGame(userName, deck), multiset(deck))
    ensures Pool(NewGame(userName, deck)) == multiset(deck)
  {
  }

  /** Flipping the first card moves it from the deck to the table. */
  lemma StartTurnKeepsCards(g: Game)
    requires Shape(g) && g.phase == FlipPhase
    ensures Shape(StartTurn(g)) && Pool(StartTurn(g)) == Pool(g)
  {
  }

  /** Drawing moves the head of the deck to the table, or on a bust shows it
      on the table while it stays in the deck. */
  lemma DrawMoreKeepsCards(g: Game)
    requires Shape(g) && g.phase == DecisionPhase
    ensures Shape(DrawMore(g)) && Pool(DrawMore(g)) == Pool(g)
  {
    var r := DrawMore(g);
    if |g.deck| > 0 {
      if r.phase == Bust {
        assert Held(r) == g.table;
      } else {
        assert g.deck == [g.deck[0]] + g.deck[1..];
      }
    }
  }

  /** Collecting one card moves it to the current player's hand. */
  lemma CollectKeepsCards(g: Game)
    requires Shape(g) && g.phase == DecisionPhase
    ensures Shape(Collect(g)) && Pool(Collect(g)) == Pool(g)
  {
    if |g.table| == 1 {
      AddToHandPools(g.players, g.turn, g.table);
    }
  }

  /** Discarding takes exactly the chosen card out of play. */
  lemma DiscardDropsOneCard(g: Game, idx: nat)
    requires Shape(g) && g.phase == DiscardSelect && idx < |g.table|
    ensures Shape(HandleDiscard(g, idx))
    ensures Pool(HandleDiscard(g, idx)) + multiset{g.table[idx]} == Pool(g)
  {
    AddToHandPools(g.players, g.turn, DropIndex(g.table, idx));
    DropIndexSplits(g.table, idx);
  }

  /** Confirming a bust takes the table out of play, except the duplicate,
      which stays in the deck. */
  lemma ConfirmLossDropsTable(g: Game)
    requires Shape(g) && g.phase == Bust
    ensures Shape(EndTurn(g)) && EndTurn(g).phase == FlipPhase
    ensures Pool(EndTurn(g)) + multiset(g.table[..|g.table| - 1]) == Pool(g)
  {
  }

  /** The gift exchange moves one card between hands and loses none. */
  lemma GiftKeepsCards(g: Game, target: nat)
    requires Shape(g) && Enabled(g, Transfer(target))
    ensures Shape(HandleGift(g, target)) && Pool(HandleGift(g, target)) == Pool(g)
  {
    GiftConservesCards(g, target);
  }

  lemma SkipKeepsCards(g: Game)
    requires Shape(g) && Enabled(g, SkipTransfer)
    ensures Shape(SkipGift(g)) && Pool(SkipGift(g)) == Pool(g)
  {
    HandsOfSameCollections(SkipGift(g).players, g.players);
  }

  /** Every move that can be made keeps the invariant, and no move brings a
      card into play. */
  lemma StepKeepsInv(g: Game, m: Move, full: multiset<Card>)
    requires Inv(g, full) && Enabled(g, m)
    ensures Inv(Apply(g, m), full)
    ensures Pool(Apply(g, m)) <= Pool(g)
  {
    match m
    case Flip => StartTurnKeepsCards(g);
    case Draw => DrawMoreKeepsCards(g);
    case Extract => CollectKeepsCards(g);
    case Discard(idx) => DiscardDropsOneCard(g, idx);
    case ConfirmLoss => ConfirmLossDropsTable(g);
    case SelectCard(idx) =>
    case Transfer(target) => GiftKeepsCards(g, target);
    case SkipTransfer => SkipKeepsCards(g);
  }

  /** Any sequence of moves keeps the invariant. */
  lemma {:induction false} RunKeepsInv(g: Game, ms: seq<Move>, full: multiset<Card>)
    requires Inv(g, full)
    ensures Inv(Run(g, ms), full)
    decreases |ms|
  {
    if |ms| > 0 {
      var next := if Enabled(g, ms[0]) then Apply(g, ms[0]) else g;
      if Enabled(g, ms[0]) {
        StepKeepsInv(g, ms[0], full);
      }
      RunKeepsInv(next, ms[1..], full);
    }
  }

  /** In every state a game can reach, each card of the starting deck is in
      at most one place: the deck, the table, or one player's hand, except
      that after a bust the last table card is still the head of the deck. */
  lemma CardsStayUnique(userName: string, deck: seq<Card>, ms: seq<Move>)
    requires NoDuplicates(multiset(deck))
    ensures Pool(Run(NewGame(userName, deck), ms)) <= multiset(deck)
    ensures NoDuplicates(Pool(Run(NewGame(userName, deck), ms)))
    ensures Shape(Run(NewGame(userName, deck), ms))
  {
    NewGameInv(userName, deck);
    RunKeepsInv(NewGame(userName, deck), ms, multiset(deck));
    var p := Pool(Run(NewGame(userName, deck), ms));
    assert forall c :: p[c] <= multiset(deck)[c];
  }

  /** A bust never ends the game: the duplicate is still in the deck. */
  lemma BustNeverOpensGiftExchange(g: Game)
    requires Shape(g) && g.phase == Bust
    ensures EndTurn(g).phase == FlipPhase
    ensures EndTurn(g).turn == (g.turn + 1) % |g.players|
  {
  }

  /** The card that caused a bust is the next turn's first card. */
  lemma BustCardComesBack(g: Game)
    requires Shape(g) && g.phase == Bust
    ensures StartTurn(EndTurn(g)).table == [g.table[|g.table| - 1]]
  {
  }

  /** The automated driver only makes moves that can be made. */
  lemma AiMovesAreEnabled(g: Game, pushLuck: bool)
    requires Shape(g)
    requires AiMove(g, pushLuck).Some?
    ensures Enabled(g, AiMove(g, pushLuck).value)
  {
  }

  /** The driver as written can stall. In a new game with two cards, the
      user flips one and extracts it, and the first automated player flips the
      last card. If it pushes its luck, the draw from the empty deck changes
      nothing the driver watches, so its timer is never armed again, and the
      user has no control to use either. */
  lemma AiStallsOnEmptyDeck(c0: Card, c: Card)
    ensures var g := Run(NewGame("you", [c0, c]), [Flip, Extract, Flip]);
      && g.phase == DecisionPhase && g.turn == 1 && g.deck == [] && g.table == [c]
      && AiMove(g, true) == Some(Draw) && Enabled(g, Draw)
      && Apply(g, Draw) == g && !Rearms(g, Apply(g, Draw))
      && forall m :: !HumanCan(g, m)
  {
  }

  /** Every move of the corrected driver is offered and re-arms the driver, so
      it never stalls. */
  lemma AiMoveFixedProgresses(g: Game, pushLuck: bool)
    requires Shape(g)
    requires AiMoveFixed(g, pushLuck).Some?
    ensures Enabled(g, AiMoveFixed(g, pushLuck).value)
    ensures Rearms(g, Apply(g, AiMoveFixed(g, pushLuck).value))
  {
  }

  /** The human's controls: the buttons and hand-card clicks show only while
      the human is the current player; table-card clicks and the transfer
      buttons are not gated on who is current. */
  predicate HumanCan(g: Game, m: Move) {
    Enabled(g, m) && (m.Discard? || m.Transfer? || !g.players[g.turn].isAI)
  }

  /** Until the game is over, the human's controls offer some move while the
      human is the current player, and the driver acts while an automated
      player is. */
  lemma BoardNeverStuck(g: Game)
    requires Shape(g) && g.phase != GameOver
    ensures !g.players[g.turn].isAI ==> exists m :: HumanCan(g, m)
    ensures g.players[g.turn].isAI ==> AiActs(g)
  {
    if !g.players[g.turn].isAI {
      match g.phase
      case FlipPhase => assert HumanCan(g, Flip);
      case DecisionPhase => assert HumanCan(g, Extract);
      case Bust => assert HumanCan(g, ConfirmLoss);
      case DiscardSelect => assert HumanCan(g, Discard(0));
      case GiftExchange =>
        if g.giftSelected.None? {
          assert HumanCan(g, SkipTransfer);
        } else {
          assert HumanCan(g, SelectCard(g.giftSelected.value));
        }
    }
  }

  /** What identifies a seat: the player's id, name and whether the driver plays it. */
  function Seat(p: Player): (string, string, bool) {
    (p.id, p.name, p.isAI)
  }

  /** Two player lists with the same seats in the same order. */
  predicate SameSeats(ps: seq<Player>, qs: seq<Player>) {
    |ps| == |qs| && forall i :: 0 <= i < |ps| ==> Seat(ps[i]) == Seat(qs[i])
  }

  /** No move changes who sits where: only hands and final scores change. */
  lemma StepKeepsSeats(g: Game, m: Move)
    requires Enabled(g, m)
    ensures SameSeats(g.players, Apply(g, m).players)
  {
  }

  /** Across any sequence of moves, every player keeps their id, name and
      whether the driver plays them. */
  lemma {:induction false} RunKeepsSeats(g: Game, ms: seq<Move>)
    ensures SameSeats(g.players, Run(g, ms).players)
    decreases |ms|
  {
    if |ms| > 0 {
      var next := if Enabled(g, ms[0]) then Apply(g, ms[0]) else g;
      if Enabled(g, ms[0]) {
        StepKeepsSeats(g, ms[0]);
      }
      RunKeepsSeats(next, ms[1..]);
    }
  }

  /** Every card on display: the deck, the table and the hands. */
  function Shown(g: Game): multiset<Card> {
    multiset(g.deck) + multiset(g.table) + Hands(g.players)
  }

  /** What `Shown` counts twice: after a bust, the head of the deck is also on the table. */
  function Doubled(g: Game): multiset<Card> {
    if g.phase == Bust && |g.deck| > 0 then multiset{g.deck[0]} else multiset{}
  }

  /** Each card on display is in one place, except that after a bust the last
      table card is still the head of the deck. */
  lemma ShownCards(g: Game)
    requires Shape(g)
    ensures Shown(g) == Pool(g) + Doubled(g)
  {
    if g.phase == Bust {
      var n := |g.table|;
      assert g.table == g.table[..n - 1] + [g.deck[0]];
      assert multiset(g.table) == multiset(Held(g)) + multiset{g.deck[0]};
    }
  }

  /** Whether a move ends a player's slot in the gift exchange. */
  predicate EndsSlot(m: Move) {
    m.Transfer? || m.SkipTransfer?
  }

  /** The number of moves in `ms` that end a slot. */
  function SlotsEnded(ms: seq<Move>): nat {
    if |ms| == 0 then 0
    else SlotsEnded(ms[..|ms| - 1]) + (if EndsSlot(ms[|ms| - 1]) then 1 else 0)
  }

  /** `states` is a run of gift-exchange moves: each state follows from the
      previous one by a selection, a transfer or a skip that can be made. */
  predicate GiftTrace(states: seq<Game>, moves: seq<Move>) {
    && |states| == |moves| + 1
    && forall k :: 0 <= k < |moves| ==>
         && (moves[k].SelectCard? || EndsSlot(moves[k]))
         && Enabled(states[k], moves[k])
         && states[k + 1] == Apply(states[k], moves[k])
  }

  lemma {:induction false} GiftTracePrefix(states: seq<Game>, moves: seq<Move>, k: nat)
    requires GiftTrace(states, moves)
    requires states[0].phase == GiftExchange && states[0].turn == 0 && WellFormed(states[0])
    requires k < |states|
    ensures |states[k].players| == |states[0].players|
    ensures SlotsEnded(moves[..k]) <= |states[0].players|
    ensures SlotsEnded(moves[..k]) < |states[0].players| ==>
      states[k].phase == GiftExchange && states[k].turn == SlotsEnded(moves[..k])
    ensures SlotsEnded(moves[..k]) == |states[0].players| ==> states[k].phase == GameOver
  {
    if k > 0 {
      GiftTracePrefix(states, moves, k - 1);
      assert moves[..k][..k - 1] == moves[..k - 1];
      var g, m := states[k - 1], moves[k - 1];
      assert Enabled(g, m);
      match m
      case SelectCard(idx) =>
      case Transfer(target) =>
      case SkipTransfer =>
    }
  }

  /** The gift exchange gives each player exactly one slot, in seating order:
      while slots remain, the current player is the one whose slot is next,
      and the game is over exactly when every player has had a slot. */
  lemma GiftSlotsInOrder(states: seq<Game>, moves: seq<Move>)
    requires GiftTrace(states, moves)
    requires states[0].phase == GiftExchange && states[0].turn == 0 && WellFormed(states[0])
    ensures forall k :: 0 <= k < |states| ==> SlotsEnded(moves[..k]) <= |states[0].players|
    ensures forall k :: 0 <= k < |states| && SlotsEnded(moves[..k]) < |states[0].players| ==>
      states[k].phase == GiftExchange && states[k].turn == SlotsEnded(moves[..k])
    ensures forall k :: 0 <= k < |states| ==>
      (states[k].phase == GameOver <==> SlotsEnded(moves[..k]) == |states[0].players|)
  {
    forall k | 0 <= k < |states|
      ensures SlotsEnded(moves[..k]) <= |states[0].players|
      ensures SlotsEnded(moves[..k]) < |states[0].players| ==>
        states[k].phase == GiftExchange && states[k].turn == SlotsEnded(moves[..k])
      ensures states[k].phase == GameOver <==> SlotsEnded(moves[..k]) == |states[0].players|
    {
      GiftTracePrefix(states, moves, k);
    }
  }

  /** Starts a game as `initGame` does: builds and shuffles the deck and
      deals it to a new game. From there, whatever moves are made, every state
      has its phase's shape, every player keeps their seat, no card is ever in two places except that after
      a bust the last table card is still the head of the deck, and a table
      awaiting a decision never holds two cards of the same goal. */
  method InitGame(userName: string, swaps: seq<(nat, nat)>) returns (g: Game)
    requires SwapsFit(swaps, TotalCopies(DeckCounts))
    ensures g == NewGame(userName, g.deck)
    ensures |g.deck| == 79
    ensures forall i :: 0 <= i < |DeckCounts| ==> Count(g.deck, DeckCounts[i].0) == DeckCounts[i].1
    ensures forall ms :: NoDuplicates(Pool(Run(g, ms)))
    ensures forall ms :: Run(g, ms).phase == DecisionPhase ==> DistinctGoals(Run(g, ms).table)
    ensures forall ms :: Shown(Run(g, ms)) == Pool(Run(g, ms)) + Doubled(Run(g, ms))
    ensures forall ms :: Shape(Run(g, ms))
    ensures forall ms :: SameSeats(g.players, Run(g, ms).players)
  {
    var deck := CreateDeck(swaps);
    g := NewGame(userName, deck);
    forall ms: seq<Move>
      ensures NoDuplicates(Pool(Run(g, ms)))
      ensures Run(g, ms).phase == DecisionPhase ==> DistinctGoals(Run(g, ms).table)
      ensures Shown(Run(g, ms)) == Pool(Run(g, ms)) + Doubled(Run(g, ms))
      ensures Shape(Run(g, ms))
      ensures SameSeats(g.players, Run(g, ms).players)
    {
      CardsStayUnique(userName, deck, ms);
      NewGameInv(userName, deck);
      RunKeepsInv(g, ms, multiset(deck));
      ShownCards(Run(g, ms));
      RunKeepsSeats(g, ms);
    }
  }
}
