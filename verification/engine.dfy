/** The turn engine: each handler of the component as one atomic transition of
    the game state. The handlers do not test the phase themselves (the screen
    only offers them in the right phase), so the phase is their precondition. */
module Engine {
  import opened Types
  import opened Cards
  import opened Constants
  import opened Scoring

  /** The game `initGame` sets up: the user and two automated agents, all with
      empty hands, the given (already shuffled) deck, and the first flip due. */
  function NewGame(userName: string, deck: seq<Card>): (g: Game)
    ensures g.phase == FlipPhase && g.turn == 0 && g.deck == deck && g.table == []
    ensures |g.players| == 3 && Hands(g.players) == multiset{}
    ensures !g.players[0].isAI && g.players[1].isAI && g.players[2].isAI
  {
    var ps := [
      Player("p1", userName, [], 0, false),
      Player("ai1", "Agent Byte", [], 0, true),
      Player("ai2", "Agent Logic", [], 0, true)
    ];
    assert ps[..1][..0] == [] && ps[..2][..1] == ps[..1] && ps[..3][..2] == ps[..2] && ps[..3] == ps;
    assert Hands(ps[..1]) == multiset{};
    assert Hands(ps[..2]) == multiset{};
    Game(FlipPhase, ps, 0, deck, [], None, None)
  }

  /** Opens the gift exchange with the first player. */
  function GoToGiftPhase(g: Game): (r: Game)
    ensures r.phase == GiftExchange && r.turn == 0
    ensures r.players == g.players && r.deck == g.deck && r.table == g.table
    ensures r.giftSelected == g.giftSelected && r.scoreInfo == g.scoreInfo
  {
    g.(phase := GiftExchange, turn := 0)
  }

  /** Reveals the first card of a turn, or opens the gift exchange when the
      deck is empty. */
  function StartTurn(g: Game): (r: Game)
    requires g.phase == FlipPhase
    ensures |g.deck| == 0 ==> r == GoToGiftPhase(g)
    ensures |g.deck| > 0 ==> r.phase == DecisionPhase && |r.table| == 1 && r.table + r.deck == g.deck
    ensures |g.deck| > 0 ==> r.players == g.players && r.turn == g.turn
    ensures r.phase != Bust
    ensures r.giftSelected == g.giftSelected && r.scoreInfo == g.scoreInfo
  {
    if |g.deck| == 0 then GoToGiftPhase(g)
    else g.(deck := g.deck[1..], table := [g.deck[0]], phase := DecisionPhase)
  }

  /** Reveals one more card. A card whose goal is already on the table is a
      bust: it joins the table but is NOT taken off the deck. */
  function DrawMore(g: Game): (r: Game)
    requires g.phase == DecisionPhase
    ensures |g.deck| == 0 ==> r == g
    ensures r.phase == Bust <==> |g.deck| > 0 && GoalOnTable(g.table, g.deck[0].goal)
    ensures r.phase == Bust ==> r.table == g.table + [g.deck[0]] && r.deck == g.deck
    ensures |g.deck| > 0 && !GoalOnTable(g.table, g.deck[0].goal) ==>
      r.phase == DecisionPhase && r.table == g.table + [g.deck[0]] && r.deck == g.deck[1..]
    ensures DistinctGoals(g.table) && r.phase == DecisionPhase ==> DistinctGoals(r.table)
    ensures r.players == g.players && r.turn == g.turn
    ensures r.giftSelected == g.giftSelected && r.scoreInfo == g.scoreInfo
  {
    if |g.deck| == 0 then g
    else if GoalOnTable(g.table, g.deck[0].goal) then
      g.(table := g.table + [g.deck[0]], phase := Bust)
    else
      g.(table := g.table + [g.deck[0]], deck := g.deck[1..])
  }

  /** Clears the table and passes the turn on, or opens the gift exchange when
      the deck is empty. */
  function EndTurn(g: Game): (r: Game)
    requires WellFormed(g)
    ensures r.table == [] && r.deck == g.deck && r.players == g.players
    ensures |g.deck| == 0 ==> r.phase == GiftExchange && r.turn == 0
    ensures |g.deck| > 0 ==> r.phase == FlipPhase && r.turn == (g.turn + 1) % |g.players|
    ensures WellFormed(r) && r.giftSelected == g.giftSelected && r.scoreInfo == g.scoreInfo
  {
    var cleared := g.(table := []);
    if |g.deck| == 0 then GoToGiftPhase(cleared)
    else cleared.(turn := (g.turn + 1) % |g.players|, phase := FlipPhase)
  }

  /** Banks the table: a single card goes straight to the current player and
      the turn ends; with more cards one of them must first be given up. */
  function Collect(g: Game): (r: Game)
    requires g.phase == DecisionPhase && WellFormed(g)
    ensures |g.table| == 1 ==>
      && |r.players| == |g.players|
      && r.players[g.turn].collected == g.players[g.turn].collected + g.table
      && (forall i :: 0 <= i < |r.players| && i != g.turn ==> r.players[i] == g.players[i])
      && r.table == [] && r.deck == g.deck
    ensures |g.table| == 1 ==> r.players[g.turn] == g.players[g.turn].(collected := r.players[g.turn].collected)
    ensures r.giftSelected == g.giftSelected && r.scoreInfo == g.scoreInfo
    ensures |g.table| == 1 && |g.deck| == 0 ==> r.phase == GiftExchange && r.turn == 0
    ensures |g.table| == 1 && |g.deck| > 0 ==> r.phase == FlipPhase && r.turn == (g.turn + 1) % |g.players|
    ensures |g.table| != 1 ==> r == g.(phase := DiscardSelect)
  {
    if |g.table| == 1 then
      EndTurn(g.(players := AddToHand(g.players, g.turn, g.table)))
    else
      g.(phase := DiscardSelect)
  }

  /** Gives up the table card at position `idx`; the current player keeps the
      others, in table order, and the turn ends. */
  function HandleDiscard(g: Game, idx: nat): (r: Game)
    requires g.phase == DiscardSelect && WellFormed(g)
    ensures |r.players| == |g.players|
    ensures r.players[g.turn].collected == g.players[g.turn].collected + DropIndex(g.table, idx)
    ensures idx < |g.table| ==> |r.players[g.turn].collected| == |g.players[g.turn].collected| + |g.table| - 1
    ensures forall i :: 0 <= i < |r.players| && i != g.turn ==> r.players[i] == g.players[i]
    ensures r.table == [] && r.deck == g.deck
    ensures r.players[g.turn] == g.players[g.turn].(collected := r.players[g.turn].collected)
    ensures r.giftSelected == g.giftSelected && r.scoreInfo == g.scoreInfo
    ensures |g.deck| == 0 ==> r.phase == GiftExchange && r.turn == 0
    ensures |g.deck| > 0 ==> r.phase == FlipPhase && r.turn == (g.turn + 1) % |g.players|
  {
    EndTurn(g.(players := AddToHand(g.players, g.turn, DropIndex(g.table, idx))))
  }

  /** Clicking a card of the current player's hand during the gift exchange
      selects it, or clears the selection when it was the selected one. */
  function SelectGiftCard(g: Game, idx: nat): (r: Game)
    requires g.phase == GiftExchange
    ensures r.giftSelected.Some? <==> g.giftSelected != Some(idx)
    ensures r.giftSelected.Some? ==> r.giftSelected.value == idx
    ensures r.(giftSelected := g.giftSelected) == g
  {
    g.(giftSelected := if g.giftSelected == Some(idx) then None else Some(idx))
  }

  /** Scores every player, totals the team and records the verdict. */
  function CalculateFinal(g: Game): (r: Game)
    ensures r.phase == GameOver
    ensures |r.players| == |g.players|
    ensures forall i :: 0 <= i < |r.players| ==>
      r.players[i] == g.players[i].(finalScore := Score(g.players[i].collected))
    ensures r.scoreInfo.Some?
    ensures r.scoreInfo.value.passed <==> r.scoreInfo.value.total >= TargetScore
    ensures r.deck == g.deck && r.table == g.table && r.turn == g.turn && r.giftSelected == g.giftSelected
  {
    var finalPlayers := seq(|g.players|, i requires 0 <= i < |g.players| =>
      g.players[i].(finalScore := Score(g.players[i].collected)));
    var grandTotal := TotalScore(g.players);
    g.(players := finalPlayers,
       scoreInfo := Some(ScoreInfo(grandTotal, Passed(grandTotal))),
       phase := GameOver)
  }

  /** After a gift or a skip: the next player's slot, or final scoring after
      the last player. No hand changes, and the game is over exactly when the
      last player's slot has ended. */
  function NextGiftSlot(g: Game): (r: Game)
    requires g.phase == GiftExchange && WellFormed(g)
    ensures g.turn < |g.players| - 1 ==> r == g.(turn := g.turn + 1)
    ensures g.turn == |g.players| - 1 ==> r == CalculateFinal(g)
    ensures WellFormed(r) && |r.players| == |g.players|
    ensures forall i :: 0 <= i < |g.players| ==> r.players[i].collected == g.players[i].collected
    ensures r.phase == GameOver <==> g.turn == |g.players| - 1
    ensures r.phase == GameOver ==> r.scoreInfo.Some? && r.scoreInfo.value.total == TotalScore(g.players)
  {
    if g.turn == |g.players| - 1 then CalculateFinal(g) else g.(turn := g.turn + 1)
  }

  /** The players after the card at position `sel` of player `from`'s hand
      moved to the end of player `to`'s hand. */
  function MoveCard(ps: seq<Player>, from: nat, sel: nat, to: nat): (r: seq<Player>)
    requires from < |ps| && to < |ps| && sel < |ps[from].collected|
    ensures |r| == |ps|
    ensures forall i :: 0 <= i < |ps| ==> r[i] == ps[i].(collected := r[i].collected)
  {
    var giver := ps[from];
    AddToHand(ps[from := giver.(collected := DropIndex(giver.collected, sel))], to, [giver.collected[sel]])
  }

  /** The current player's selected card, if any, leaves their hand and joins
      the end of `target`'s hand; then the next slot. Without a selection
      nothing happens. */
  function HandleGift(g: Game, target: nat): (r: Game)
    requires g.phase == GiftExchange && WellFormed(g) && target < |g.players|
    requires g.giftSelected.Some? ==> g.giftSelected.value < |g.players[g.turn].collected|
    ensures g.giftSelected.None? ==> r == g
    ensures g.giftSelected.Some? ==>
      && |r.players| == |g.players|
      && r.giftSelected.None?
      && (g.turn < |g.players| - 1 ==> r.phase == GiftExchange && r.turn == g.turn + 1)
      && (g.turn == |g.players| - 1 ==> r.phase == GameOver)
    ensures g.giftSelected.Some? && g.turn < |g.players| - 1 ==>
      r == g.(players := MoveCard(g.players, g.turn, g.giftSelected.value, target), giftSelected := None, turn := g.turn + 1)
    ensures g.giftSelected.Some? && g.turn == |g.players| - 1 ==>
      r == CalculateFinal(g.(players := MoveCard(g.players, g.turn, g.giftSelected.value, target), giftSelected := None))
    ensures g.giftSelected.Some? && target != g.turn ==>
      && r.players[g.turn].collected == DropIndex(g.players[g.turn].collected, g.giftSelected.value)
      && r.players[target].collected == g.players[target].collected + [g.players[g.turn].collected[g.giftSelected.value]]
      && (forall i :: 0 <= i < |g.players| && i != g.turn && i != target ==>
            r.players[i].collected == g.players[i].collected)
  {
    match g.giftSelected
    case None => g
    case Some(sel) =>
      NextGiftSlot(g.(players := MoveCard(g.players, g.turn, sel, target), giftSelected := None))
  }

  /** Declines to give: the next slot. */
  function SkipGift(g: Game): (r: Game)
    requires g.phase == GiftExchange && WellFormed(g)
    ensures |r.players| == |g.players|
    ensures forall i :: 0 <= i < |g.players| ==> r.players[i].collected == g.players[i].collected
    ensures g.turn < |g.players| - 1 ==> r.phase == GiftExchange && r.turn == g.turn + 1
    ensures g.turn == |g.players| - 1 ==> r.phase == GameOver
    ensures g.turn < |g.players| - 1 ==> r == g.(turn := g.turn + 1)
    ensures g.turn == |g.players| - 1 ==> r == CalculateFinal(g)
  {
    NextGiftSlot(g)
  }

  /** The sum of the scores written into the players. */
  function SumFinalScores(ps: seq<Player>): int {
    if |ps| == 0 then 0 else SumFinalScores(ps[..|ps| - 1]) + ps[|ps| - 1].finalScore
  }

  lemma {:induction false} TotalOfSameCollections(ps: seq<Player>, qs: seq<Player>)
    requires |ps| == |qs|
    requires forall i :: 0 <= i < |ps| ==> ps[i].collected == qs[i].collected
    ensures TotalScore(ps) == TotalScore(qs)
    decreases |ps|
  {
    if |ps| > 0 {
      TotalOfSameCollections(ps[..|ps| - 1], qs[..|qs| - 1]);
    }
  }

  lemma {:induction false} SumOfWrittenScores(ps: seq<Player>, qs: seq<Player>)
    requires |ps| == |qs|
    requires forall i :: 0 <= i < |ps| ==> qs[i].finalScore == Score(ps[i].collected)
    ensures SumFinalScores(qs) == TotalScore(ps)
    decreases |ps|
  {
    if |ps| > 0 {
      SumOfWrittenScores(ps[..|ps| - 1], qs[..|qs| - 1]);
    }
  }

  /** The recorded team total is the sum of the scores written into the
      players, and the game is won exactly when it reaches the target. */
  lemma FinalTotalIsSumOfScores(g: Game)
    ensures CalculateFinal(g).scoreInfo.value.total == SumFinalScores(CalculateFinal(g).players)
    ensures CalculateFinal(g).scoreInfo.value.total == TotalScore(g.players)
    ensures CalculateFinal(g).scoreInfo.value.passed <==> TotalScore(g.players) >= TargetScore
  {
    SumOfWrittenScores(g.players, CalculateFinal(g).players);
  }

  /** Scoring a scored game again changes nothing: the scores depend only on
      the hands, which scoring leaves alone. */
  lemma FinalScoringIdempotent(g: Game)
    ensures CalculateFinal(CalculateFinal(g)) == CalculateFinal(g)
  {
    var r := CalculateFinal(g);
    var rr := CalculateFinal(r);
    TotalOfSameCollections(r.players, g.players);
    assert rr.players == r.players;
  }

  lemma MoveCardConservesHands(ps: seq<Player>, from: nat, sel: nat, to: nat)
    requires from < |ps| && to < |ps| && sel < |ps[from].collected|
    ensures Hands(MoveCard(ps, from, sel, to)) == Hands(ps)
  {
    var giver := ps[from];
    var card := giver.collected[sel];
    var giver' := giver.(collected := DropIndex(giver.collected, sel));
    var mid := ps[from := giver'];
    var a, b, d := Hands(mid), Hands(ps), multiset(DropIndex(giver.collected, sel));
    var c, h := multiset(giver.collected), Hands(MoveCard(ps, from, sel, to));
    HandsUpdate(ps, from, giver');
    assert a + c == b + d;
    DropIndexSplits(giver.collected, sel);
    assert d + multiset{card} == c;
    AddToHandPools(mid, to, [card]);
    assert h == a + multiset{card};
    forall x
      ensures h[x] == b[x]
    {
      assert (a + c)[x] == (b + d)[x];
      assert (d + multiset{card})[x] == c[x];
      assert (a + multiset{card})[x] == h[x];
    }
  }

  /** A gift moves one card between hands: the cards held by the players, taken
      together, and their number are unchanged. */
  lemma GiftConservesCards(g: Game, target: nat)
    requires g.phase == GiftExchange && WellFormed(g) && target < |g.players|
    requires g.giftSelected.Some? && g.giftSelected.value < |g.players[g.turn].collected|
    ensures Hands(HandleGift(g, target).players) == Hands(g.players)
    ensures TotalCollected(HandleGift(g, target).players) == TotalCollected(g.players)
  {
    var moved := MoveCard(g.players, g.turn, g.giftSelected.value, target);
    MoveCardConservesHands(g.players, g.turn, g.giftSelected.value, target);
    var r := HandleGift(g, target);
    assert forall i :: 0 <= i < |r.players| ==> r.players[i].collected == moved[i].collected;
    HandsOfSameCollections(r.players, moved);
    HandsSize(r.players);
    HandsSize(g.players);
  }
}
