/** Final scoring: a player's points from the goals of the cards they hold,
    and the team verdict against the target. */
module Scoring {
  import opened Types
  import opened Cards
  import opened Constants

  /** The count recorded for `goal`, 0 when it has none (the `|| 0` of the component). */
  function Lookup(m: map<int, nat>, goal: int): nat {
    if goal in m then m[goal] else 0
  }

  /** The per-goal counts, accumulated card by card from `acc` the way the
      component's `forEach` fills its record. */
  function TallyFrom(acc: map<int, nat>, s: seq<Card>): map<int, nat>
    decreases |s|
  {
    if |s| == 0 then acc
    else TallyFrom(acc[s[0].goal := Lookup(acc, s[0].goal) + 1], s[1..])
  }

  function Tally(s: seq<Card>): map<int, nat> {
    TallyFrom(map[], s)
  }

  /** The goal-17 bonus: 2 for one to three cards, 4 for four to six, and
      nothing otherwise, seven or more included. */
  function CurveBonus(n: nat): nat {
    if 1 <= n <= 3 then 2
    else if 4 <= n <= 6 then 4
    else 0
  }

  /** The points of a record of counts, added up in the order the component adds them. */
  function ScoreCounts(m: map<int, nat>): nat {
    var c1 := Lookup(m, 1);
    var c2 := Lookup(m, 2);
    2 * c1
    + (if c2 > 0 then c2 + 1 else 0)
    + (if Lookup(m, 4) > 0 then 2 else 0)
    + (if Lookup(m, 13) > 0 then 2 else 0)
    + (if Lookup(m, 6) > 0 then 1 else 0)
    + (if Lookup(m, 14) > 0 then 1 else 0)
    + (if Lookup(m, 15) > 0 then 1 else 0)
    + CurveBonus(Lookup(m, 17))
  }

  /** A player's final score: 2 per goal-1 card, the goal-2 count plus one
      when any, 2 for each of goals 4 and 13 held, 1 for each of goals 6, 14
      and 15 held, and the goal-17 curve bonus. */
  function Score(hand: seq<Card>): (r: nat)
    ensures r == 2 * Count(hand, 1)
      + (if Count(hand, 2) > 0 then Count(hand, 2) + 1 else 0)
      + (if Count(hand, 4) > 0 then 2 else 0) + (if Count(hand, 13) > 0 then 2 else 0)
      + (if Count(hand, 6) > 0 then 1 else 0) + (if Count(hand, 14) > 0 then 1 else 0)
      + (if Count(hand, 15) > 0 then 1 else 0)
      + CurveBonus(Count(hand, 17))
  {
    TallyCounts(hand, 1); TallyCounts(hand, 2); TallyCounts(hand, 4); TallyCounts(hand, 6);
    TallyCounts(hand, 13); TallyCounts(hand, 14); TallyCounts(hand, 15); TallyCounts(hand, 17);
    ScoreCounts(Tally(hand))
  }

  /** The scoring categories of the goals. */
  datatype Rule =
    | PerCard(points: nat)   // points for every card
    | CountPlusOne           // one point per card plus one, when any
    | Flat(points: nat)      // a fixed award when any card is held
    | Curve                  // the goal-17 brackets
    | NoPoints

  /** The category of each goal. */
  function RuleOf(goal: int): Rule {
    if goal == 1 then PerCard(2)
    else if goal == 2 then CountPlusOne
    else if goal == 4 || goal == 13 then Flat(2)
    else if goal == 6 || goal == 14 || goal == 15 then Flat(1)
    else if goal == 17 then Curve
    else NoPoints
  }

  /** The points a rule awards for `n` cards. */
  function Award(rule: Rule, n: nat): nat {
    match rule
    case PerCard(p) => p * n
    case CountPlusOne => if n > 0 then n + 1 else 0
    case Flat(p) => if n > 0 then p else 0
    case Curve => CurveBonus(n)
    case NoPoints => 0
  }

  /** The rule-by-rule reference score: each goal in `goals` awards its
      category's points for the number of cards of that goal in `hand`. */
  function RuleScore(hand: seq<Card>, goals: seq<int>): nat {
    if |goals| == 0 then 0
    else RuleScore(hand, goals[..|goals| - 1]) + Award(RuleOf(goals[|goals| - 1]), Count(hand, goals[|goals| - 1]))
  }

  /** The goals that score, in ascending order. */
  const ScoringGoals: seq<int> := [1, 2, 4, 6, 13, 14, 15, 17]

  /** The team total: the sum of every player's score. */
  function TotalScore(ps: seq<Player>): nat {
    if |ps| == 0 then 0 else TotalScore(ps[..|ps| - 1]) + Score(ps[|ps| - 1].collected)
  }

  /** The team wins when its total reaches the target. */
  predicate Passed(total: int) {
    total >= TargetScore
  }

  /** The record filled card by card holds, for every goal, the number of its cards. */
  lemma {:induction false} TallyFromCounts(acc: map<int, nat>, s: seq<Card>, goal: int)
    ensures Lookup(TallyFrom(acc, s), goal) == Lookup(acc, goal) + Count(s, goal)
    decreases |s|
  {
    if |s| > 0 {
      var acc' := acc[s[0].goal := Lookup(acc, s[0].goal) + 1];
      TallyFromCounts(acc', s[1..], goal);
      assert s == [s[0]] + s[1..];
      CountAppend([s[0]], s[1..], goal);
      assert [s[0]][..0] == [];
    }
  }

  lemma TallyCounts(s: seq<Card>, goal: int)
    ensures Lookup(Tally(s), goal) == Count(s, goal)
  {
    TallyFromCounts(map[], s, goal);
  }

  /** The component's tally-and-add computation agrees with the rule-by-rule
      reference: the score is 2 per goal-1 card, the goal-2 count plus one when
      any, 2 for each of goals 4 and 13 held, 1 for each of goals 6, 14 and 15
      held, and the goal-17 curve bonus. */
  lemma ScoreFollowsRules(hand: seq<Card>)
    ensures Score(hand) == RuleScore(hand, ScoringGoals)
  {
    var goals := ScoringGoals;
    TallyCounts(hand, 1); TallyCounts(hand, 2); TallyCounts(hand, 4); TallyCounts(hand, 6);
    TallyCounts(hand, 13); TallyCounts(hand, 14); TallyCounts(hand, 15); TallyCounts(hand, 17);
    var c2 := Count(hand, 2);
    assert goals[..1][..0] == [];
    assert RuleScore(hand, goals[..1]) == 2 * Count(hand, 1);
    assert goals[..2][..1] == goals[..1];
    assert RuleScore(hand, goals[..2]) == 2 * Count(hand, 1) + (if c2 > 0 then c2 + 1 else 0);
    assert goals[..3][..2] == goals[..2];
    assert RuleScore(hand, goals[..3]) == RuleScore(hand, goals[..2]) + Award(Flat(2), Count(hand, 4));
    assert goals[..4][..3] == goals[..3];
    assert RuleScore(hand, goals[..4]) == RuleScore(hand, goals[..3]) + Award(Flat(1), Count(hand, 6));
    assert goals[..5][..4] == goals[..4];
    assert RuleScore(hand, goals[..5]) == RuleScore(hand, goals[..4]) + Award(Flat(2), Count(hand, 13));
    assert goals[..6][..5] == goals[..5];
    assert RuleScore(hand, goals[..6]) == RuleScore(hand, goals[..5]) + Award(Flat(1), Count(hand, 14));
    assert goals[..7][..6] == goals[..6];
    assert RuleScore(hand, goals[..7]) == RuleScore(hand, goals[..6]) + Award(Flat(1), Count(hand, 15));
    assert goals[..8][..7] == goals[..7];
    assert RuleScore(hand, goals[..8]) == RuleScore(hand, goals[..7]) + CurveBonus(Count(hand, 17));
    assert goals[..8] == goals;
  }

  /** A score depends only on which cards are held, not on their order. */
  lemma ScoreIgnoresOrder(a: seq<Card>, b: seq<Card>)
    requires multiset(a) == multiset(b)
    ensures Score(a) == Score(b)
  {
    forall goal | goal in {1, 2, 4, 6, 13, 14, 15, 17}
      ensures Lookup(Tally(a), goal) == Lookup(Tally(b), goal)
    {
      TallyCounts(a, goal);
      TallyCounts(b, goal);
      CountPermutation(a, b, goal);
    }
  }

  /** An empty hand scores nothing. */
  lemma EmptyHandScoresZero()
    ensures Score([]) == 0
  {
    TallyCounts([], 1); TallyCounts([], 2); TallyCounts([], 4); TallyCounts([], 6);
    TallyCounts([], 13); TallyCounts([], 14); TallyCounts([], 15); TallyCounts([], 17);
  }

  /** Cards of goals outside the scoring categories add nothing. */
  lemma UnscoredGoalAddsNothing(hand: seq<Card>, c: Card)
    requires RuleOf(c.goal) == NoPoints
    ensures Score(hand + [c]) == Score(hand)
  {
  }

  /** The hand {1, 1, 2, 2, 2, 17, 17} scores 2 x 2 + (3 + 1) + 2 = 10. */
  lemma ExampleHandScoresTen(a: Card, b: Card, c: Card, d: Card, e: Card, f: Card, h: Card)
    requires a.goal == 1 && b.goal == 1
    requires c.goal == 2 && d.goal == 2 && e.goal == 2
    requires f.goal == 17 && h.goal == 17
    ensures Score([a, b, c, d, e, f, h]) == 10
  {
    var hand := [a, b, c, d, e, f, h];
    forall goal | goal in {1, 2, 4, 6, 13, 14, 15, 17}
      ensures Lookup(Tally(hand), goal) == (if goal == 1 then 2 else if goal == 2 then 3 else if goal == 17 then 2 else 0)
    {
      TallyCounts(hand, goal);
      assert hand[..1][..0] == [] && hand[..2][..1] == hand[..1] && hand[..3][..2] == hand[..2];
      assert hand[..4][..3] == hand[..3] && hand[..5][..4] == hand[..4] && hand[..6][..5] == hand[..5];
      assert hand[..7][..6] == hand[..6] && hand[..7] == hand;
      assert Count(hand[..1], goal) == (if goal == 1 then 1 else 0);
      assert Count(hand[..2], goal) == (if goal == 1 then 2 else 0);
      assert Count(hand[..3], goal) == (if goal == 1 then 2 else if goal == 2 then 1 else 0);
      assert Count(hand[..4], goal) == (if goal == 1 then 2 else if goal == 2 then 2 else 0);
      assert Count(hand[..5], goal) == (if goal == 1 then 2 else if goal == 2 then 3 else 0);
      assert Count(hand[..6], goal) == (if goal == 1 then 2 else if goal == 2 then 3 else if goal == 17 then 1 else 0);
    }
  }

  /** The goal-17 bonus is not monotone: a seventh card takes the bonus from 4 to 0. */
  lemma SeventhPartnershipCardLosesBonus(hand: seq<Card>, c: Card)
    requires Count(hand, 17) == 6
    requires c.goal == 17
    ensures Score(hand + [c]) + 4 == Score(hand)
  {
  }

  /** The threshold is exact: a total of 63 passes and 62 fails. */
  lemma ThresholdIsExact()
    ensures Passed(63) && !Passed(62)
  {
  }
}
