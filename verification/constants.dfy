/** The game's fixed tables: the goal catalogue, the number of copies of each
    goal in the deck, and the team score that wins the game. */
module Constants {

  /** A catalogue entry: goal number, name and the one-line rule shown on the card. */
  datatype Goal = Goal(id: int, name: string, desc: string)

  /** The goal catalogue, keyed by goal number. */
  const SdgGoals: map<int, Goal> := map[
    1 := Goal(1, "No Poverty", "2 pts each"),
    2 := Goal(2, "Zero Hunger", "Count + 1 pt"),
    4 := Goal(4, "Quality Education", "2 pts (Max 5 pts)"),
    6 := Goal(6, "Clean Water & Sanitation", "1 pt (Max 4 pts)"),
    13 := Goal(13, "Climate Action", "2 pts (Max 5 pts)"),
    14 := Goal(14, "Life Below Water", "1 pt (Max 4 pts)"),
    15 := Goal(15, "Life on Land", "1 pt (Max 4 pts)"),
    17 := Goal(17, "Partnerships for the Goals", "Curve Scoring")
  ]

  /** The number of copies of each goal in a fresh deck, as (goal, copies)
      pairs in the order the deck builder visits them (integer keys of an
      object are enumerated in ascending order). */
  const DeckCounts: seq<(int, nat)> := [(1, 7), (2, 8), (4, 10), (6, 8), (13, 5), (14, 10), (15, 12), (17, 19)]

  /** The team total at or above which the game is won. */
  const TargetScore: int := 63

  /** The goals that have cards in the deck. */
  function Keys(t: seq<(int, nat)>): set<int> {
    set i | 0 <= i < |t| :: t[i].0
  }

  /** The copies listed for `goal`, summed over every entry naming it. */
  function CopiesOf(t: seq<(int, nat)>, goal: int): nat {
    if |t| == 0 then 0
    else CopiesOf(t[..|t| - 1], goal) + (if t[|t| - 1].0 == goal then t[|t| - 1].1 else 0)
  }

  /** The total number of cards the table describes. */
  function TotalCopies(t: seq<(int, nat)>): nat {
    if |t| == 0 then 0 else TotalCopies(t[..|t| - 1]) + t[|t| - 1].1
  }

  /** No goal is listed twice. */
  predicate DistinctKeys(t: seq<(int, nat)>) {
    forall i, j :: 0 <= i < j < |t| ==> t[i].0 != t[j].0
  }

  /** A goal the table does not list has no copies. */
  lemma {:induction false} CopiesOfMissing(t: seq<(int, nat)>, goal: int)
    requires goal !in Keys(t)
    ensures CopiesOf(t, goal) == 0
    decreases |t|
  {
    if |t| > 0 {
      var front := t[..|t| - 1];
      assert Keys(front) <= Keys(t) by {
        forall k | k in Keys(front) ensures k in Keys(t) {
          var i :| 0 <= i < |front| && front[i].0 == k;
          assert t[i].0 == k;
        }
      }
      assert t[|t| - 1].0 in Keys(t);
      CopiesOfMissing(front, goal);
    }
  }

  /** When no goal is listed twice, a listed goal has exactly its listed copies. */
  lemma {:induction false} CopiesOfListed(t: seq<(int, nat)>, i: nat)
    requires DistinctKeys(t)
    requires i < |t|
    ensures CopiesOf(t, t[i].0) == t[i].1
    decreases |t|
  {
    var front := t[..|t| - 1];
    if i == |t| - 1 {
      assert t[i].0 !in Keys(front);
      CopiesOfMissing(front, t[i].0);
    } else {
      assert front[i] == t[i];
      CopiesOfListed(front, i);
    }
  }

  /** The deck holds goals 1, 2, 4, 6, 13, 14, 15 and 17 and no others. */
  lemma DeckGoals()
    ensures Keys(DeckCounts) == {1, 2, 4, 6, 13, 14, 15, 17}
    ensures DistinctKeys(DeckCounts)
  {
    var k := Keys(DeckCounts);
    assert DeckCounts[0].0 == 1 && DeckCounts[1].0 == 2 && DeckCounts[2].0 == 4 && DeckCounts[3].0 == 6;
    assert DeckCounts[4].0 == 13 && DeckCounts[5].0 == 14 && DeckCounts[6].0 == 15 && DeckCounts[7].0 == 17;
    assert {1, 2, 4, 6, 13, 14, 15, 17} <= k;
  }

  /** A full deck has 7 + 8 + 10 + 8 + 5 + 10 + 12 + 19 = 79 cards. */
  lemma DeckSize()
    ensures TotalCopies(DeckCounts) == 79
  {
    assert DeckCounts[..1][..0] == DeckCounts[..0];
    assert TotalCopies(DeckCounts[..1]) == 7;
    assert DeckCounts[..2][..1] == DeckCounts[..1];
    assert TotalCopies(DeckCounts[..2]) == 15;
    assert DeckCounts[..3][..2] == DeckCounts[..2];
    assert TotalCopies(DeckCounts[..3]) == 25;
    assert DeckCounts[..4][..3] == DeckCounts[..3];
    assert TotalCopies(DeckCounts[..4]) == 33;
    assert DeckCounts[..5][..4] == DeckCounts[..4];
    assert TotalCopies(DeckCounts[..5]) == 38;
    assert DeckCounts[..6][..5] == DeckCounts[..5];
    assert TotalCopies(DeckCounts[..6]) == 48;
    assert DeckCounts[..7][..6] == DeckCounts[..6];
    assert TotalCopies(DeckCounts[..7]) == 60;
    assert DeckCounts[..8][..7] == DeckCounts[..7];
    assert TotalCopies(DeckCounts[..8]) == 79;
    assert DeckCounts[..8] == DeckCounts;
  }

  /** Every goal of the deck has a catalogue entry carrying the same number. */
  lemma DeckGoalsCatalogued()
    ensures forall g :: g in Keys(DeckCounts) ==> g in SdgGoals && SdgGoals[g].id == g
  {
  }

  /** Goal 17 has 19 copies, more than the 6 after which its curve bonus is 0,
      so one player can hold more than 6 of them. */
  lemma PartnershipCopiesExceedCurve()
    ensures CopiesOf(DeckCounts, 17) == 19 > 6
  {
    DeckGoals();
    CopiesOfListed(DeckCounts, 7);
  }
}
