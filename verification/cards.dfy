/** Facts about sequences of cards and about the players' hands. */
module Cards {
  import opened Types

  /** The number of cards of `goal` in `s`. */
  function Count(s: seq<Card>, goal: int): (n: nat)
    ensures n <= |s|
  {
    if |s| == 0 then 0
    else Count(s[..|s| - 1], goal) + (if s[|s| - 1].goal == goal then 1 else 0)
  }

  /** Some card of `s` belongs to `goal` (the bust test of `drawMore`). */
  predicate GoalOnTable(s: seq<Card>, goal: int) {
    exists i :: 0 <= i < |s| && s[i].goal == goal
  }

  /** No two cards of `s` belong to the same goal. */
  predicate DistinctGoals(s: seq<Card>) {
    forall i, j :: 0 <= i < j < |s| ==> s[i].goal != s[j].goal
  }

  /** Every card occurs at most once. */
  ghost predicate NoDuplicates(m: multiset<Card>) {
    forall c :: m[c] <= 1
  }

  lemma {:induction false} CountAppend(a: seq<Card>, b: seq<Card>, goal: int)
    ensures Count(a + b, goal) == Count(a, goal) + Count(b, goal)
    decreases |b|
  {
    if |b| == 0 {
      assert a + b == a;
    } else {
      assert (a + b)[..|a + b| - 1] == a + b[..|b| - 1];
      CountAppend(a, b[..|b| - 1], goal);
    }
  }

  /** A card of the goal is present exactly when the count is positive. */
  lemma {:induction false} GoalOnTableIffCount(s: seq<Card>, goal: int)
    ensures GoalOnTable(s, goal) <==> Count(s, goal) > 0
    decreases |s|
  {
    if |s| > 0 {
      var front := s[..|s| - 1];
      GoalOnTableIffCount(front, goal);
      if GoalOnTable(s, goal) && s[|s| - 1].goal != goal {
        var i :| 0 <= i < |s| && s[i].goal == goal;
        assert front[i].goal == goal;
      }
      if GoalOnTable(front, goal) {
        var i :| 0 <= i < |front| && front[i].goal == goal;
        assert s[i].goal == goal;
      }
    }
  }

  /** A goal with no card of it has no card of it in the multiset either. */
  lemma {:induction false} CountZeroNotIn(s: seq<Card>, c: Card)
    requires Count(s, c.goal) == 0
    ensures c !in multiset(s)
  {
    GoalOnTableIffCount(s, c.goal);
    assert forall i :: 0 <= i < |s| ==> s[i].goal != c.goal;
  }

  /** The count of a goal depends only on which cards there are, not on their order. */
  lemma {:induction false} CountPermutation(a: seq<Card>, b: seq<Card>, goal: int)
    requires multiset(a) == multiset(b)
    ensures Count(a, goal) == Count(b, goal)
    decreases |a|
  {
    if |a| == 0 {
      assert |b| == |multiset(b)| == 0;
    } else {
      var x := a[|a| - 1];
      assert x in multiset(b);
      var j :| 0 <= j < |b| && b[j] == x;
      var rest := b[..j] + b[j + 1..];
      assert b == b[..j] + [x] + b[j + 1..];
      assert a == a[..|a| - 1] + [x];
      assert multiset(a) == multiset(a[..|a| - 1]) + multiset{x};
      assert multiset(b) == multiset(rest) + multiset{x};
      Cancel(multiset(a[..|a| - 1]), multiset(rest), multiset{x});
      CountPermutation(a[..|a| - 1], rest, goal);
      CountAppend(a[..|a| - 1], [x], goal);
      CountAppend(b[..j] + [x], b[j + 1..], goal);
      CountAppend(b[..j], [x], goal);
      CountAppend(b[..j], b[j + 1..], goal);
    }
  }

  /** `s` without the card at position `idx`, as `filter((_, i) => i !== idx)`
      computes it; an index past the end drops nothing. */
  function DropIndex(s: seq<Card>, idx: nat): (r: seq<Card>)
    ensures idx < |s| ==> |r| == |s| - 1
    ensures idx >= |s| ==> r == s
    ensures forall k :: 0 <= k < idx && k < |r| ==> r[k] == s[k]
    ensures forall k :: idx <= k < |r| ==> r[k] == s[k + 1]
    decreases |s|
  {
    if |s| == 0 then []
    else if idx == 0 then s[1..]
    else
      [s[0]] + DropIndex(s[1..], idx - 1)
  }

  /** The kept cards are the cards before and after the dropped one, in order. */
  lemma {:induction false} DropIndexSplits(s: seq<Card>, idx: nat)
    requires idx < |s|
    ensures DropIndex(s, idx) == s[..idx] + s[idx + 1..]
    ensures multiset(DropIndex(s, idx)) + multiset{s[idx]} == multiset(s)
  {
    var r := DropIndex(s, idx);
    var spliced := s[..idx] + s[idx + 1..];
    assert forall k :: 0 <= k < |r| ==> r[k] == spliced[k];
    assert r == spliced;
    assert s == s[..idx] + [s[idx]] + s[idx + 1..];
  }

  /** Multiset union cancels. */
  lemma Cancel(a: multiset<Card>, b: multiset<Card>, c: multiset<Card>)
    requires a + c == b + c
    ensures a == b
  {
    assert forall x :: a[x] == (a + c)[x] - c[x];
    assert forall x :: b[x] == (b + c)[x] - c[x];
  }

  /** All cards held by the players, taken together. */
  function Hands(ps: seq<Player>): multiset<Card>
  {
    if |ps| == 0 then multiset{}
    else Hands(ps[..|ps| - 1]) + multiset(ps[|ps| - 1].collected)
  }

  /** The number of cards held by the players, taken together. */
  function TotalCollected(ps: seq<Player>): nat
  {
    if |ps| == 0 then 0
    else TotalCollected(ps[..|ps| - 1]) + |ps[|ps| - 1].collected|
  }

  /** The players with `cards` appended to the hand of player `i`. */
  function AddToHand(ps: seq<Player>, i: nat, cards: seq<Card>): (r: seq<Player>)
    requires i < |ps|
    ensures |r| == |ps| && r[i] == ps[i].(collected := ps[i].collected + cards)
    ensures forall j :: 0 <= j < |ps| && j != i ==> r[j] == ps[j]
  {
    ps[i := ps[i].(collected := ps[i].collected + cards)]
  }

  lemma {:induction false} HandsSize(ps: seq<Player>)
    ensures |Hands(ps)| == TotalCollected(ps)
    decreases |ps|
  {
    if |ps| > 0 {
      HandsSize(ps[..|ps| - 1]);
    }
  }

  /** Replacing one player changes the pooled hands by exactly that player's cards. */
  lemma {:induction false} HandsUpdate(ps: seq<Player>, i: nat, q: Player)
    requires i < |ps|
    ensures Hands(ps[i := q]) + multiset(ps[i].collected) == Hands(ps) + multiset(q.collected)
    decreases |ps|
  {
    var n := |ps|;
    var ps' := ps[i := q];
    if i == n - 1 {
      assert ps'[..n - 1] == ps[..n - 1];
    } else {
      assert ps'[..n - 1] == ps[..n - 1][i := q];
      assert ps'[n - 1] == ps[n - 1];
      assert ps[..n - 1][i] == ps[i];
      HandsUpdate(ps[..n - 1], i, q);
      var front, front', last := Hands(ps[..n - 1]), Hands(ps[..n - 1][i := q]), multiset(ps[n - 1].collected);
      assert Hands(ps') == front' + last;
      assert Hands(ps) == front + last;
      assert front' + multiset(ps[i].collected) == front + multiset(q.collected);
      forall x
        ensures (front' + last + multiset(ps[i].collected))[x] == (front + last + multiset(q.collected))[x]
      {
        assert (front' + multiset(ps[i].collected))[x] == (front + multiset(q.collected))[x];
      }
    }
  }

  /** Players whose hands agree position by position hold the same cards. */
  lemma {:induction false} HandsOfSameCollections(ps: seq<Player>, qs: seq<Player>)
    requires |ps| == |qs|
    requires forall i :: 0 <= i < |ps| ==> ps[i].collected == qs[i].collected
    ensures Hands(ps) == Hands(qs)
    decreases |ps|
  {
    if |ps| > 0 {
      HandsOfSameCollections(ps[..|ps| - 1], qs[..|qs| - 1]);
    }
  }

  /** Appending to one hand adds exactly those cards to the pooled hands. */
  lemma {:induction false} AddToHandPools(ps: seq<Player>, i: nat, cards: seq<Card>)
    requires i < |ps|
    ensures Hands(AddToHand(ps, i, cards)) == Hands(ps) + multiset(cards)
  {
    var q := ps[i].(collected := ps[i].collected + cards);
    HandsUpdate(ps, i, q);
    assert multiset(q.collected) == multiset(ps[i].collected) + multiset(cards);
    Cancel(Hands(AddToHand(ps, i, cards)), Hands(ps) + multiset(cards), multiset(ps[i].collected));
  }
}
