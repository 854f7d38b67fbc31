/** Building the draw pile: so many copies of each goal, then shuffled. */
module Deck {
  import opened Types
  import opened Cards
  import opened Constants

  /** Copies 0 .. n - 1 of `goal`, in the order the builder pushes them. */
  function Copies(goal: int, n: nat): (r: seq<Card>)
    ensures |r| == n
  {
    if n == 0 then [] else Copies(goal, n - 1) + [Card(CardId(goal, n - 1), goal)]
  }

  /** The unshuffled deck a count table describes: each entry's copies in table order. */
  function Expand(t: seq<(int, nat)>): seq<Card>
  {
    if |t| == 0 then [] else Expand(t[..|t| - 1]) + Copies(t[|t| - 1].0, t[|t| - 1].1)
  }

  /** Every swap of the shuffle names two positions of a deck of `n` cards. */
  predicate SwapsFit(swaps: seq<(nat, nat)>, n: nat) {
    forall k :: 0 <= k < |swaps| ==> swaps[k].0 < n && swaps[k].1 < n
  }

  /** `s` with the cards at positions `i` and `j` exchanged. */
  function Swap(s: seq<Card>, i: nat, j: nat): (r: seq<Card>)
    requires i < |s| && j < |s|
    ensures |r| == |s|
    ensures multiset(r) == multiset(s)
  {
    s[i := s[j]][j := s[i]]
  }

  /** The shuffled deck. The random comparator of the component only ever permutes
      the deck; which permutation it reaches is given here as a list of swaps,
      and every permutation is reachable that way. */
  function Shuffle(s: seq<Card>, swaps: seq<(nat, nat)>): (r: seq<Card>)
    requires SwapsFit(swaps, |s|)
    ensures |r| == |s|
    ensures multiset(r) == multiset(s)
    decreases |swaps|
  {
    if |swaps| == 0 then s
    else Shuffle(Swap(s, swaps[0].0, swaps[0].1), swaps[1..])
  }

  lemma {:induction false} CountCopies(goal: int, n: nat, g: int)
    ensures Count(Copies(goal, n), g) == if goal == g then n else 0
  {
    if n > 0 {
      var s := Copies(goal, n);
      assert s[..|s| - 1] == Copies(goal, n - 1);
      CountCopies(goal, n - 1, g);
    }
  }

  /** The unshuffled deck has, of each goal, the copies the table lists for it. */
  lemma {:induction false} CountExpand(t: seq<(int, nat)>, g: int)
    ensures Count(Expand(t), g) == CopiesOf(t, g)
    decreases |t|
  {
    if |t| > 0 {
      var last := t[|t| - 1];
      CountExpand(t[..|t| - 1], g);
      CountAppend(Expand(t[..|t| - 1]), Copies(last.0, last.1), g);
      CountCopies(last.0, last.1, g);
    }
  }

  lemma {:induction false} ExpandSize(t: seq<(int, nat)>)
    ensures |Expand(t)| == TotalCopies(t)
    decreases |t|
  {
    if |t| > 0 {
      ExpandSize(t[..|t| - 1]);
    }
  }

  /** Each copy is made once, and only copies of `goal` numbered below `n` are made. */
  lemma {:induction false} CopiesMultiplicity(goal: int, n: nat, c: Card)
    ensures multiset(Copies(goal, n))[c] == if c.goal == goal && c.id == CardId(goal, c.id.copy) && c.id.copy < n then 1 else 0
  {
    if n > 0 {
      CopiesMultiplicity(goal, n - 1, c);
    }
  }

  /** When no goal is listed twice, the unshuffled deck holds no card twice. */
  lemma {:induction false} ExpandNoDuplicates(t: seq<(int, nat)>)
    requires DistinctKeys(t)
    ensures NoDuplicates(multiset(Expand(t)))
    decreases |t|
  {
    if |t| > 0 {
      var front, last := t[..|t| - 1], t[|t| - 1];
      ExpandNoDuplicates(front);
      assert last.0 !in Keys(front);
      forall c
        ensures multiset(Expand(t))[c] <= 1
      {
        CopiesMultiplicity(last.0, last.1, c);
        if c.goal == last.0 {
          CopiesOfMissing(front, last.0);
          CountExpand(front, last.0);
          CountZeroNotIn(Expand(front), c);
        }
      }
    }
  }

  /** Every card of an unshuffled deck carries its goal in its identity. */
  lemma {:induction false} ExpandLabelled(t: seq<(int, nat)>)
    ensures forall c :: c in Expand(t) ==> Labelled(c)
    decreases |t|
  {
    if |t| > 0 {
      ExpandLabelled(t[..|t| - 1]);
      var last := t[|t| - 1];
      forall c | c in Copies(last.0, last.1)
        ensures Labelled(c)
      {
        CopiesMultiplicity(last.0, last.1, c);
      }
    }
  }

  /** Any reordering of the unshuffled deck a count table with no goal listed
      twice describes holds the listed number of each listed goal, none of any
      other goal, every card carrying its goal in its identity, and no card twice. */
  lemma DeckCountsKept(t: seq<(int, nat)>, deck: seq<Card>)
    requires DistinctKeys(t)
    requires multiset(deck) == multiset(Expand(t))
    ensures |deck| == TotalCopies(t)
    ensures forall i :: 0 <= i < |deck| ==> Labelled(deck[i])
    ensures forall i :: 0 <= i < |t| ==> Count(deck, t[i].0) == t[i].1
    ensures forall g :: g !in Keys(t) ==> Count(deck, g) == 0
    ensures NoDuplicates(multiset(deck))
  {
    assert |deck| == |multiset(deck)| == |Expand(t)|;
    ExpandSize(t);
    ExpandNoDuplicates(t);
    ExpandLabelled(t);
    forall i | 0 <= i < |deck|
      ensures Labelled(deck[i])
    {
      assert deck[i] in multiset(deck);
      assert deck[i] in Expand(t);
    }
    forall g
      ensures Count(deck, g) == CopiesOf(t, g)
    {
      CountPermutation(deck, Expand(t), g);
      CountExpand(t, g);
    }
    forall i | 0 <= i < |t|
      ensures Count(deck, t[i].0) == t[i].1
    {
      CopiesOfListed(t, i);
    }
    forall g | g !in Keys(t)
      ensures Count(deck, g) == 0
    {
      CopiesOfMissing(t, g);
    }
  }

  /** Builds and shuffles the deck as the component does when a game starts:
      for each goal of the count table, in order, push its copies numbered
      from 0, then permute. */
  method CreateDeck(swaps: seq<(nat, nat)>) returns (deck: seq<Card>)
    requires SwapsFit(swaps, TotalCopies(DeckCounts))
    ensures |deck| == 79
    ensures forall i :: 0 <= i < |deck| ==> Labelled(deck[i])
    ensures forall i :: 0 <= i < |DeckCounts| ==> Count(deck, DeckCounts[i].0) == DeckCounts[i].1
    ensures forall g :: g !in Keys(DeckCounts) ==> Count(deck, g) == 0
    ensures NoDuplicates(multiset(deck))
  {
    var newDeck: seq<Card> := [];
    var k := 0;
    while k < |DeckCounts|
      invariant 0 <= k <= |DeckCounts|
      invariant newDeck == Expand(DeckCounts[..k])
    {
      var goal, count := DeckCounts[k].0, DeckCounts[k].1;
      var i := 0;
      while i < count
        invariant 0 <= i <= count
        invariant newDeck == Expand(DeckCounts[..k]) + Copies(goal, i)
      {
        newDeck := newDeck + [Card(CardId(goal, i), goal)];
        i := i + 1;
      }
      assert DeckCounts[..k + 1][..k] == DeckCounts[..k];
      k := k + 1;
    }
    assert DeckCounts[..k] == DeckCounts;
    ExpandSize(DeckCounts);
    DeckSize();
    deck := Shuffle(newDeck, swaps);
    DeckGoals();
    DeckCountsKept(DeckCounts, deck);
  }
}
