/**
 In which order copies are matched (src/machines/merge-machine-events.ts, `matchCopies`): closer pairs
 first. The run is described without its loops: every pair that could be made is made, or gives way to
 a pair that comes before it and shares an end with it. There is only one such matching.
 */
module MatchOrder {
  import opened Common
  import opened CopyMatching

  /** The first key, from `k` on, under which the pair is equal; `|toKeys|` when there is none. */
  function FirstKey<E>(p: Problem<E>, i: nat, j: nat, k: nat): (first: nat)
    requires i < |p.events| && j < |p.served| && k <= |p.toKeys|
    ensures k <= first <= |p.toKeys|
    ensures first < |p.toKeys| ==> p.SameKey(first, i, j)
    ensures forall l :: k <= l < first ==> !p.SameKey(l, i, j)
    decreases |p.toKeys| - k
  {
    if k == |p.toKeys| || p.SameKey(k, i, j) then k else FirstKey(p, i, j, k + 1)
  }

  function Closeness<E>(p: Problem<E>, i: nat, j: nat): nat
    requires i < |p.events| && j < |p.served|
  {
    FirstKey(p, i, j, 0)
  }

  /** The pair has some equal key, and equal ids or none on one side. */
  predicate CouldMatch<E>(p: Problem<E>, i: nat, j: nat)
    requires i < |p.events| && j < |p.served|
  {
    Closeness(p, i, j) < |p.toKeys| && p.PairRank(i, j) < PASSES
  }

  /** A pair's turn: its ids' rank, then its closest key, then its event. */
  datatype Turn = Turn(rank: nat, key: nat, event: nat)

  function TurnOf<E>(p: Problem<E>, i: nat, j: nat): Turn
    requires i < |p.events| && j < |p.served|
  {
    Turn(p.PairRank(i, j), Closeness(p, i, j), i)
  }

  predicate Earlier(a: Turn, b: Turn) {
    a.rank < b.rank || (a.rank == b.rank && (a.key < b.key || (a.key == b.key && a.event < b.event)))
  }

  /** Pair `(a, b)` comes before `(i, j)`, or is that pair: of one event's equally close pairs, the newest served comes first. */
  predicate ComesFirst<E>(p: Problem<E>, a: nat, b: nat, i: nat, j: nat)
    requires a < |p.events| && i < |p.events| && b < |p.served| && j < |p.served|
  {
    Earlier(TurnOf(p, a, b), TurnOf(p, i, j)) || (TurnOf(p, a, b) == TurnOf(p, i, j) && b >= j)
  }

  /** Event `i` has a match that comes first, or served event `j` has. */
  ghost predicate GivesWay<E>(p: Problem<E>, mates: Mates, i: nat, j: nat)
    requires i < |p.events| == |mates| && j < |p.served|
  {
    || (mates[i].Some? && mates[i].value < |p.served| && ComesFirst(p, i, mates[i].value, i, j))
    || exists o :: 0 <= o < |mates| && mates[o] == Some(j) && ComesFirst(p, o, j, i, j)
  }

  /** A one-to-one matching in which every pair that could be made is made or gives way to one that comes first. */
  ghost predicate ClosestFirst<E>(p: Problem<E>, mates: Mates) {
    && |mates| == |p.events| && OneToOne(mates)
    && (forall i :: 0 <= i < |mates| && mates[i].Some? ==> mates[i].value < |p.served| && CouldMatch(p, i, mates[i].value))
    && forall i, j :: 0 <= i < |mates| && 0 <= j < |p.served| && CouldMatch(p, i, j) ==> GivesWay(p, mates, i, j)
  }

  // ----- there is only one

  /** A pair of one such matching is a pair of any other: what it gives way to there would share an end with it here. */
  lemma {:induction false} PairsAgree<E>(p: Problem<E>, a: Mates, b: Mates, i: nat)
    requires ClosestFirst(p, a) && ClosestFirst(p, b) && i < |a| && a[i].Some?
    ensures b[i] == a[i]
    decreases p.PairRank(i, a[i].value), Closeness(p, i, a[i].value), i, |p.served| - a[i].value
  {
    var j := a[i].value;
    if b[i] != a[i] {
      assert GivesWay(p, b, i, j);
      if b[i].Some? && ComesFirst(p, i, b[i].value, i, j) {
        PairsAgree(p, b, a, i);
      } else {
        var o :| 0 <= o < |b| && b[o] == Some(j) && ComesFirst(p, o, j, i, j);
        PairsAgree(p, b, a, o);
      }
    }
  }

  lemma OnlyOneIsClosestFirst<E>(p: Problem<E>, a: Mates, b: Mates)
    requires ClosestFirst(p, a) && ClosestFirst(p, b)
    ensures a == b
  {
    forall i | 0 <= i < |a| ensures a[i] == b[i] {
      if a[i].Some? { PairsAgree(p, a, b, i); } else if b[i].Some? { PairsAgree(p, b, a, i); }
    }
  }

  // ----- the run is it

  /** All pairs whose turn is before `turn` are settled, and nothing else is matched. */
  ghost predicate Settled<E>(p: Problem<E>, mates: Mates, turn: Turn) {
    && |mates| == |p.events| && OneToOne(mates)
    && (forall i :: 0 <= i < |mates| && mates[i].Some? ==>
          mates[i].value < |p.served| && CouldMatch(p, i, mates[i].value) && Earlier(TurnOf(p, i, mates[i].value), turn))
    && forall i, j :: 0 <= i < |mates| && 0 <= j < |p.served| && CouldMatch(p, i, j) && Earlier(TurnOf(p, i, j), turn) ==> GivesWay(p, mates, i, j)
  }

  lemma CandidateTurn<E>(p: Problem<E>, pass: nat, k: nat, i: nat, j: nat)
    requires k < |p.toKeys| && i < |p.events| && j < |p.served| && pass < PASSES && p.Candidate(pass, k, i, j)
    ensures CouldMatch(p, i, j) && p.PairRank(i, j) == pass && Closeness(p, i, j) <= k
  {
  }

  /** Matching a free event keeps what gave way. */
  lemma StillGivesWay<E>(p: Problem<E>, mates: Mates, next: Mates, i: nat, j: nat)
    requires i < |p.events| == |mates| == |next| && j < |p.served| && GivesWay(p, mates, i, j) && Extends(mates, next)
    ensures GivesWay(p, next, i, j)
  {
    if o :| 0 <= o < |mates| && mates[o] == Some(j) && ComesFirst(p, o, j, i, j) {
      assert next[o] == Some(j);
    }
  }

  /** The event whose turn it is: its pairs of this turn are settled. */
  lemma TurnIsServed<E>(p: Problem<E>, pass: nat, k: nat, i: nat, mates: Mates, j: nat)
    requires pass < PASSES && k < |p.toKeys| && i < |p.events| && j < |p.served|
    requires Settled(p, mates, Turn(pass, k, i)) && CouldMatch(p, i, j) && TurnOf(p, i, j) == Turn(pass, k, i)
    ensures GivesWay(p, p.MatchEvent(pass, k, i, mates), i, j)
  {
    var next := p.MatchEvent(pass, k, i, mates);
    if mates[i].None? {
      if j in Taken(mates) {
        var o :| 0 <= o < |mates| && mates[o].Some? && mates[o].value == j;
        assert next[o] == Some(j);
      } else {
        assert p.Candidate(pass, k, i, j);
        CandidateTurn(p, pass, k, i, next[i].value);
      }
    }
  }

  lemma ServeNext<E>(p: Problem<E>, pass: nat, k: nat, i: nat, mates: Mates)
    requires pass < PASSES && k < |p.toKeys| && i < |p.events| && Settled(p, mates, Turn(pass, k, i))
    ensures Settled(p, p.MatchEvent(pass, k, i, mates), Turn(pass, k, i + 1))
  {
    var next := p.MatchEvent(pass, k, i, mates);
    assert Extends(mates, next);
    if next != mates {
      CandidateTurn(p, pass, k, i, next[i].value);
      forall o | 0 <= o < |mates| && o != i && mates[o].Some? ensures mates[o] != next[i] { assert mates[o].value in Taken(mates); }
    }
    forall a, j | 0 <= a < |mates| && 0 <= j < |p.served| && CouldMatch(p, a, j) && Earlier(TurnOf(p, a, j), Turn(pass, k, i + 1))
      ensures GivesWay(p, next, a, j)
    {
      if Earlier(TurnOf(p, a, j), Turn(pass, k, i)) {
        StillGivesWay(p, mates, next, a, j);
      } else {
        TurnIsServed(p, pass, k, i, mates, j);
      }
    }
  }

  lemma {:induction false} ServeFrom<E>(p: Problem<E>, pass: nat, k: nat, i: nat, mates: Mates)
    requires pass < PASSES && k < |p.toKeys| && i <= |p.events| && Settled(p, mates, Turn(pass, k, i))
    ensures Settled(p, p.MatchFrom(pass, k, i, mates), Turn(pass, k, |p.events|))
    decreases |p.events| - i
  {
    if i < |p.events| {
      ServeNext(p, pass, k, i, mates);
      ServeFrom(p, pass, k, i + 1, p.MatchEvent(pass, k, i, mates));
    }
  }

  /** No event is left for a key: the next key's turn comes. */
  lemma NextKey<E>(p: Problem<E>, pass: nat, k: nat, mates: Mates)
    requires Settled(p, mates, Turn(pass, k, |p.events|))
    ensures Settled(p, mates, Turn(pass, k + 1, 0))
  {
  }

  lemma NextPass<E>(p: Problem<E>, pass: nat, mates: Mates)
    requires Settled(p, mates, Turn(pass, |p.toKeys|, 0))
    ensures Settled(p, mates, Turn(pass + 1, 0, 0))
  {
  }

  lemma {:induction false} ServeKeys<E>(p: Problem<E>, pass: nat, k: nat, mates: Mates)
    requires pass < PASSES && k <= |p.toKeys| && Settled(p, mates, Turn(pass, k, 0))
    ensures Settled(p, p.RunKeys(pass, k, mates), Turn(pass + 1, 0, 0))
    decreases |p.toKeys| - k
  {
    if k == |p.toKeys| {
      NextPass(p, pass, mates);
    } else {
      ServeFrom(p, pass, k, 0, mates);
      NextKey(p, pass, k, p.MatchFrom(pass, k, 0, mates));
      ServeKeys(p, pass, k + 1, p.MatchFrom(pass, k, 0, mates));
    }
  }

  /**
     The run makes every pair that could be made unless it gives way: equal ids come first, then a closer
     key, then the order of events, then the newest served event. No other matching does.
   */
  lemma RunIsClosestFirst<E>(p: Problem<E>, other: Mates)
    ensures ClosestFirst(p, p.Run())
    ensures ClosestFirst(p, other) ==> other == p.Run()
  {
    var m1 := p.RunKeys(0, 0, p.NoMates());
    var m2 := p.RunKeys(1, 0, m1);
    var m3 := p.RunKeys(2, 0, m2);
    ServeKeys(p, 0, 0, p.NoMates());
    ServeKeys(p, 1, 0, m1);
    ServeKeys(p, 2, 0, m2);
    ServeKeys(p, 3, 0, m3);
    AllTurnsSettled(p, p.Run());
    if ClosestFirst(p, other) { OnlyOneIsClosestFirst(p, other, p.Run()); }
  }

  lemma AllTurnsSettled<E>(p: Problem<E>, mates: Mates)
    requires Settled(p, mates, Turn(PASSES, 0, 0))
    ensures ClosestFirst(p, mates)
  {
  }
}
