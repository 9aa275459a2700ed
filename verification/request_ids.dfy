/**
 What the merge does with events that log a request's ids (src/machines/merge-machine-events.ts,
 `matchCopies`): the ids alone do not make an event a copy, its loosest key has to be equal too.

 The lemmas about a `Problem` say exactly when an event whose ids the session already holds is kept
 beside the held one; the lemmas about a `Merge` say what that means for a session.
 */
module RequestIds {
  import opened Common
  import opened CopyMatching
  import opened MachineMerge

  /** No two of these events log the same request's ids. */
  ghost predicate IdsDistinct<E>(ids: E -> Option<string>, events: seq<E>) {
    forall i, j :: 0 <= i < j < |events| && ids(events[i]).Some? ==> ids(events[i]) != ids(events[j])
  }

  /** A session and a machine's events of it, neither with one request's ids twice. */
  ghost predicate UniqueIds<E>(p: Problem<E>) {
    p.Refining() && IdsDistinct(p.requestKey, p.events) && IdsDistinct(p.requestKey, p.served)
  }

  /** Event `i` and served event `j` log the same request's ids. */
  predicate SameRequest<E>(p: Problem<E>, i: nat, j: nat)
    requires i < |p.events| && j < |p.served|
  {
    p.PairRank(i, j) == 0
  }

  predicate SameLoosestKey<E>(p: Problem<E>, i: nat, j: nat)
    requires p.Valid() && i < |p.events| && j < |p.served|
  {
    p.SameKey(|p.toKeys| - 1, i, j)
  }

  /** A served event without ids that event `i`, with ids, could take. */
  predicate Spare<E>(p: Problem<E>, i: nat, j: nat)
    requires p.Valid() && i < |p.events| && j < |p.served|
  {
    SameLoosestKey(p, i, j) && p.requestKey(p.served[j]).None?
  }

  /** Another event with ids took served event `j`. */
  ghost predicate TakenByAnother<E>(p: Problem<E>, mates: Mates, i: nat, j: nat)
    requires |mates| == |p.events|
  {
    exists e :: 0 <= e < |mates| && e != i && p.requestKey(p.events[e]).Some? && mates[e] == Some(j)
  }

  /** No served event without ids is left for event `i`. */
  ghost predicate NoneSpared<E>(p: Problem<E>, mates: Mates, i: nat)
    requires p.Valid() && i < |p.events| == |mates|
  {
    forall s :: 0 <= s < |p.served| && Spare(p, i, s) ==> TakenByAnother(p, mates, i, s)
  }

  /** The ids and the loosest key of an event are held by one served event. */
  ghost predicate HeldUnderKey<E>(p: Problem<E>, i: nat)
    requires p.Valid() && i < |p.events|
  {
    exists j :: 0 <= j < |p.served| && SameRequest(p, i, j) && SameLoosestKey(p, i, j)
  }

  // ----- one event

  /** An event whose ids and loosest key are held is a copy of that held event. */
  lemma HeldUnderKeyIsCopy<E>(p: Problem<E>, i: nat, j: nat)
    requires UniqueIds(p) && i < |p.events| && j < |p.served| && SameRequest(p, i, j) && SameLoosestKey(p, i, j)
    ensures p.Run()[i] == Some(j)
  {
    var mates := p.Run();
    p.RunIsExhaustedMatching();
    if p.EventFree(mates, 0, i) {
      var owner := p.TakerOf(mates, 0, i, j);
    }
    assert p.Joined(i, mates[i].value);
  }

  /** A matched event with ids is a copy of an event with those ids, or took a spare one. */
  lemma MateOfIds<E>(p: Problem<E>, i: nat)
    requires UniqueIds(p) && i < |p.events| && p.requestKey(p.events[i]).Some? && p.Run()[i].Some?
    ensures var j := p.Run()[i].value;
      j < |p.served| && SameLoosestKey(p, i, j) && (SameRequest(p, i, j) || Spare(p, i, j))
  {
    p.RunIsExhaustedMatching();
    assert p.Joined(i, p.Run()[i].value);
  }

  /** When event `i` is left over, every spare event for it went to an event with ids that no held event copies. */
  lemma SpareWentToRival<E>(p: Problem<E>, i: nat, s: nat) returns (owner: nat)
    requires UniqueIds(p) && i < |p.events| && s < |p.served|
    requires p.requestKey(p.events[i]).Some? && p.Run()[i].None? && Spare(p, i, s)
    ensures owner < |p.events| && owner != i && p.Run()[owner] == Some(s) && IsRival(p, i, owner)
  {
    p.RunIsExhaustedMatching();
    assert p.Candidate(2, |p.toKeys| - 1, i, s);
    owner := p.TakerOf(p.Run(), 2, i, s);
    if HeldUnderKey(p, owner) {
      var j :| 0 <= j < |p.served| && SameRequest(p, owner, j) && SameLoosestKey(p, owner, j);
      HeldUnderKeyIsCopy(p, owner, j);
    }
  }

  /**
     Whatever the parser versions: an event whose ids are held is kept exactly when its loosest key is
     not the held event's, and every held event without ids and with its loosest key went elsewhere.
   */
  lemma EventWithHeldIdsIsKeptIff<E>(p: Problem<E>, i: nat, j: nat)
    requires UniqueIds(p) && i < |p.events| && j < |p.served| && SameRequest(p, i, j)
    ensures p.Run()[i].None? <==> !SameLoosestKey(p, i, j) && NoneSpared(p, p.Run(), i)
  {
    var mates := p.Run();
    p.RunIsExhaustedMatching();
    if mates[i].None? {
      if SameLoosestKey(p, i, j) { HeldUnderKeyIsCopy(p, i, j); }
      forall s | 0 <= s < |p.served| && Spare(p, i, s) ensures TakenByAnother(p, mates, i, s) {
        var owner := SpareWentToRival(p, i, s);
      }
    } else {
      MateOfIds(p, i);
      var s := mates[i].value;
      if SameRequest(p, i, s) {
        assert p.requestKey(p.served[s]) == p.requestKey(p.served[j]);
        assert s == j;
      } else {
        assert Spare(p, i, s) && !TakenByAnother(p, mates, i, s);
      }
    }
  }

  // ----- how many are kept

  /** An event with event `i`'s loosest key and with ids that are not held under that key. */
  ghost predicate IsRival<E>(p: Problem<E>, i: nat, e: nat)
    requires p.Valid() && i < |p.events| && e < |p.events|
  {
    p.LastKey(p.events[e]) == p.LastKey(p.events[i]) && p.requestKey(p.events[e]).Some? && !HeldUnderKey(p, e)
  }

  ghost function Rivals<E>(p: Problem<E>, i: nat, n: nat): set<nat>
    requires p.Valid() && i < |p.events| && n <= |p.events|
  {
    set e: nat | e < n && IsRival(p, i, e)
  }

  ghost function Spares<E>(p: Problem<E>, i: nat): set<nat>
    requires p.Valid() && i < |p.events|
  {
    set s: nat | s < |p.served| && Spare(p, i, s)
  }

  /** A matched rival took a spare event. */
  lemma RivalTakesSpare<E>(p: Problem<E>, i: nat, e: nat)
    requires UniqueIds(p) && i < |p.events| && e < |p.events| && IsRival(p, i, e) && p.Run()[e].Some?
    ensures p.Run()[e].value in Spares(p, i)
  {
    MateOfIds(p, e);
  }

  lemma MatchedRivalsFit<E>(p: Problem<E>, i: nat, matched: set<nat>)
    requires UniqueIds(p) && i < |p.events|
    requires forall e :: e in matched ==> e < |p.events| && IsRival(p, i, e) && p.Run()[e].Some?
    ensures |matched| <= |Spares(p, i)|
  {
    var mates := p.Run();
    p.RunIsExhaustedMatching();
    forall e | e in matched ensures mates[e].value in Spares(p, i) { RivalTakesSpare(p, i, e); }
    InjectionBoundsSize(matched, Spares(p, i), map e | e in matched :: mates[e].value);
  }

  ghost predicate TakesSpare<E>(p: Problem<E>, i: nat, s: nat, owner: nat)
    requires UniqueIds(p) && i < |p.events|
  {
    owner < |p.events| && IsRival(p, i, owner) && p.Run()[owner] == Some(s)
  }

  ghost function OwnerOfSpare<E>(p: Problem<E>, i: nat, s: nat): (owner: nat)
    requires UniqueIds(p) && i < |p.events| && p.requestKey(p.events[i]).Some? && p.Run()[i].None? && s in Spares(p, i)
    ensures TakesSpare(p, i, s, owner)
  {
    assert exists o: nat :: TakesSpare(p, i, s, o) by {
      var o := SpareWentToRival(p, i, s);
      assert TakesSpare(p, i, s, o);
    }
    var o: nat :| TakesSpare(p, i, s, o);
    o
  }

  /** When a rival is left over, the rivals that took the spare events are as many as those. */
  lemma SparesAllTaken<E>(p: Problem<E>, i: nat, takers: set<nat>)
    requires UniqueIds(p) && i < |p.events| && p.requestKey(p.events[i]).Some? && p.Run()[i].None?
    requires forall s: nat, e: nat :: s in Spares(p, i) && TakesSpare(p, i, s, e) ==> e in takers
    ensures |Spares(p, i)| <= |takers|
  {
    var f := map s: nat | s in Spares(p, i) :: OwnerOfSpare(p, i, s);
    forall s, t | s in f && t in f && s != t ensures f[s] != f[t] {
      assert p.Run()[f[s]] == Some(s) && p.Run()[f[t]] == Some(t);
    }
    InjectionBoundsSize(Spares(p, i), takers, f);
  }

  /** The events like event `i`, with ids not held under their key, that are kept. */
  ghost function KeptRivals<E>(p: Problem<E>, i: nat): set<nat>
    requires p.Valid() && i < |p.events|
  {
    set e: nat | e < |p.events| && IsRival(p, i, e) && p.Run()[e].None?
  }

  /**
     Of the events of one loosest key with ids that are not held under it, exactly as many are kept as
     exceed the held events of that key without ids.
   */
  lemma AsManyKeptAsSparesMiss<E>(p: Problem<E>, i: nat)
    requires UniqueIds(p) && i < |p.events|
    ensures var rivals, spares := |Rivals(p, i, |p.events|)|, |Spares(p, i)|;
      |KeptRivals(p, i)| == if rivals > spares then rivals - spares else 0
  {
    var all, kept := Rivals(p, i, |p.events|), KeptRivals(p, i);
    var matched := all - kept;
    MatchedRivalsFit(p, i, matched);
    assert all == kept + matched && kept !! matched;
    if kept != {} { KeptRivalsMissSpares(p, i); }
  }

  lemma KeptRivalsMissSpares<E>(p: Problem<E>, i: nat)
    requires UniqueIds(p) && i < |p.events| && KeptRivals(p, i) != {}
    ensures |Spares(p, i)| <= |Rivals(p, i, |p.events|) - KeptRivals(p, i)|
  {
    var e :| e in KeptRivals(p, i);
    var matched := Rivals(p, i, |p.events|) - KeptRivals(p, i);
    SameLoosestSpares(p, i, e);
    forall s: nat, o: nat | s in Spares(p, e) && TakesSpare(p, e, s, o) ensures o in matched { assert IsRival(p, i, o); }
    SparesAllTaken(p, e, matched);
  }

  lemma SameLoosestSpares<E>(p: Problem<E>, i: nat, e: nat)
    requires p.Valid() && i < |p.events| && e < |p.events| && p.LastKey(p.events[e]) == p.LastKey(p.events[i])
    ensures Spares(p, e) == Spares(p, i)
  {
    assert forall s :: 0 <= s < |p.served| ==> Spare(p, e, s) == Spare(p, i, s);
  }

  // ----- in which order, under one key

  /** Under one key a pass serves the events in order: none it leaves could have had what a later one took. */
  ghost predicate ServesInOrder<E>(p: Problem<E>, pass: nat, i: nat, mates: Mates, r: Mates)
    requires p.Valid() && |mates| == |r| == |p.events|
  {
    forall a, b :: i <= a < b < |r| && r[a].None? && mates[b].None? && r[b].Some? && r[b].value < |p.served| ==>
      !p.Candidate(pass, 0, a, r[b].value)
  }

  /** Event `i` is served, then the ones after it. */
  lemma ServesNext<E>(p: Problem<E>, pass: nat, i: nat, mates: Mates, next: Mates, r: Mates)
    requires p.Valid() && i < |p.events| == |mates| && p.Grows(pass, next, r) && ServesInOrder(p, pass, i + 1, next, r)
    requires forall e :: 0 <= e < |mates| && e != i ==> next[e] == mates[e]
    requires next[i].None? ==> p.Unmatchable(pass, 0, next, i)
    ensures ServesInOrder(p, pass, i, mates, r)
  {
    forall b | i < b < |r| && r[i].None? && mates[b].None? && r[b].Some? && r[b].value < |p.served|
      ensures !p.Candidate(pass, 0, i, r[b].value)
    {
      assert next[i].None? && next[b].None?;
      assert r[b].value !in Taken(next);
    }
  }

  lemma {:induction false} PassServesInOrder<E>(p: Problem<E>, pass: nat, i: nat, mates: Mates)
    requires p.Refining() && pass < PASSES && p.IsMatching(mates) && i <= |p.events|
    ensures ServesInOrder(p, pass, i, mates, p.MatchFrom(pass, 0, i, mates))
    decreases |p.events| - i
  {
    if i < |p.events| {
      var next := p.MatchEvent(pass, 0, i, mates);
      p.MatchEventFacts(pass, 0, i, mates);
      p.MatchFromFacts(pass, 0, i + 1, next);
      PassServesInOrder(p, pass, i + 1, next);
      ServesNext(p, pass, i, mates, next, p.MatchFrom(pass, 0, i + 1, next));
    }
  }

  /** What the run is made of under one key: the stages, and pass 2, which serves the events in order. */
  lemma ThirdPass<E>(p: Problem<E>) returns (before: Mates, after: Mates)
    requires p.Refining() && |p.toKeys| == 1
    ensures p.Stage(before, 2) && p.Grows(2, before, after) && p.Grows(3, after, p.Run())
    ensures ServesInOrder(p, 2, 0, before, after)
  {
    before := p.RunKeys(1, 0, p.RunKeys(0, 0, p.NoMates()));
    after := p.RunKeys(2, 0, before);
    p.RunKeysStage(0, p.NoMates());
    p.RunKeysStage(1, p.RunKeys(0, 0, p.NoMates()));
    p.RunKeysStage(2, before);
    p.RunKeysFacts(2, 0, before);
    p.RunKeysFacts(3, 0, after);
    assert after == p.MatchFrom(2, 0, 0, before) by {
      assert p.RunKeys(2, 1, p.MatchFrom(2, 0, 0, before)) == p.MatchFrom(2, 0, 0, before);
    }
    PassServesInOrder(p, 2, 0, before);
  }

  /** With one key the events with ids that take events without are served in order. */
  lemma IdsAreServedInOrder<E>(p: Problem<E>, a: nat, b: nat)
    requires UniqueIds(p) && |p.toKeys| == 1 && a < b < |p.events|
    requires p.Run()[b].Some? && p.Run()[b].value in Spares(p, a) && p.requestKey(p.events[b]).Some?
    requires p.requestKey(p.events[a]).Some?
    ensures p.Run()[a].Some?
  {
    var before, after := ThirdPass(p);
    var s := p.Run()[b].value;
    assert p.PairRank(b, s) == 2;
    assert p.Candidate(2, 0, a, s);
    assert before[b].None? && after[b] == Some(s);
  }

  /**
     Under one key, as with equal parser versions, an event whose ids are held is kept exactly when its key
     is not the held event's and the events like it that come first already take all the spare ones.
   */
  lemma EventWithHeldIdsIsKeptInOrderIff<E>(p: Problem<E>, i: nat, j: nat)
    requires UniqueIds(p) && |p.toKeys| == 1 && i < |p.events| && j < |p.served| && SameRequest(p, i, j)
    ensures p.Run()[i].None? <==> !SameLoosestKey(p, i, j) && |Spares(p, i)| <= |Rivals(p, i, i)|
  {
    if SameLoosestKey(p, i, j) {
      HeldUnderKeyIsCopy(p, i, j);
    } else if p.Run()[i].None? {
      forall s: nat, e: nat | s in Spares(p, i) && TakesSpare(p, i, s, e) ensures e in Rivals(p, i, i) {
        if e > i { IdsAreServedInOrder(p, i, e); }
      }
      SparesAllTaken(p, i, Rivals(p, i, i));
    } else {
      EarlierRivalsFit(p, i, j);
    }
  }

  lemma EarlierRivalsFit<E>(p: Problem<E>, i: nat, j: nat)
    requires UniqueIds(p) && |p.toKeys| == 1 && i < |p.events| && j < |p.served| && SameRequest(p, i, j)
    requires !SameLoosestKey(p, i, j) && p.Run()[i].Some?
    ensures |Rivals(p, i, i)| < |Spares(p, i)|
  {
    assert IsRival(p, i, i) by {
      assert forall t :: 0 <= t < |p.served| && SameRequest(p, i, t) ==> t == j;
    }
    RivalTakesSpare(p, i, i);
    forall e | e in Rivals(p, i, i) ensures p.Run()[e].Some? {
      SameLoosestSpares(p, i, e);
      IdsAreServedInOrder(p, e, i);
    }
    MatchedRivalsFit(p, i, Rivals(p, i, i) + {i});
  }

  // ----- one machine's events of a session

  /** The matching of a machine's events of a session; ids are unique on both sides. */
  ghost predicate MergesUniqueIds<E(!new)>(m: Merge<E>, held: Held<E>, machine: Server, events: seq<E>) {
    && m.TurnsRefine() && events != []
    && IdsDistinct(m.requestKey, held.served) && IdsDistinct(m.requestKey, events)
  }

  lemma UniqueIdsOfMerge<E(!new)>(m: Merge<E>, held: Held<E>, machine: Server, events: seq<E>)
    requires MergesUniqueIds(m, held, machine, events)
    ensures UniqueIds(m.Copies(held, machine, events))
  {
    m.CopiesRefine(held, machine, events);
  }

  /** The machine's event `i` has ids the session holds under another loosest key, and finds no spare event. */
  ghost predicate RepeatsHeldIds<E>(p: Problem<E>, i: nat, j: nat)
    requires p.Valid() && i < |p.events| && j < |p.served|
  {
    SameRequest(p, i, j) && !SameLoosestKey(p, i, j) && NoneSpared(p, p.Run(), i)
  }

  /** A merge makes a session hold one request's ids twice exactly when one of the machine's events repeats held ids. */
  lemma IdsStayDistinctIff<E(!new)>(m: Merge<E>, held: Held<E>, machine: Server, events: seq<E>)
    requires MergesUniqueIds(m, held, machine, events)
    ensures var p := m.Copies(held, machine, events);
      IdsDistinct(m.requestKey, m.MergeSession(Some(held), machine, events).held.served) <==>
        !exists i, j :: 0 <= i < |events| && 0 <= j < |held.served| && RepeatsHeldIds(p, i, j)
  {
    var p := m.Copies(held, machine, events);
    UniqueIdsOfMerge(m, held, machine, events);
    if i, j :| 0 <= i < |events| && 0 <= j < |held.served| && RepeatsHeldIds(p, i, j) {
      EventWithHeldIdsIsKeptIff(p, i, j);
      KeptIsHeldTwice(m, held, machine, events, i, j);
    } else {
      forall i, j | 0 <= i < |events| && 0 <= j < |held.served| && SameRequest(p, i, j) ensures p.Run()[i].Some? {
        assert !RepeatsHeldIds(p, i, j);
        EventWithHeldIdsIsKeptIff(p, i, j);
      }
      NoneKeptIsDistinct(m, held, machine, events);
    }
  }

  /** Event `i` has ids the session holds under another key, and the events like it before it need every spare event. */
  ghost predicate RepeatsInOrder<E>(p: Problem<E>, i: nat, j: nat)
    requires p.Valid() && i < |p.events| && j < |p.served|
  {
    SameRequest(p, i, j) && !SameLoosestKey(p, i, j) && |Spares(p, i)| <= |Rivals(p, i, i)|
  }

  /** With equal recorded parser versions this can be told before the merge, from the two lists alone. */
  lemma IdsStayDistinctInOrderIff<E(!new)>(m: Merge<E>, held: Held<E>, machine: Server, events: seq<E>)
    requires MergesUniqueIds(m, held, machine, events) && m.SameVersions(held, machine, events)
    ensures var p := m.Copies(held, machine, events);
      IdsDistinct(m.requestKey, m.MergeSession(Some(held), machine, events).held.served) <==>
        !exists i, j :: 0 <= i < |events| && 0 <= j < |held.served| && RepeatsInOrder(p, i, j)
  {
    var p := m.Copies(held, machine, events);
    UniqueIdsOfMerge(m, held, machine, events);
    IdsStayDistinctIff(m, held, machine, events);
    forall i, j | 0 <= i < |events| && 0 <= j < |held.served| ensures RepeatsHeldIds(p, i, j) == RepeatsInOrder(p, i, j) {
      if SameRequest(p, i, j) {
        EventWithHeldIdsIsKeptIff(p, i, j);
        EventWithHeldIdsIsKeptInOrderIff(p, i, j);
      }
    }
  }

  /** A held event with the machine's ids and another loosest key is not recognised when it is all the session holds. */
  lemma OtherKeyIsHeldTwice<E(!new)>(m: Merge<E>, server: Server, machine: Server, x: E, y: E)
    requires m.TurnsRefine() && m.requestKey(x).Some? && m.requestKey(x) == m.requestKey(y)
    requires if IsSkewed(m.source(y), machine, server) then m.turns[|m.turns| - 1](x) != m.turns[|m.turns| - 1](y) else m.hash(x) != m.hash(y)
    ensures MergesUniqueIds(m, Held([x], server), machine, [y])
    ensures !IdsDistinct(m.requestKey, m.MergeSession(Some(Held([x], server)), machine, [y]).held.served)
  {
    var held := Held([x], server);
    assert RepeatsHeldIds(m.Copies(held, machine, [y]), 0, 0);
    IdsStayDistinctIff(m, held, machine, [y]);
  }

  lemma KeptIsHeldTwice<E(!new)>(m: Merge<E>, held: Held<E>, machine: Server, events: seq<E>, i: nat, j: nat)
    requires MergesUniqueIds(m, held, machine, events) && i < |events| && j < |held.served|
    requires SameRequest(m.Copies(held, machine, events), i, j) && m.Copies(held, machine, events).Run()[i].None?
    ensures !IdsDistinct(m.requestKey, m.MergeSession(Some(held), machine, events).held.served)
  {
    var flags := Flags(m.Copies(held, machine, events).Run());
    var kept := Unflagged(events, flags);
    KeepsUnflagged(events, flags, i);
    var k :| 0 <= k < |kept| && kept[k] == events[i];
    var all := held.served + kept;
    assert all[j] == held.served[j] && all[|held.served| + k] == events[i];
  }

  lemma {:induction false} KeepsUnflagged<E>(xs: seq<E>, flags: seq<bool>, i: nat)
    requires i < |xs| == |flags| && !flags[i]
    ensures xs[i] in Unflagged(xs, flags)
  {
    var n := |xs| - 1;
    if i < n { KeepsUnflagged(xs[..n], flags[..n], i); }
  }

  lemma NoneKeptIsDistinct<E(!new)>(m: Merge<E>, held: Held<E>, machine: Server, events: seq<E>)
    requires MergesUniqueIds(m, held, machine, events)
    requires var p := m.Copies(held, machine, events);
      forall i, j :: 0 <= i < |events| && 0 <= j < |held.served| && SameRequest(p, i, j) ==> p.Run()[i].Some?
    ensures IdsDistinct(m.requestKey, m.MergeSession(Some(held), machine, events).held.served)
  {
    var p := m.Copies(held, machine, events);
    var flags := Flags(p.Run());
    var all := held.served + Unflagged(events, flags);
    var at := UnflaggedIndexes(events, flags);
    forall i, j | 0 <= i < j < |all| && m.requestKey(all[i]).Some? ensures m.requestKey(all[i]) != m.requestKey(all[j]) {
      if j >= |held.served| {
        if i >= |held.served| {
          assert at[i - |held.served|] < at[j - |held.served|];
        } else {
          assert !SameRequest(p, at[j - |held.served|], i);
        }
      }
    }
  }

  // ----- a session over all machines

  /** An event of the session that is listed, here or by a machine. */
  ghost predicate Listed<E(!new)>(m: Merge<E>, served: seq<E>, machines: seq<Machine<E>>, key: string, x: E) {
    x in m.SessionEvents(served, key) || exists n :: 0 <= n < |machines| && x in m.SessionEvents(machines[n].events, key)
  }

  /** Events of the session with one request's ids have one hash and one loosest turn key. */
  ghost predicate IdsFixKeys<E(!new)>(m: Merge<E>, served: seq<E>, machines: seq<Machine<E>>, key: string)
    requires m.TurnsRefine()
  {
    forall x, y :: Listed(m, served, machines, key, x) && Listed(m, served, machines, key, y)
                   && m.requestKey(x).Some? && m.requestKey(x) == m.requestKey(y)
                   ==> m.hash(x) == m.hash(y) && m.turns[|m.turns| - 1](x) == m.turns[|m.turns| - 1](y)
  }

  ghost predicate HoldsListed<E(!new)>(m: Merge<E>, served: seq<E>, machines: seq<Machine<E>>, key: string, held: Option<Held<E>>) {
    held.Some? ==> forall x :: x in held.value.served ==> Listed(m, served, machines, key, x)
  }

  ghost predicate HoldsUniqueIds<E(!new)>(m: Merge<E>, held: Option<Held<E>>) {
    held.Some? ==> IdsDistinct(m.requestKey, held.value.served)
  }

  /** No one lists one request's ids twice in the session. */
  ghost predicate ListsUniqueIds<E(!new)>(m: Merge<E>, served: seq<E>, machines: seq<Machine<E>>, key: string) {
    && IdsDistinct(m.requestKey, m.SessionEvents(served, key))
    && forall n :: 0 <= n < |machines| ==> IdsDistinct(m.requestKey, m.SessionEvents(machines[n].events, key))
  }

  lemma EqualIdsAreCopies<E(!new)>(m: Merge<E>, served: seq<E>, machines: seq<Machine<E>>, n: nat, key: string, held: Held<E>)
    requires n < |machines| && m.TurnsRefine() && IdsFixKeys(m, served, machines, key)
    requires HoldsListed(m, served, machines, key, Some(held))
    requires MergesUniqueIds(m, held, machines[n].server, m.SessionEvents(machines[n].events, key))
    ensures IdsDistinct(m.requestKey, m.MergeSession(Some(held), machines[n].server, m.SessionEvents(machines[n].events, key)).held.served)
  {
    var events := m.SessionEvents(machines[n].events, key);
    var p := m.Copies(held, machines[n].server, events);
    forall i, j | 0 <= i < |events| && 0 <= j < |held.served| && SameRequest(p, i, j) ensures SameLoosestKey(p, i, j) {
      assert Listed(m, served, machines, key, events[i]) && Listed(m, served, machines, key, held.served[j]);
    }
    IdsStayDistinctIff(m, held, machines[n].server, events);
  }

  /** The session holds listed events only, and no request's ids twice. */
  ghost predicate HoldsSoundly<E(!new)>(m: Merge<E>, served: seq<E>, machines: seq<Machine<E>>, key: string, held: Option<Held<E>>) {
    HoldsListed(m, served, machines, key, held) && HoldsUniqueIds(m, held)
  }

  lemma MachineKeepsSound<E(!new)>(m: Merge<E>, served: seq<E>, machines: seq<Machine<E>>, n: nat, key: string, held: Option<Held<E>>)
    requires n < |machines| && m.TurnsRefine() && IdsFixKeys(m, served, machines, key) && ListsUniqueIds(m, served, machines, key)
    requires HoldsSoundly(m, served, machines, key, held)
    ensures HoldsSoundly(m, served, machines, key, m.HeldAfterMachine(held, machines[n], key))
  {
    var events := m.SessionEvents(machines[n].events, key);
    forall x | x in events ensures Listed(m, served, machines, key, x) {
    }
    if events != [] && held.Some? { EqualIdsAreCopies(m, served, machines, n, key, held.value); }
  }

  /** What one machine after another keeps holds after all of them. */
  lemma {:induction false} KeptByEveryMachine<E(!new)>(m: Merge<E>, served: seq<E>, machines: seq<Machine<E>>, n: nat, key: string,
                                                      kept: Option<Held<E>> -> bool)
    requires n <= |machines| && kept(m.HeldAfter(served, machines, 0, key))
    requires forall k, held :: 0 <= k < n && kept(held) ==> kept(m.HeldAfterMachine(held, machines[k], key))
    ensures kept(m.HeldAfter(served, machines, n, key))
    decreases n
  {
    if n > 0 {
      KeptByEveryMachine(m, served, machines, n - 1, key, kept);
      assert m.HeldAfter(served, machines, n, key) == m.HeldAfterMachine(m.HeldAfter(served, machines, n - 1, key), machines[n - 1], key);
    }
  }

  /**
     When equal ids come with equal keys, whatever the parser versions, and no one lists one request's
     ids twice in a session, no session ever comes to hold one request's ids twice.
   */
  lemma RequestIdsStayUnique<E(!new)>(m: Merge<E>, served: seq<E>, machines: seq<Machine<E>>, n: nat, key: string)
    requires m.TurnsRefine() && n <= |machines| && IdsFixKeys(m, served, machines, key) && ListsUniqueIds(m, served, machines, key)
    ensures HoldsSoundly(m, served, machines, key, m.HeldAfter(served, machines, n, key))
  {
    forall k, held | 0 <= k < n && HoldsSoundly(m, served, machines, key, held)
      ensures HoldsSoundly(m, served, machines, key, m.HeldAfterMachine(held, machines[k], key))
    {
      MachineKeepsSound(m, served, machines, k, key, held);
    }
    KeptByEveryMachine(m, served, machines, n, key, held => HoldsSoundly(m, served, machines, key, held));
  }
}
