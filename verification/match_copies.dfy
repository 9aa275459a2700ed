/**
 The four-pass greedy matching of src/machines/merge-machine-events.ts (`matchCopies`).

 `Problem.Run` says what is matched in the simplest terms: pass by pass, key by key, event
 by event, an unmatched event takes the last free served event it may have. The method
 `MatchCopies` computes the same flags with the source's candidate stacks, and the theorem
 `RunIsMaximum` says that no other one-to-one matching leaves fewer events unmatched.
 */
module CopyMatching {
  import opened Common

  const PASSES := 4

  /** The pass that may match request ids `x` of an event with ids `y` of a served event; 4 is none. */
  function Rank(x: Option<string>, y: Option<string>): nat {
    match (x, y)
    case (Some(a), Some(b)) => if a == b then 0 else PASSES
    case (None, Some(_)) => 1
    case (Some(_), None) => 2
    case (None, None) => 3
  }

  /** For each event, the served event it is a copy of. */
  type Mates = seq<Option<nat>>

  function Taken(mates: Mates): set<nat> {
    set i | 0 <= i < |mates| && mates[i].Some? :: mates[i].value
  }

  function MatchedEvents(mates: Mates): set<nat> {
    set i | 0 <= i < |mates| && mates[i].Some?
  }

  function Flags(mates: Mates): seq<bool> {
    seq(|mates|, i requires 0 <= i < |mates| => mates[i].Some?)
  }

  /** `later` keeps every match of `earlier`. */
  ghost predicate Extends(earlier: Mates, later: Mates) {
    && |earlier| == |later|
    && forall i :: 0 <= i < |earlier| && earlier[i].Some? ==> later[i] == earlier[i]
  }

  ghost predicate OneToOne(mates: Mates) {
    forall i, j :: 0 <= i < j < |mates| && mates[i].Some? && mates[j].Some? ==> mates[i] != mates[j]
  }

  datatype Problem<!E> = Problem(
    events: seq<E>,
    served: seq<E>,
    toKeys: seq<E -> string>,
    requestKey: E -> Option<string>)
  {
    predicate Valid() {
      |toKeys| > 0
    }

    /** Equal under an earlier key implies equal under the last, loosest one. */
    ghost predicate Refining() {
      && Valid()
      && forall k, i, j :: 0 <= k < |toKeys| && 0 <= i < |events| && 0 <= j < |served| ==>
           SameKey(k, i, j) ==> SameKey(|toKeys| - 1, i, j)
    }

    predicate SameKey(k: nat, i: nat, j: nat)
      requires k < |toKeys| && i < |events| && j < |served|
    {
      toKeys[k](events[i]) == toKeys[k](served[j])
    }

    function PairRank(i: nat, j: nat): nat
      requires i < |events| && j < |served|
    {
      Rank(requestKey(events[i]), requestKey(served[j]))
    }

    /** The pairs that may match at all: equal loosest key, and equal ids or none on one side. */
    predicate Joined(i: nat, j: nat)
      requires Valid() && i < |events| && j < |served|
    {
      SameKey(|toKeys| - 1, i, j) && PairRank(i, j) < PASSES
    }

    ghost predicate IsMatching(mates: Mates)
      requires Valid()
    {
      && |mates| == |events|
      && OneToOne(mates)
      && forall i :: 0 <= i < |mates| && mates[i].Some? ==>
        mates[i].value < |served| && Joined(i, mates[i].value)
    }

    predicate Candidate(pass: nat, k: nat, i: nat, j: nat)
      requires k < |toKeys| && i < |events| && j < |served|
    {
      SameKey(k, i, j) && PairRank(i, j) == pass
    }

    // ----- the matching, in its simplest form

    /** The last served event below `n` that is free and that event `i` may take. */
    function LastFree(pass: nat, k: nat, i: nat, taken: set<nat>, n: nat): (r: Option<nat>)
      requires k < |toKeys| && i < |events| && n <= |served|
      ensures r.Some? ==> r.value < n && r.value !in taken && Candidate(pass, k, i, r.value)
      ensures forall j :: 0 <= j < n && j !in taken && Candidate(pass, k, i, j) ==> r.Some? && j <= r.value
    {
      if n == 0 then None
      else if n - 1 !in taken && Candidate(pass, k, i, n - 1) then Some(n - 1)
      else LastFree(pass, k, i, taken, n - 1)
    }

    function MatchEvent(pass: nat, k: nat, i: nat, mates: Mates): (r: Mates)
      requires k < |toKeys| && i < |events| == |mates|
    {
      if mates[i].Some? then mates
      else mates[i := LastFree(pass, k, i, Taken(mates), |served|)]
    }

    function MatchFrom(pass: nat, k: nat, i: nat, mates: Mates): (r: Mates)
      requires k < |toKeys| && i <= |events| == |mates|
      ensures |r| == |events|
      decreases |events| - i
    {
      if i == |events| then mates else MatchFrom(pass, k, i + 1, MatchEvent(pass, k, i, mates))
    }

    function RunKeys(pass: nat, k: nat, mates: Mates): (r: Mates)
      requires k <= |toKeys| && |events| == |mates|
      ensures |r| == |events|
      decreases |toKeys| - k
    {
      if k == |toKeys| then mates else RunKeys(pass, k + 1, MatchFrom(pass, k, 0, mates))
    }

    function NoMates(): (r: Mates)
      ensures |r| == |events|
    {
      seq(|events|, _ => None)
    }

    function Run(): (r: Mates)
      ensures |r| == |events|
    {
      RunKeys(3, 0, RunKeys(2, 0, RunKeys(1, 0, RunKeys(0, 0, NoMates()))))
    }

    /** What the passes from `pass` on make of `mates`. */
    function RunPasses(pass: nat, mates: Mates): (r: Mates)
      requires pass <= PASSES && |events| == |mates|
      ensures |r| == |events|
      decreases PASSES - pass
    {
      if pass == PASSES then mates else RunPasses(pass + 1, RunKeys(pass, 0, mates))
    }

    lemma RunIsAllPasses()
      ensures Run() == RunPasses(0, NoMates())
    {
      var m1 := RunKeys(0, 0, NoMates());
      var m2 := RunKeys(1, 0, m1);
      var m3 := RunKeys(2, 0, m2);
      assert RunPasses(3, m3) == RunKeys(3, 0, m3);
      assert RunPasses(2, m2) == RunPasses(3, m3);
    }

    // ----- what every stage of the run keeps

    /** Event `i` is not matched by a pass up to `pass`. */
    ghost predicate EventFree(mates: Mates, pass: nat, i: nat)
      requires i < |events| == |mates|
    {
      mates[i].Some? && mates[i].value < |served| ==> PairRank(i, mates[i].value) > pass
    }

    /** No pass up to `pass` took served event `j`. */
    ghost predicate ServedFree(mates: Mates, pass: nat, j: nat)
      requires j < |served| && |events| == |mates|
    {
      forall i :: 0 <= i < |mates| && mates[i] == Some(j) ==> PairRank(i, j) > pass
    }

    /** Every pass below `passes` left no pair it could still have matched. */
    ghost predicate Exhausted(mates: Mates, passes: nat)
      requires Valid() && |events| == |mates|
    {
      forall pass, i, j :: 0 <= pass < passes && 0 <= i < |events| && 0 <= j < |served|
        && EventFree(mates, pass, i) && ServedFree(mates, pass, j)
        ==> !Candidate(pass, |toKeys| - 1, i, j)
    }

    /** Matches made so far come from passes below `passes`, and those passes are exhausted. */
    ghost predicate Stage(mates: Mates, passes: nat)
      requires Valid()
    {
      && IsMatching(mates)
      && (forall i :: 0 <= i < |mates| && mates[i].Some? ==> PairRank(i, mates[i].value) < passes)
      && Exhausted(mates, passes)
    }

    /** `later` keeps the matches of `earlier` and adds only matches pass `pass` may make. */
    ghost predicate Grows(pass: nat, earlier: Mates, later: Mates)
      requires Valid()
    {
      && IsMatching(earlier) && IsMatching(later) && Extends(earlier, later)
      && forall e :: 0 <= e < |later| && later[e].Some? && earlier[e].None? ==>
           PairRank(e, later[e].value) == pass
    }

    /** Pass `pass` can match event `e` under key `k` to no free served event. */
    ghost predicate Unmatchable(pass: nat, k: nat, mates: Mates, e: nat)
      requires k < |toKeys| && e < |events|
    {
      forall j :: 0 <= j < |served| && j !in Taken(mates) ==> !Candidate(pass, k, e, j)
    }

    lemma TakenGrows(earlier: Mates, later: Mates)
      requires Extends(earlier, later)
      ensures Taken(earlier) <= Taken(later)
    {
      forall j | j in Taken(earlier) ensures j in Taken(later) {
        var e :| 0 <= e < |earlier| && earlier[e].Some? && earlier[e].value == j;
        assert later[e] == earlier[e];
      }
    }

    lemma GrowsTransitive(pass: nat, a: Mates, b: Mates, c: Mates)
      requires Valid() && Grows(pass, a, b) && Grows(pass, b, c)
      ensures Grows(pass, a, c)
    {
      forall e | 0 <= e < |c| && c[e].Some? && a[e].None? ensures PairRank(e, c[e].value) == pass {
        if b[e].Some? { assert c[e] == b[e]; }
      }
    }

    lemma UnmatchableStays(pass: nat, k: nat, earlier: Mates, later: Mates, e: nat)
      requires k < |toKeys| && e < |events| && Extends(earlier, later)
      requires Unmatchable(pass, k, earlier, e)
      ensures Unmatchable(pass, k, later, e)
    {
      TakenGrows(earlier, later);
    }

    lemma MatchEventFacts(pass: nat, k: nat, i: nat, mates: Mates)
      requires Refining() && k < |toKeys| && i < |events| && pass < PASSES
      requires IsMatching(mates)
      ensures var r := MatchEvent(pass, k, i, mates);
        Grows(pass, mates, r) && (r[i].None? ==> Unmatchable(pass, k, r, i))
    {
      var r := MatchEvent(pass, k, i, mates);
      if mates[i].None? {
        forall a | 0 <= a < |r| && a != i && r[a].Some? ensures r[a] != r[i] {
          assert mates[a].value in Taken(mates);
        }
      }
    }

    /** Pass `pass` took `mates` to `r` under key `k`, and can match nothing more from event `i` on. */
    ghost predicate Swept(pass: nat, k: nat, i: nat, mates: Mates, r: Mates)
      requires Valid() && k < |toKeys|
    {
      && Grows(pass, mates, r)
      && forall e :: i <= e < |r| && r[e].None? ==> Unmatchable(pass, k, r, e)
    }

    lemma SweptStep(pass: nat, k: nat, i: nat, mates: Mates, next: Mates, r: Mates)
      requires Valid() && k < |toKeys| && i < |events|
      requires Grows(pass, mates, next) && (next[i].None? ==> Unmatchable(pass, k, next, i))
      requires Swept(pass, k, i + 1, next, r)
      ensures Swept(pass, k, i, mates, r)
    {
      GrowsTransitive(pass, mates, next, r);
      if r[i].None? { UnmatchableStays(pass, k, next, r, i); }
    }

    lemma {:induction false} MatchFromFacts(pass: nat, k: nat, i: nat, mates: Mates)
      requires Refining() && k < |toKeys| && i <= |events| && pass < PASSES
      requires IsMatching(mates)
      ensures Swept(pass, k, i, mates, MatchFrom(pass, k, i, mates))
      decreases |events| - i
    {
      if i < |events| {
        var next := MatchEvent(pass, k, i, mates);
        MatchEventFacts(pass, k, i, mates);
        MatchFromFacts(pass, k, i + 1, next);
        SweptStep(pass, k, i, mates, next, MatchFrom(pass, k, i + 1, next));
      }
    }

    lemma SweptAfter(pass: nat, k: nat, mates: Mates, next: Mates, r: Mates)
      requires Valid() && k < |toKeys| && Grows(pass, mates, next) && Swept(pass, k, 0, next, r)
      ensures Swept(pass, k, 0, mates, r)
    {
      GrowsTransitive(pass, mates, next, r);
    }

    lemma {:induction false} RunKeysFacts(pass: nat, k: nat, mates: Mates)
      requires Refining() && k < |toKeys| && pass < PASSES
      requires IsMatching(mates)
      ensures Swept(pass, |toKeys| - 1, 0, mates, RunKeys(pass, k, mates))
      decreases |toKeys| - k
    {
      var next := MatchFrom(pass, k, 0, mates);
      MatchFromFacts(pass, k, 0, mates);
      if k + 1 == |toKeys| {
        assert RunKeys(pass, k + 1, next) == next;
      } else {
        RunKeysFacts(pass, k + 1, next);
        SweptAfter(pass, |toKeys| - 1, mates, next, RunKeys(pass, k + 1, next));
      }
    }

    lemma RunKeysStage(pass: nat, mates: Mates)
      requires Refining() && pass < PASSES && Stage(mates, pass)
      ensures Stage(RunKeys(pass, 0, mates), pass + 1)
    {
      RunKeysFacts(pass, 0, mates);
      var r := RunKeys(pass, 0, mates);
      forall q, i, j | 0 <= q < pass + 1 && 0 <= i < |events| && 0 <= j < |served|
          && EventFree(r, q, i) && ServedFree(r, q, j)
        ensures !Candidate(q, |toKeys| - 1, i, j)
      {
        if q < pass {
          assert EventFree(mates, q, i) && ServedFree(mates, q, j);
        } else {
          assert r[i].None? && j !in Taken(r);
          assert Unmatchable(pass, |toKeys| - 1, r, i);
        }
      }
    }

    /** The run is a one-to-one matching of joined pairs, exhausted pass by pass. */
    lemma RunIsExhaustedMatching()
      requires Refining()
      ensures Stage(Run(), PASSES)
    {
      var m1 := RunKeys(0, 0, NoMates());
      var m2 := RunKeys(1, 0, m1);
      var m3 := RunKeys(2, 0, m2);
      RunKeysStage(0, NoMates());
      RunKeysStage(1, m1);
      RunKeysStage(2, m2);
      RunKeysStage(3, m3);
    }

    /** Whoever took served event `j` when pass `pass` left event `i`, which may have it, unmatched. */
    lemma TakerOf(mates: Mates, pass: nat, i: nat, j: nat) returns (owner: nat)
      requires Valid() && Stage(mates, PASSES) && pass < PASSES && i < |events| && j < |served|
      requires Candidate(pass, |toKeys| - 1, i, j) && EventFree(mates, pass, i)
      ensures owner < |mates| && mates[owner] == Some(j)
      ensures LastKey(events[owner]) == LastKey(served[j]) && PairRank(owner, j) <= pass
    {
      assert !ServedFree(mates, pass, j);
      owner :| 0 <= owner < |mates| && mates[owner] == Some(j) && PairRank(owner, j) <= pass;
      assert Joined(owner, j);
    }

    /** What event `i` is matched to when pass `pass` left served event `j`, which it may have, free. */
    lemma MateOf(mates: Mates, pass: nat, i: nat, j: nat)
      requires Valid() && Stage(mates, PASSES) && pass < PASSES && i < |events| && j < |served|
      requires Candidate(pass, |toKeys| - 1, i, j) && ServedFree(mates, pass, j)
      ensures mates[i].Some? && mates[i].value < |served|
      ensures LastKey(served[mates[i].value]) == LastKey(events[i]) && PairRank(i, mates[i].value) <= pass
    {
      assert !EventFree(mates, pass, i);
      assert Joined(i, mates[i].value);
    }

    function LastKey(event: E): string
      requires Valid()
    {
      toKeys[|toKeys| - 1](event)
    }

    // ----- maximum cardinality

    /** Some event with this loosest key stays unmatched. */
    ghost predicate LeavesEvent(mates: Mates, i: nat)
      requires Valid() && i < |events| == |mates|
    {
      exists e :: 0 <= e < |events| && mates[e].None? && LastKey(events[e]) == LastKey(events[i])
    }

    /** Some served event with event `i`'s loosest key stays free. */
    ghost predicate LeavesServed(mates: Mates, i: nat)
      requires Valid() && i < |events| == |mates|
    {
      exists j :: 0 <= j < |served| && j !in Taken(mates) && SameKey(|toKeys| - 1, i, j)
    }

    /** Two events with equal loosest keys and equal ids, or both without. */
    predicate SameGroup(e: nat, i: nat)
      requires Valid() && e < |events| && i < |events|
    {
      LastKey(events[e]) == LastKey(events[i]) && requestKey(events[e]) == requestKey(events[i])
    }

    /** Every event with event `i`'s loosest key and ids is matched by the pass for equal ids. */
    ghost predicate IdsSaturated(mates: Mates, i: nat)
      requires Valid() && i < |events| == |mates|
    {
      forall e :: 0 <= e < |events| && SameGroup(e, i) ==> !EventFree(mates, 0, e)
    }

    /**
     The events of a minimum vertex cover; the cover's served events are the other ends of the
     joined pairs this leaves. While a key leaves no event unmatched, all its events; else while
     it leaves no served event free, none; else the events without ids and those of saturated ids.
     */
    ghost predicate Covers(mates: Mates, i: nat)
      requires Valid() && i < |events| == |mates|
    {
      if !LeavesEvent(mates, i) then true
      else if !LeavesServed(mates, i) then false
      else requestKey(events[i]).None? || IdsSaturated(mates, i)
    }

    /** A covering event is matched. */
    lemma CoveringEventIsMatched(mates: Mates, i: nat)
      requires Valid() && Stage(mates, PASSES) && i < |events| && Covers(mates, i)
      ensures mates[i].Some?
    {
      if mates[i].None? {
        assert LeavesEvent(mates, i);
        var j :| 0 <= j < |served| && j !in Taken(mates) && SameKey(|toKeys| - 1, i, j);
        FreePairIsApart(mates, i, j);
        assert EventFree(mates, 0, i);
      }
    }

    /** After the last pass, an unmatched event and a free served event are not joined. */
    lemma FreePairIsApart(mates: Mates, i: nat, j: nat)
      requires Valid() && Stage(mates, PASSES) && i < |events| && j < |served|
      requires mates[i].None? && j !in Taken(mates) && SameKey(|toKeys| - 1, i, j)
      ensures requestKey(events[i]).Some? && requestKey(served[j]).Some?
    {
      var pass := PairRank(i, j);
      assert EventFree(mates, pass, i);
      assert ServedFree(mates, pass, j) by {
        assert forall e :: 0 <= e < |mates| && mates[e].Some? ==> mates[e].value in Taken(mates);
      }
      assert Candidate(pass, |toKeys| - 1, i, j);
    }

    /** A joined pair whose event does not cover it has a taken served event, and by an event that does not cover. */
    lemma UncoveredPair(mates: Mates, i: nat, j: nat) returns (owner: nat)
      requires Valid() && Stage(mates, PASSES) && i < |events| && j < |served|
      requires Joined(i, j) && !Covers(mates, i)
      ensures owner < |mates| && mates[owner] == Some(j) && !Covers(mates, owner)
    {
      if !LeavesServed(mates, i) {
        assert j in Taken(mates);
        owner :| 0 <= owner < |mates| && mates[owner] == Some(j);
        assert LastKey(events[owner]) == LastKey(events[i]);
        assert LeavesEvent(mates, owner) && !LeavesServed(mates, owner) by { SameKeyLeaves(mates, i, owner); }
      } else {
        owner := UncoveredTightPair(mates, i, j);
      }
    }

    lemma SameKeyLeaves(mates: Mates, i: nat, e: nat)
      requires Valid() && |mates| == |events| && i < |events| && e < |events|
      requires LastKey(events[e]) == LastKey(events[i])
      ensures LeavesEvent(mates, e) == LeavesEvent(mates, i)
      ensures LeavesServed(mates, e) == LeavesServed(mates, i)
    {
      var last := |toKeys| - 1;
      assert toKeys[last](events[e]) == toKeys[last](events[i]);
      if LeavesServed(mates, e) {
        var j :| 0 <= j < |served| && j !in Taken(mates) && SameKey(last, e, j);
        assert SameKey(last, i, j);
      }
      if LeavesServed(mates, i) {
        var j :| 0 <= j < |served| && j !in Taken(mates) && SameKey(last, i, j);
        assert SameKey(last, e, j);
      }
    }

    /** `UncoveredPair` where the key leaves both an event and a served event. */
    lemma UncoveredTightPair(mates: Mates, i: nat, j: nat) returns (owner: nat)
      requires Valid() && Stage(mates, PASSES) && i < |events| && j < |served|
      requires Joined(i, j) && !Covers(mates, i) && LeavesServed(mates, i)
      ensures owner < |mates| && mates[owner] == Some(j) && !Covers(mates, owner)
    {
      var last := |toKeys| - 1;
      var left :| 0 <= left < |events| && mates[left].None? && LastKey(events[left]) == LastKey(events[i]);
      var free :| 0 <= free < |served| && free !in Taken(mates) && SameKey(last, i, free);
      FreePairIsApart(mates, left, free);
      if requestKey(served[j]).None? {
        // Were `j` free after pass 2, pass 2 would have given it to `left`.
        assert EventFree(mates, 2, left);
        assert Candidate(2, last, left, j);
        assert !ServedFree(mates, 2, j);
        owner :| 0 <= owner < |mates| && mates[owner] == Some(j) && PairRank(owner, j) <= 2;
        SameKeyLeaves(mates, i, owner);
        assert EventFree(mates, 0, owner);
      } else {
        // Equal ids, not saturated: pass 0 took every served event with them.
        var e :| 0 <= e < |events| && SameGroup(e, i) && EventFree(mates, 0, e);
        assert PairRank(i, j) == 0 && Candidate(0, last, e, j);
        assert !ServedFree(mates, 0, j);
        owner :| 0 <= owner < |mates| && mates[owner] == Some(j) && PairRank(owner, j) <= 0;
        SameKeyLeaves(mates, i, owner);
        assert SameGroup(e, owner);
      }
    }

    /** Where an event matched in `other` is counted in `mates`: itself, or its partner's owner. */
    ghost predicate Image(mates: Mates, other: Mates, i: nat, image: nat)
      requires Valid() && |mates| == |other| == |events|
    {
      && i < |other| && image < |mates| && mates[image].Some? && other[i].Some?
      && (if Covers(mates, i) then image == i else mates[image] == other[i] && !Covers(mates, image))
    }

    lemma ImageExists(mates: Mates, other: Mates, i: nat)
      requires Valid() && Stage(mates, PASSES) && IsMatching(other) && i in MatchedEvents(other)
      ensures exists image :: Image(mates, other, i, image)
    {
      if Covers(mates, i) {
        CoveringEventIsMatched(mates, i);
        assert Image(mates, other, i, i);
      } else {
        var owner := UncoveredPair(mates, i, other[i].value);
        assert Image(mates, other, i, owner);
      }
    }

    lemma ImagesDiffer(mates: Mates, other: Mates, i: nat, j: nat, imageI: nat, imageJ: nat)
      requires Valid() && |mates| == |other| == |events| && OneToOne(other)
      requires Image(mates, other, i, imageI) && Image(mates, other, j, imageJ) && i < j
      ensures imageI != imageJ
    {
    }

    ghost function ImageOf(mates: Mates, other: Mates, i: nat): (image: nat)
      requires Valid() && Stage(mates, PASSES) && IsMatching(other) && i in MatchedEvents(other)
      ensures Image(mates, other, i, image)
    {
      ImageExists(mates, other, i);
      var image: nat :| Image(mates, other, i, image);
      image
    }

    lemma ImagesBoundSize(mates: Mates, other: Mates, f: map<nat, nat>)
      requires Valid() && |mates| == |other| == |events| && OneToOne(other)
      requires f.Keys == MatchedEvents(other)
      requires forall i :: i in f ==> Image(mates, other, i, f[i])
      ensures |MatchedEvents(other)| <= |MatchedEvents(mates)|
    {
      forall i, j | i in f && j in f && i < j ensures f[i] != f[j] {
        ImagesDiffer(mates, other, i, j, f[i], f[j]);
      }
      InjectionBoundsSize(MatchedEvents(other), MatchedEvents(mates), f);
    }

    /** A matching exhausted pass by pass is as large as any matching of joined pairs. */
    lemma ExhaustedIsMaximum(mates: Mates, other: Mates)
      requires Valid() && Stage(mates, PASSES) && IsMatching(other)
      ensures |MatchedEvents(other)| <= |MatchedEvents(mates)|
    {
      var f := map i: nat | i in MatchedEvents(other) :: ImageOf(mates, other, i);
      ImagesBoundSize(mates, other, f);
    }

    /** `Run` matches as many events as any one-to-one matching of joined pairs. */
    lemma RunIsMaximum(other: Mates)
      requires Refining() && IsMatching(other)
      ensures IsMatching(Run())
      ensures |MatchedEvents(other)| <= |MatchedEvents(Run())|
    {
      RunIsExhaustedMatching();
      ExhaustedIsMaximum(Run(), other);
    }

    /** When every event has its own copy to match, the run matches every event. */
    lemma PerfectMatchingIsFound(other: Mates)
      requires Refining() && IsMatching(other)
      requires forall i :: 0 <= i < |other| ==> other[i].Some?
      ensures forall i :: 0 <= i < |events| ==> Run()[i].Some?
    {
      RunIsMaximum(other);
      var mates := Run();
      forall i | 0 <= i < |events| ensures mates[i].Some? {
        if mates[i].None? {
          assert MatchedEvents(mates) < MatchedEvents(other) by { assert i in MatchedEvents(other); }
          SubsetIsSmaller(MatchedEvents(mates), MatchedEvents(other));
        }
      }
    }
  }

  // ----- the matching as the source runs it, on stacks of candidates

  /** The served events of one key, by index: those of each request id, those with ids, those without. */
  datatype ServedCandidates = ServedCandidates(
    byRequest: map<string, seq<nat>>,
    withIds: seq<nat>,
    withoutIds: seq<nat>)
  {
    function Push(ids: Option<string>, index: nat): ServedCandidates {
      match ids
      case None => this.(withoutIds := withoutIds + [index])
      case Some(id) =>
        var sameIds := if id in byRequest then byRequest[id] else [];
        this.(withIds := withIds + [index], byRequest := byRequest[id := sameIds + [index]])
    }

    function Get(slot: Slot): Option<seq<nat>> {
      match slot
      case SameIds(id) => if id in byRequest then Some(byRequest[id]) else None
      case WithIds => Some(withIds)
      case WithoutIds => Some(withoutIds)
    }

    function Put(slot: Slot, stack: seq<nat>): ServedCandidates {
      match slot
      case SameIds(id) => this.(byRequest := byRequest[id := stack])
      case WithIds => this.(withIds := stack)
      case WithoutIds => this.(withoutIds := stack)
    }
  }

  datatype Slot = SameIds(id: string) | WithIds | WithoutIds
  {
    predicate Admits(ids: Option<string>) {
      match this
      case SameIds(id) => ids == Some(id)
      case WithIds => ids.Some?
      case WithoutIds => ids.None?
    }
  }

  /** The stack a pass takes candidates from, for an event with these ids; none skips the event. */
  function SlotFor(pass: nat, ids: Option<string>): (r: Option<Slot>)
    requires pass < PASSES
    ensures forall y :: Rank(ids, y) == pass <==> r.Some? && r.value.Admits(y)
  {
    match ids
    case Some(id) =>
      if pass == 0 then Some(SameIds(id)) else if pass == 2 then Some(WithoutIds) else None
    case None =>
      if pass == 1 then Some(WithIds) else if pass == 3 then Some(WithoutIds) else None
  }

  /** `stack` is ascending, holds only indexes of `wanted`, and misses none that is free. */
  ghost predicate Stacked(stack: seq<nat>, wanted: set<nat>, taken: set<nat>) {
    && (forall a, b :: 0 <= a < b < |stack| ==> stack[a] < stack[b])
    && (forall a :: 0 <= a < |stack| ==> stack[a] in wanted)
    && (forall j :: j in wanted && j !in taken ==> j in stack)
  }

  /** The served events among the first `n` with key `key` under key function `k`, in `slot`. */
  ghost function Wanted<E>(p: Problem<E>, k: nat, key: string, slot: Slot, n: nat): set<nat>
    requires k < |p.toKeys| && n <= |p.served|
  {
    set j: nat | j < n && p.toKeys[k](p.served[j]) == key && slot.Admits(p.requestKey(p.served[j]))
  }

  ghost predicate EntryHolds<E>(p: Problem<E>, k: nat, key: string, entry: ServedCandidates, taken: set<nat>, n: nat)
    requires k < |p.toKeys| && n <= |p.served|
  {
    forall slot: Slot ::
      match entry.Get(slot)
      case Some(stack) => Stacked(stack, Wanted(p, k, key, slot, n), taken)
      case None => Wanted(p, k, key, slot, n) == {}
  }

  ghost predicate CandidatesHold<E>(p: Problem<E>, k: nat, candidates: map<string, ServedCandidates>, taken: set<nat>, n: nat)
    requires k < |p.toKeys| && n <= |p.served|
  {
    && (forall key :: key in candidates ==> EntryHolds(p, k, key, candidates[key], taken, n))
    && (forall key, slot :: key !in candidates ==> Wanted(p, k, key, slot, n) == {})
  }

  const NO_CANDIDATES := ServedCandidates(map[], [], [])

  method IndexServed<E>(p: Problem<E>, k: nat) returns (candidates: map<string, ServedCandidates>)
    requires k < |p.toKeys|
    ensures CandidatesHold(p, k, candidates, {}, |p.served|)
  {
    candidates := map[];
    for index := 0 to |p.served|
      invariant CandidatesHold(p, k, candidates, {}, index)
    {
      var key := p.toKeys[k](p.served[index]);
      var entry := if key in candidates then candidates[key] else NO_CANDIDATES;
      PushHolds(p, k, candidates, index);
      candidates := candidates[key := entry.Push(p.requestKey(p.served[index]), index)];
    }
  }

  lemma WantedStep<E>(p: Problem<E>, k: nat, key: string, slot: Slot, index: nat)
    requires k < |p.toKeys| && index < |p.served|
    ensures Wanted(p, k, key, slot, index + 1) ==
      if p.toKeys[k](p.served[index]) == key && slot.Admits(p.requestKey(p.served[index]))
      then Wanted(p, k, key, slot, index) + {index} else Wanted(p, k, key, slot, index)
  {
  }

  /** The entry of the served event's own key, with the event pushed. */
  lemma PushOwn<E>(p: Problem<E>, k: nat, entry: ServedCandidates, index: nat)
    requires k < |p.toKeys| && index < |p.served|
    requires EntryHolds(p, k, p.toKeys[k](p.served[index]), entry, {}, index)
    ensures EntryHolds(p, k, p.toKeys[k](p.served[index]), entry.Push(p.requestKey(p.served[index]), index), {}, index + 1)
  {
    var key := p.toKeys[k](p.served[index]);
    var ids := p.requestKey(p.served[index]);
    forall slot: Slot ensures
      match entry.Push(ids, index).Get(slot)
      case Some(stack) => Stacked(stack, Wanted(p, k, key, slot, index + 1), {})
      case None => Wanted(p, k, key, slot, index + 1) == {}
    {
      WantedStep(p, k, key, slot, index);
      var before := Wanted(p, k, key, slot, index);
      match entry.Get(slot) {
        case Some(stack) => assert Stacked(stack, before, {});
        case None => assert before == {};
      }
    }
  }

  /** The served event is no candidate of another key. */
  lemma PushLeavesOther<E>(p: Problem<E>, k: nat, key: string, index: nat)
    requires k < |p.toKeys| && index < |p.served| && key != p.toKeys[k](p.served[index])
    ensures var n := index + 1; forall slot :: Wanted(p, k, key, slot, n) == Wanted(p, k, key, slot, index)
  {
    var n := index + 1;
    forall slot: Slot ensures Wanted(p, k, key, slot, n) == Wanted(p, k, key, slot, index) { WantedStep(p, k, key, slot, index); }
  }

  lemma PushHolds<E>(p: Problem<E>, k: nat, candidates: map<string, ServedCandidates>, index: nat)
    requires k < |p.toKeys| && index < |p.served|
    requires CandidatesHold(p, k, candidates, {}, index)
    ensures
      var key := p.toKeys[k](p.served[index]);
      var entry := if key in candidates then candidates[key] else NO_CANDIDATES;
      CandidatesHold(p, k, candidates[key := entry.Push(p.requestKey(p.served[index]), index)], {}, index + 1)
  {
    var key := p.toKeys[k](p.served[index]);
    var entry := if key in candidates then candidates[key] else NO_CANDIDATES;
    assert EntryHolds(p, k, key, entry, {}, index);
    PushOwn(p, k, entry, index);
    forall other | other != key && other in candidates ensures EntryHolds(p, k, other, candidates[other], {}, index + 1) {
      PushLeavesOther(p, k, other, index);
    }
    var n := index + 1;
    forall other | other != key && other !in candidates ensures forall slot :: Wanted(p, k, other, slot, n) == {} {
      PushLeavesOther(p, k, other, index);
    }
  }

  function SetOf(taken: seq<bool>): set<nat> {
    set j | 0 <= j < |taken| && taken[j]
  }

  /** Pops indexes until one is free, and takes it. */
  method Take(stack: seq<nat>, taken: array<bool>) returns (rest: seq<nat>, index: Option<nat>)
    requires forall a :: 0 <= a < |stack| ==> stack[a] < taken.Length
    modifies taken
    ensures rest <= stack
    ensures forall a :: |rest| < a < |stack| ==> stack[a] in SetOf(old(taken[..]))
    ensures index.None? ==> rest == [] && (forall a :: 0 <= a < |stack| ==> stack[a] in SetOf(old(taken[..])))
    ensures index.None? ==> taken[..] == old(taken[..])
    ensures index.Some? ==> |rest| < |stack| && stack[|rest|] == index.value && index.value !in SetOf(old(taken[..]))
    ensures index.Some? ==> taken[..] == old(taken[..])[index.value := true]
  {
    rest := stack;
    while |rest| > 0
      invariant rest <= stack && taken[..] == old(taken[..])
      invariant forall a :: |rest| <= a < |stack| ==> stack[a] in SetOf(taken[..])
    {
      var last := rest[|rest| - 1];
      rest := rest[..|rest| - 1];
      if !taken[last] {
        taken[last] := true;
        return rest, Some(last);
      }
    }
    index := None;
  }

  /** The arrays agree with the matches made so far, and the stacks with the served events left. */
  ghost predicate Agrees<E>(p: Problem<E>, mates: Mates, matched: seq<bool>, taken: seq<bool>, candidates: seq<map<string, ServedCandidates>>)
  {
    && p.Valid() && p.IsMatching(mates)
    && matched == Flags(mates)
    && |taken| == |p.served| && SetOf(taken) == Taken(mates)
    && |candidates| == |p.toKeys|
    && forall k :: 0 <= k < |candidates| ==> CandidatesHold(p, k, candidates[k], Taken(mates), |p.served|)
  }

  /** What remains of a stack after `Take` holds still: what it popped is taken. */
  lemma RestIsStacked(stack: seq<nat>, rest: seq<nat>, wanted: set<nat>, taken: set<nat>, taken': set<nat>)
    requires Stacked(stack, wanted, taken) && taken <= taken'
    requires rest <= stack
    requires forall a :: |rest| <= a < |stack| ==> stack[a] in taken'
    ensures Stacked(rest, wanted, taken')
  {
    forall j | j in wanted && j !in taken' ensures j in rest {
      var a :| 0 <= a < |stack| && stack[a] == j;
      assert rest[a] == j;
    }
  }

  /** Replacing one stack by what remains of it keeps every stack complete. */
  lemma PutHolds<E>(p: Problem<E>, k: nat, key: string, entry: ServedCandidates, slot: Slot, rest: seq<nat>, taken: set<nat>, taken': set<nat>)
    requires k < |p.toKeys| && EntryHolds(p, k, key, entry, taken, |p.served|) && taken <= taken'
    requires entry.Get(slot).Some? && Stacked(rest, Wanted(p, k, key, slot, |p.served|), taken')
    ensures EntryHolds(p, k, key, entry.Put(slot, rest), taken', |p.served|)
  {
    forall other: Slot ensures
      match entry.Put(slot, rest).Get(other)
      case Some(stack) => Stacked(stack, Wanted(p, k, key, other, |p.served|), taken')
      case None => Wanted(p, k, key, other, |p.served|) == {}
    {
      if other != slot {
        assert entry.Put(slot, rest).Get(other) == entry.Get(other);
        match entry.Get(other) {
          case Some(stack) => assert Stacked(stack, Wanted(p, k, key, other, |p.served|), taken);
          case None =>
        }
      }
    }
  }

  lemma MoreTakenHolds<E>(p: Problem<E>, k: nat, candidates: map<string, ServedCandidates>, taken: set<nat>, taken': set<nat>)
    requires k < |p.toKeys| && CandidatesHold(p, k, candidates, taken, |p.served|) && taken <= taken'
    ensures CandidatesHold(p, k, candidates, taken', |p.served|)
  {
    forall key | key in candidates ensures EntryHolds(p, k, key, candidates[key], taken', |p.served|) {
      forall slot: Slot ensures
        match candidates[key].Get(slot)
        case Some(stack) => Stacked(stack, Wanted(p, k, key, slot, |p.served|), taken')
        case None => Wanted(p, k, key, slot, |p.served|) == {}
      {
        match candidates[key].Get(slot) {
          case Some(stack) => assert Stacked(stack, Wanted(p, k, key, slot, |p.served|), taken);
          case None =>
        }
      }
    }
  }

  /** The last free index of the stack a pass uses is the last free candidate of the event. */
  lemma TopIsLastFree<E>(p: Problem<E>, pass: nat, k: nat, i: nat, taken: set<nat>, candidates: map<string, ServedCandidates>)
    requires k < |p.toKeys| && i < |p.events| && pass < PASSES
    requires CandidatesHold(p, k, candidates, taken, |p.served|)
    ensures
      var key := p.toKeys[k](p.events[i]);
      var slot := SlotFor(pass, p.requestKey(p.events[i]));
      var best := p.LastFree(pass, k, i, taken, |p.served|);
      && (key !in candidates || slot.None? || candidates[key].Get(slot.value).None? ==> best.None?)
      && (best.Some? ==> best.value in Wanted(p, k, key, slot.value, |p.served|))
      && (slot.Some? ==> forall j :: j in Wanted(p, k, key, slot.value, |p.served|) && j !in taken ==>
            best.Some? && j <= best.value)
  {
    var key := p.toKeys[k](p.events[i]);
    var slot := SlotFor(pass, p.requestKey(p.events[i]));
    var best := p.LastFree(pass, k, i, taken, |p.served|);
    if slot.Some? {
      forall j | j in Wanted(p, k, key, slot.value, |p.served|) && j !in taken
        ensures best.Some? && j <= best.value
      {
        assert p.Candidate(pass, k, i, j);
      }
    }
    if best.Some? {
      assert best.value in Wanted(p, k, key, slot.value, |p.served|);
      assert key in candidates;
      assert EntryHolds(p, k, key, candidates[key], taken, |p.served|);
    }
  }

  lemma TakenStep(mates: Mates, i: nat, j: nat)
    requires i < |mates| && mates[i].None?
    ensures Taken(mates[i := Some(j)]) == Taken(mates) + {j}
  {
    var next := mates[i := Some(j)];
    forall x | x in Taken(mates) + {j} ensures x in Taken(next) {
      if x in Taken(mates) {
        var e :| 0 <= e < |mates| && mates[e].Some? && mates[e].value == x;
        assert next[e] == mates[e];
      } else {
        assert next[i].value == x;
      }
    }
  }

  /** The state after one event took the top free index of its stack, or found none. */
  lemma TakeAgrees<E>(p: Problem<E>, pass: nat, k: nat, i: nat, mates: Mates, matched: seq<bool>, taken: seq<bool>,
                      candidates: seq<map<string, ServedCandidates>>, rest: seq<nat>, index: Option<nat>)
    requires p.Refining() && pass < PASSES && k < |p.toKeys| && i < |p.events|
    requires Agrees(p, mates, matched, taken, candidates) && mates[i].None?
    requires p.toKeys[k](p.events[i]) in candidates[k] && SlotFor(pass, p.requestKey(p.events[i])).Some?
    requires candidates[k][p.toKeys[k](p.events[i])].Get(SlotFor(pass, p.requestKey(p.events[i])).value).Some?
    requires var stack := candidates[k][p.toKeys[k](p.events[i])].Get(SlotFor(pass, p.requestKey(p.events[i])).value).value;
      && rest <= stack
      && (forall a :: |rest| < a < |stack| ==> stack[a] in SetOf(taken))
      && (index.None? ==> rest == [] && forall a :: 0 <= a < |stack| ==> stack[a] in SetOf(taken))
      && (index.Some? ==> |rest| < |stack| && stack[|rest|] == index.value && index.value !in SetOf(taken))
    ensures
      var key := p.toKeys[k](p.events[i]);
      var slot := SlotFor(pass, p.requestKey(p.events[i])).value;
      var candidates' := candidates[k := candidates[k][key := candidates[k][key].Put(slot, rest)]];
      if index.None?
      then Agrees(p, p.MatchEvent(pass, k, i, mates), matched, taken, candidates')
      else index.value < |taken|
           && Agrees(p, p.MatchEvent(pass, k, i, mates), matched[i := true], taken[index.value := true], candidates')
  {
    var key := p.toKeys[k](p.events[i]);
    var slot := SlotFor(pass, p.requestKey(p.events[i])).value;
    var entry := candidates[k][key];
    var stack := entry.Get(slot).value;
    var wanted := Wanted(p, k, key, slot, |p.served|);
    var before := Taken(mates);
    var next := p.MatchEvent(pass, k, i, mates);
    var best := p.LastFree(pass, k, i, before, |p.served|);
    TopIsLastFree(p, pass, k, i, before, candidates[k]);
    p.MatchEventFacts(pass, k, i, mates);
    assert EntryHolds(p, k, key, entry, before, |p.served|);
    assert Stacked(stack, wanted, before);
    assert best == index by {
      if best.Some? { assert best.value in stack; }
      if index.Some? { assert index.value in wanted; }
    }
    if index.Some? { TakenStep(mates, i, index.value); }
    RestIsStacked(stack, rest, wanted, before, Taken(next));
    PutHolds(p, k, key, entry, slot, rest, before, Taken(next));
    forall c | 0 <= c < |candidates| ensures CandidatesHold(p, c, candidates[c], Taken(next), |p.served|) {
      MoreTakenHolds(p, c, candidates[c], before, Taken(next));
    }
  }

  lemma NothingMatchedAgrees<E>(p: Problem<E>, matched: seq<bool>, taken: seq<bool>, candidates: seq<map<string, ServedCandidates>>)
    requires p.Valid() && |matched| == |p.events| && |taken| == |p.served| && |candidates| == |p.toKeys|
    requires forall i :: 0 <= i < |matched| ==> !matched[i]
    requires forall j :: 0 <= j < |taken| ==> !taken[j]
    requires forall k :: 0 <= k < |candidates| ==> CandidatesHold(p, k, candidates[k], {}, |p.served|)
    ensures Agrees(p, p.NoMates(), matched, taken, candidates)
  {
    assert Taken(p.NoMates()) == {} == SetOf(taken);
  }

  method IndexByKey<E>(p: Problem<E>) returns (candidatesByKey: seq<map<string, ServedCandidates>>)
    ensures |candidatesByKey| == |p.toKeys|
    ensures forall k :: 0 <= k < |candidatesByKey| ==> CandidatesHold(p, k, candidatesByKey[k], {}, |p.served|)
  {
    candidatesByKey := [];
    for k := 0 to |p.toKeys|
      invariant |candidatesByKey| == k
      invariant forall c :: 0 <= c < k ==> CandidatesHold(p, c, candidatesByKey[c], {}, |p.served|)
    {
      var candidates := IndexServed(p, k);
      candidatesByKey := candidatesByKey + [candidates];
    }
  }

  /** Which events are copies: exactly those `Run` matches. */
  method MatchCopies<E>(p: Problem<E>) returns (matched: array<bool>)
    requires p.Refining()
    ensures fresh(matched) && matched[..] == Flags(p.Run())
  {
    matched := new bool[|p.events|](_ => false);
    var taken := new bool[|p.served|](_ => false);
    var candidatesByKey := IndexByKey(p);
    NothingMatchedAgrees(p, matched[..], taken[..], candidatesByKey);
    p.RunIsAllPasses();
    RunPasses(p, 0, p.NoMates(), matched, taken, candidatesByKey);
  }

  /** Every pass from `first` on. */
  method RunPasses<E>(p: Problem<E>, first: nat, ghost start: Mates, matched: array<bool>, taken: array<bool>,
                      candidatesByKey: seq<map<string, ServedCandidates>>)
    requires matched != taken && matched.Length == |p.events|
    requires p.Refining() && first <= PASSES && Agrees(p, start, matched[..], taken[..], candidatesByKey)
    modifies matched, taken
    ensures matched[..] == Flags(p.RunPasses(first, start))
  {
    var candidates := candidatesByKey;
    ghost var mates := start;
    for pass := first to PASSES
      invariant Agrees(p, mates, matched[..], taken[..], candidates)
      invariant p.RunPasses(pass, mates) == p.RunPasses(first, start)
    {
      candidates := RunPass(p, pass, matched, taken, candidates, mates);
      mates := p.RunKeys(pass, 0, mates);
    }
  }

  /** One pass: every key in order, every event in order. */
  method RunPass<E>(p: Problem<E>, pass: nat, matched: array<bool>, taken: array<bool>,
                    candidatesByKey: seq<map<string, ServedCandidates>>, ghost mates: Mates)
    returns (candidatesByKey': seq<map<string, ServedCandidates>>)
    requires matched != taken && matched.Length == |p.events|
    requires p.Refining() && pass < PASSES
    requires Agrees(p, mates, matched[..], taken[..], candidatesByKey)
    modifies matched, taken
    ensures Agrees(p, p.RunKeys(pass, 0, mates), matched[..], taken[..], candidatesByKey')
  {
    candidatesByKey' := candidatesByKey;
    ghost var reached := mates;
    for k := 0 to |p.toKeys|
      invariant Agrees(p, reached, matched[..], taken[..], candidatesByKey')
      invariant p.RunKeys(pass, k, reached) == p.RunKeys(pass, 0, mates)
    {
      ghost var start := reached;
      for i := 0 to |p.events|
        invariant Agrees(p, reached, matched[..], taken[..], candidatesByKey')
        invariant p.MatchFrom(pass, k, i, reached) == p.MatchFrom(pass, k, 0, start)
      {
        candidatesByKey' := TryMatch(p, pass, k, i, matched, taken, candidatesByKey', reached);
        reached := p.MatchEvent(pass, k, i, reached);
      }
    }
  }

  /** One event of one key of one pass. */
  method TryMatch<E>(p: Problem<E>, pass: nat, k: nat, i: nat, matched: array<bool>, taken: array<bool>,
                     candidatesByKey: seq<map<string, ServedCandidates>>, ghost mates: Mates)
    returns (candidatesByKey': seq<map<string, ServedCandidates>>)
    requires matched != taken && matched.Length == |p.events|
    requires p.Refining() && pass < PASSES && k < |p.toKeys| && i < |p.events|
    requires Agrees(p, mates, matched[..], taken[..], candidatesByKey)
    modifies matched, taken
    ensures Agrees(p, p.MatchEvent(pass, k, i, mates), matched[..], taken[..], candidatesByKey')
  {
    candidatesByKey' := candidatesByKey;
    if matched[i] {
      assert matched[..][i];
      return;
    }
    assert !matched[..][i];
    var candidates := candidatesByKey[k];
    var key := p.toKeys[k](p.events[i]);
    var slot := SlotFor(pass, p.requestKey(p.events[i]));
    if key in candidates && slot.Some? && candidates[key].Get(slot.value).Some? {
      var stack := candidates[key].Get(slot.value).value;
      assert EntryHolds(p, k, key, candidates[key], Taken(mates), |p.served|);
      assert Stacked(stack, Wanted(p, k, key, slot.value, |p.served|), Taken(mates));
      var rest, index := Take(stack, taken);
      TakeAgrees(p, pass, k, i, mates, old(matched[..]), old(taken[..]), candidatesByKey, rest, index);
      if index.Some? {
        matched[i] := true;
      }
      candidatesByKey' := candidatesByKey[k := candidates[key := candidates[key].Put(slot.value, rest)]];
    } else {
      TopIsLastFree(p, pass, k, i, Taken(mates), candidates);
      assert p.MatchEvent(pass, k, i, mates) == mates;
    }
  }
}
