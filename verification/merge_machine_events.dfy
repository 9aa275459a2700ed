/**
 Combining other machines' events with the ones already counted here
 (src/machines/merge-machine-events.ts, `groupBySession`, `findSkew`, `mergeByKeys`).

 `Merge.Outcome` says what one machine's events of one session do to that session;
 `Merge.Results` runs the machines in order. The method `MergeByKeys` is the source's loop over
 mutable maps; it computes `Results`.
 */
module MachineMerge {
  import opened Common
  import opened CopyMatching

  type ParserVersions = map<string, string>

  datatype Server = Server(name: string, parserVersions: Option<ParserVersions>)

  datatype Machine<E> = Machine(server: Server, events: seq<E>)

  datatype Merged<E> = Merged(name: string, events: seq<E>, duplicateCount: nat, skewDroppedCount: nat)

  /** A session's counted events and who served it first. */
  datatype Held<E> = Held(served: seq<E>, server: Server)

  /** What a machine's events of one session come to: the session now, and which events were copies. */
  datatype Outcome<E> = Outcome(held: Held<E>, kept: seq<E>, duplicateCount: nat, skewDroppedCount: nat)

  /** The elements whose flag is down, in order. */
  function Unflagged<E>(xs: seq<E>, flags: seq<bool>): (r: seq<E>)
    requires |xs| == |flags|
    ensures forall x :: x in r ==> x in xs
    ensures |r| <= |xs|
  {
    if xs == [] then []
    else
      var n := |xs| - 1;
      Unflagged(xs[..n], flags[..n]) + (if flags[n] then [] else [xs[n]])
  }

  function CountFlags(flags: seq<bool>): nat {
    if flags == [] then 0
    else CountFlags(flags[..|flags| - 1]) + (if flags[|flags| - 1] then 1 else 0)
  }

  function Version(server: Server, source: string): Option<string> {
    if server.parserVersions.Some? && source in server.parserVersions.value
    then Some(server.parserVersions.value[source])
    else None
  }

  /** The versions differ, or a side did not record one. */
  predicate IsSkewed(source: string, machine: Server, server: Server) {
    Version(machine, source).None? || Version(server, source).None?
    || Version(machine, source) != Version(server, source)
  }

  /** The sessions' outcomes together, in order. */
  function Total<E>(name: string, outcomes: seq<Outcome<E>>): (r: Merged<E>)
    ensures r.name == name
  {
    if outcomes == [] then Merged(name, [], 0, 0)
    else
      var n := |outcomes| - 1;
      var before := Total(name, outcomes[..n]);
      Merged(name, before.events + outcomes[n].kept, before.duplicateCount + outcomes[n].duplicateCount,
             before.skewDroppedCount + outcomes[n].skewDroppedCount)
  }

  datatype Merge<!E(!new)> = Merge(
    session: E -> string,
    source: E -> string,
    hash: E -> string,
    turns: seq<E -> string>,
    requestKey: E -> Option<string>,
    local: Server)
  {
    /** A turn key equal under an earlier function is equal under the last. */
    ghost predicate TurnsRefine() {
      |turns| > 0 && forall k, x, y :: 0 <= k < |turns| && turns[k](x) == turns[k](y) ==>
        turns[|turns| - 1](x) == turns[|turns| - 1](y)
    }

    // ----- grouping

    function SessionEvents(events: seq<E>, key: string): seq<E> {
      if events == [] then []
      else
        var n := |events| - 1;
        SessionEvents(events[..n], key) + (if session(events[n]) == key then [events[n]] else [])
    }

    /** The sessions of `events` in the order they first appear. */
    function Sessions(events: seq<E>): (r: seq<string>)
      ensures forall key :: key in r <==> SessionEvents(events, key) != []
    {
      if events == [] then []
      else
        var n := |events| - 1;
        var before := Sessions(events[..n]);
        if session(events[n]) in before then before else before + [session(events[n])]
    }

    lemma {:induction false} SessionsDistinct(events: seq<E>)
      ensures forall a, b :: 0 <= a < b < |Sessions(events)| ==> Sessions(events)[a] != Sessions(events)[b]
    {
      if events != [] { SessionsDistinct(events[..|events| - 1]); }
    }

    /** A session's events all belong to it. */
    lemma {:induction false} SessionEventsBelong(events: seq<E>, key: string)
      ensures forall x :: x in SessionEvents(events, key) ==> session(x) == key
    {
      if events != [] { SessionEventsBelong(events[..|events| - 1], key); }
    }

    // ----- one session of one machine

    function Keys(machine: Server, server: Server, source: string): (r: seq<E -> string>) {
      if IsSkewed(source, machine, server) then turns else [hash]
    }

    function Copies(held: Held<E>, machine: Server, events: seq<E>): Problem<E>
      requires events != []
    {
      Problem(events, held.served, Keys(machine, held.server, source(events[0])), requestKey)
    }

    lemma CopiesRefine(held: Held<E>, machine: Server, events: seq<E>)
      requires TurnsRefine() && events != []
      ensures Copies(held, machine, events).Refining()
    {
      var p := Copies(held, machine, events);
      forall k, i, j | 0 <= k < |p.toKeys| && 0 <= i < |events| && 0 <= j < |p.served| && p.SameKey(k, i, j)
        ensures p.SameKey(|p.toKeys| - 1, i, j)
      {
      }
    }

    function MergeSession(held: Option<Held<E>>, machine: Server, events: seq<E>): Outcome<E>
      requires events != []
    {
      match held
      case None => Outcome(Held(events, machine), events, 0, 0)
      case Some(h) =>
        var flags := Flags(Copies(h, machine, events).Run());
        var kept := Unflagged(events, flags);
        var count := CountFlags(flags);
        if IsSkewed(source(events[0]), machine, h.server)
        then Outcome(Held(h.served + kept, h.server), kept, 0, count)
        else Outcome(Held(h.served + kept, h.server), kept, count, 0)
    }

    // ----- the machines in order

    /** A session once one machine is merged into it; unchanged if the machine has no events of it. */
    function HeldAfterMachine(held: Option<Held<E>>, machine: Machine<E>, key: string): Option<Held<E>> {
      var events := SessionEvents(machine.events, key);
      if events == [] then held else Some(MergeSession(held, machine.server, events).held)
    }

    /** A session once the first `n` machines are merged; none when no one has events of it. */
    function HeldAfter(served: seq<E>, machines: seq<Machine<E>>, n: nat, key: string): Option<Held<E>>
      requires n <= |machines|
    {
      if n == 0 then
        var events := SessionEvents(served, key);
        if events == [] then None else Some(Held(events, local))
      else
        HeldAfterMachine(HeldAfter(served, machines, n - 1, key), machines[n - 1], key)
    }

    function SessionOutcome(served: seq<E>, machines: seq<Machine<E>>, n: nat, key: string): Outcome<E>
      requires n < |machines| && key in Sessions(machines[n].events)
    {
      MergeSession(HeldAfter(served, machines, n, key), machines[n].server, SessionEvents(machines[n].events, key))
    }

    function Outcomes(served: seq<E>, machines: seq<Machine<E>>, n: nat): (r: seq<Outcome<E>>)
      requires n < |machines|
      ensures |r| == |Sessions(machines[n].events)|
    {
      var order := Sessions(machines[n].events);
      seq(|order|, k requires 0 <= k < |order| => SessionOutcome(served, machines, n, order[k]))
    }

    function Result(served: seq<E>, machines: seq<Machine<E>>, n: nat): Merged<E>
      requires n < |machines|
    {
      Total(machines[n].server.name, Outcomes(served, machines, n))
    }

    function Results(served: seq<E>, machines: seq<Machine<E>>): (r: seq<Merged<E>>)
      ensures |r| == |machines|
    {
      seq(|machines|, n requires 0 <= n < |machines| => Result(served, machines, n))
    }

    // ----- listing a machine again keeps nothing

    /** Every one of `events` has a copy of its own in the session, under the keys they would be matched with. */
    ghost predicate Contained(held: Held<E>, machine: Server, events: seq<E>, mates: Mates)
      requires TurnsRefine() && events != []
    {
      var p := Copies(held, machine, events);
      p.Valid() && p.IsMatching(mates) && forall i :: 0 <= i < |mates| ==> mates[i].Some?
    }

    lemma ContainedKeepsNothing(held: Held<E>, machine: Server, events: seq<E>, mates: Mates)
      requires TurnsRefine() && events != [] && Contained(held, machine, events, mates)
      ensures MergeSession(Some(held), machine, events).kept == []
      ensures MergeSession(Some(held), machine, events).held == held
    {
      var p := Copies(held, machine, events);
      CopiesRefine(held, machine, events);
      p.PerfectMatchingIsFound(mates);
      AllFlagged(events, Flags(p.Run()));
    }

    lemma ContainedGrows(held: Held<E>, more: seq<E>, machine: Server, events: seq<E>, mates: Mates)
      requires TurnsRefine() && events != [] && Contained(held, machine, events, mates)
      ensures Contained(Held(held.served + more, held.server), machine, events, mates)
    {
      var p := Copies(held, machine, events);
      var q := Copies(Held(held.served + more, held.server), machine, events);
      forall i | 0 <= i < |mates| ensures mates[i].value < |q.served| && q.Joined(i, mates[i].value) {
        assert p.Joined(i, mates[i].value);
      }
    }

    /** Once merged, a machine's events of a session are all contained in it. */
    lemma MergeContains(held: Option<Held<E>>, machine: Server, events: seq<E>) returns (mates: Mates)
      requires TurnsRefine() && events != []
      ensures Contained(MergeSession(held, machine, events).held, machine, events, mates)
    {
      match held
      case None =>
        mates := seq(|events|, i => Some(i));
      case Some(h) =>
        var p := Copies(h, machine, events);
        CopiesRefine(h, machine, events);
        p.RunIsExhaustedMatching();
        mates := Placed(p.Run(), |h.served|);
        PlacedIsMatching(h, machine, events);
    }

    lemma PlacedIsMatching(h: Held<E>, machine: Server, events: seq<E>)
      requires TurnsRefine() && events != []
      requires Copies(h, machine, events).Refining()
      ensures Contained(MergeSession(Some(h), machine, events).held, machine, events,
                        Placed(Copies(h, machine, events).Run(), |h.served|))
    {
      var p := Copies(h, machine, events);
      var run := p.Run();
      p.RunIsExhaustedMatching();
      var kept := Unflagged(events, Flags(run));
      var q := Copies(Held(h.served + kept, h.server), machine, events);
      var mates := Placed(run, |h.served|);
      forall i | 0 <= i < |mates| ensures mates[i].Some? && mates[i].value < |q.served| && q.Joined(i, mates[i].value) {
        PlacedAt(events, run, |h.served|, i);
        if run[i].Some? {
          assert p.Joined(i, run[i].value);
        } else {
          assert q.served[mates[i].value] == events[i];
        }
      }
      forall i, j | 0 <= i < j < |mates| ensures mates[i] != mates[j] {
        PlacedAt(events, run, |h.served|, i);
        PlacedAt(events, run, |h.served|, j);
        if run[i].None? && run[j].None? { PlacedApart(run, i, j); }
      }
    }

    /** Merging into a session only appends to it. */
    lemma MergeAppends(held: Held<E>, machine: Server, events: seq<E>)
      requires events != []
      ensures var o := MergeSession(Some(held), machine, events);
        o.held == Held(held.served + o.kept, held.server)
    {
    }

    ghost predicate HoldsCopies(held: Option<Held<E>>, machine: Machine<E>, key: string, mates: Mates)
      requires TurnsRefine() && key in Sessions(machine.events)
    {
      held.Some? && Contained(held.value, machine.server, SessionEvents(machine.events, key), mates)
    }

    lemma HoldsCopiesStays(held: Option<Held<E>>, other: Machine<E>, machine: Machine<E>, key: string, mates: Mates)
      requires TurnsRefine() && key in Sessions(machine.events) && HoldsCopies(held, machine, key, mates)
      ensures HoldsCopies(HeldAfterMachine(held, other, key), machine, key, mates)
    {
      var events := SessionEvents(other.events, key);
      if events != [] {
        MergeAppends(held.value, other.server, events);
        ContainedGrows(held.value, MergeSession(held, other.server, events).kept, machine.server,
                       SessionEvents(machine.events, key), mates);
      }
    }

    lemma MachineHoldsItself(held: Option<Held<E>>, machine: Machine<E>, key: string) returns (mates: Mates)
      requires TurnsRefine() && key in Sessions(machine.events)
      ensures HoldsCopies(HeldAfterMachine(held, machine, key), machine, key, mates)
    {
      mates := MergeContains(held, machine.server, SessionEvents(machine.events, key));
    }

    /** A session machine `i` was merged into keeps a copy of each of its events ever after. */
    lemma {:induction false} StaysContained(served: seq<E>, machines: seq<Machine<E>>, i: nat, n: nat, key: string)
      returns (mates: Mates)
      requires TurnsRefine() && i < n <= |machines| && key in Sessions(machines[i].events)
      ensures HoldsCopies(HeldAfter(served, machines, n, key), machines[i], key, mates)
      decreases n
    {
      var before := HeldAfter(served, machines, n - 1, key);
      if n == i + 1 {
        mates := MachineHoldsItself(before, machines[i], key);
      } else {
        mates := StaysContained(served, machines, i, n - 1, key);
        HoldsCopiesStays(before, machines[n - 1], machines[i], key, mates);
      }
    }

    lemma SessionRepeatKeepsNothing(served: seq<E>, machines: seq<Machine<E>>, i: nat, j: nat, key: string)
      requires TurnsRefine() && i < j < |machines|
      requires machines[i].events == machines[j].events
      requires machines[i].server.parserVersions == machines[j].server.parserVersions
      requires key in Sessions(machines[j].events)
      ensures SessionOutcome(served, machines, j, key).kept == []
    {
      var events := SessionEvents(machines[j].events, key);
      var mates := StaysContained(served, machines, i, j, key);
      var held := HeldAfter(served, machines, j, key).value;
      assert Copies(held, machines[i].server, events) == Copies(held, machines[j].server, events);
      ContainedKeepsNothing(held, machines[j].server, events, mates);
    }

    /** A machine listed again, with the same events and parser versions, adds nothing, whatever came between. */
    lemma RepeatKeepsNothing(served: seq<E>, machines: seq<Machine<E>>, i: nat, j: nat)
      requires TurnsRefine() && i < j < |machines|
      requires machines[i].events == machines[j].events
      requires machines[i].server.parserVersions == machines[j].server.parserVersions
      ensures Results(served, machines)[j].events == []
    {
      var order := Sessions(machines[j].events);
      forall k | 0 <= k < |order| ensures SessionOutcome(served, machines, j, order[k]).kept == [] {
        SessionRepeatKeepsNothing(served, machines, i, j, order[k]);
      }
      NothingKept(machines[j].server.name, Outcomes(served, machines, j));
    }

    // ----- request ids stay unique

    /** No two events with the same hash log the same request ids. */
    ghost predicate RequestsDistinct(events: seq<E>) {
      forall i, j :: 0 <= i < j < |events| ==>
        requestKey(events[i]) == requestKey(events[j]) && requestKey(events[i]).Some? ==>
        hash(events[i]) != hash(events[j])
    }

    /** Both sides recorded the same parser version of the source of every session event. */
    ghost predicate SameVersions(held: Held<E>, machine: Server, events: seq<E>) {
      events != [] && !IsSkewed(source(events[0]), machine, held.server)
    }

    /** Whatever the versions: an event whose ids and loosest key the session already holds is a copy. */
    lemma HeldRequestIsCopy(held: Held<E>, machine: Server, events: seq<E>, i: nat, j: nat)
      requires events != [] && Copies(held, machine, events).Refining() && i < |events| && j < |held.served|
      requires var p := Copies(held, machine, events);
        && requestKey(events[i]).Some? && requestKey(events[i]) == requestKey(held.served[j])
        && p.LastKey(events[i]) == p.LastKey(held.served[j])
        && forall e :: 0 <= e < |events| && p.SameGroup(e, i) ==> e == i
      ensures Copies(held, machine, events).Run()[i].Some?
    {
      var p := Copies(held, machine, events);
      p.RunIsExhaustedMatching();
      var mates := p.Run();
      assert p.Candidate(0, |p.toKeys| - 1, i, j);
      if mates[i].None? {
        var owner := p.TakerOf(mates, 0, i, j);
        assert p.SameGroup(owner, i);
      }
    }

    lemma KeptRequestsAreNew(held: Held<E>, machine: Server, events: seq<E>)
      requires SameVersions(held, machine, events)
      requires RequestsDistinct(held.served) && RequestsDistinct(events)
      ensures RequestsDistinct(MergeSession(Some(held), machine, events).held.served)
    {
      var flags := Flags(Copies(held, machine, events).Run());
      var kept := Unflagged(events, flags);
      var all := held.served + kept;
      var at := UnflaggedIndexes(events, flags);
      forall i, j | 0 <= i < j < |all| && requestKey(all[i]).Some? && requestKey(all[i]) == requestKey(all[j])
        ensures hash(all[i]) != hash(all[j])
      {
        if j >= |held.served| {
          var b := at[j - |held.served|];
          if i >= |held.served| {
            assert at[i - |held.served|] < b;
          } else if hash(all[i]) == hash(all[j]) {
            assert Copies(held, machine, events).toKeys == [hash];
            HeldRequestIsCopy(held, machine, events, b, i);
          }
        }
      }
    }

    /** Everyone recorded the parser versions, and the same ones. */
    ghost predicate VersionsAgree(served: seq<E>, machines: seq<Machine<E>>) {
      && local.parserVersions.Some?
      && (forall n :: 0 <= n < |machines| ==> machines[n].server.parserVersions == local.parserVersions)
      && (forall n, x :: 0 <= n < |machines| && x in machines[n].events ==> source(x) in local.parserVersions.value)
    }

    lemma {:induction false} SessionEventsSubset(events: seq<E>, key: string)
      ensures forall x :: x in SessionEvents(events, key) ==> x in events
    {
      if events != [] {
        SessionEventsSubset(events[..|events| - 1], key);
        assert forall x :: x in events[..|events| - 1] ==> x in events;
      }
    }

    /**
     With equal parser versions throughout, and no session of one machine logging a request twice,
     no session ever comes to hold a request twice.
     */
    lemma {:induction false} RequestsStayDistinct(served: seq<E>, machines: seq<Machine<E>>, n: nat, key: string)
      requires n <= |machines| && VersionsAgree(served, machines)
      requires RequestsDistinct(SessionEvents(served, key))
      requires forall m :: 0 <= m < |machines| ==> RequestsDistinct(SessionEvents(machines[m].events, key))
      ensures var held := HeldAfter(served, machines, n, key);
        held.Some? ==> RequestsDistinct(held.value.served) && held.value.server.parserVersions == local.parserVersions
      decreases n
    {
      if n > 0 {
        RequestsStayDistinct(served, machines, n - 1, key);
        var before := HeldAfter(served, machines, n - 1, key);
        var events := SessionEvents(machines[n - 1].events, key);
        if events != [] && before.Some? {
          SessionEventsSubset(machines[n - 1].events, key);
          assert events[0] in machines[n - 1].events;
          KeptRequestsAreNew(before.value, machines[n - 1].server, events);
        }
      }
    }

    /** No two events agree in hash and ids, missing ids included. */
    ghost predicate AllDistinct(events: seq<E>) {
      forall i, j :: 0 <= i < j < |events| && requestKey(events[i]) == requestKey(events[j]) ==>
        hash(events[i]) != hash(events[j])
    }

    /** One of `events` has this hash and these ids. */
    predicate Logs(events: seq<E>, h: string, ids: Option<string>) {
      exists i :: 0 <= i < |events| && hash(events[i]) == h && requestKey(events[i]) == ids
    }

    /** Every logged request of this hash in `xs` is one in `ys`. */
    ghost predicate LogsWithin(xs: seq<E>, ys: seq<E>, h: string) {
      forall id :: Logs(xs, h, Some(id)) ==> Logs(ys, h, Some(id))
    }

    /**
     Events without ids are not kept unique: one is kept beside an equal held one exactly when the
     machine logs every held request of that hash, and one more, whose event takes the held one.
     */
    lemma EqualEventWithoutIdsIsKeptIff(held: Held<E>, machine: Server, events: seq<E>, i: nat, j: nat)
      requires SameVersions(held, machine, events) && AllDistinct(held.served) && AllDistinct(events)
      requires i < |events| && j < |held.served|
      requires requestKey(events[i]).None? && requestKey(held.served[j]).None?
      requires hash(events[i]) == hash(held.served[j])
      ensures var h := hash(events[i]);
        Copies(held, machine, events).Run()[i].None? <==>
          LogsWithin(held.served, events, h) && !LogsWithin(events, held.served, h)
    {
      var p := Copies(held, machine, events);
      assert p.toKeys == [hash];
      p.RunIsExhaustedMatching();
      if p.Run()[i].None? {
        KeptWithoutIds(held, machine, events, i, j);
      } else {
        MatchedWithoutIds(held, machine, events, i, j);
      }
    }

    lemma KeptWithoutIds(held: Held<E>, machine: Server, events: seq<E>, i: nat, j: nat)
      requires SameVersions(held, machine, events) && AllDistinct(held.served) && AllDistinct(events)
      requires i < |events| && j < |held.served|
      requires requestKey(events[i]).None? && requestKey(held.served[j]).None?
      requires hash(events[i]) == hash(held.served[j])
      requires Copies(held, machine, events).Stage(Copies(held, machine, events).Run(), PASSES)
      requires Copies(held, machine, events).Run()[i].None?
      ensures LogsWithin(held.served, events, hash(events[i]))
      ensures !LogsWithin(events, held.served, hash(events[i]))
    {
      var p := Copies(held, machine, events);
      var mates := p.Run();
      var h := hash(events[i]);
      forall id | Logs(held.served, h, Some(id)) ensures Logs(events, h, Some(id)) {
        var s :| 0 <= s < |held.served| && hash(held.served[s]) == h && requestKey(held.served[s]) == Some(id);
        // Pass 1 would have given `s` to event `i`.
        var owner := p.TakerOf(mates, 1, i, s);
        assert requestKey(events[owner]) == Some(id);
      }
      LogsOneMore(held, machine, events, i, j);
    }

    /** The event that took the held one without ids logs a request the session does not hold. */
    lemma LogsOneMore(held: Held<E>, machine: Server, events: seq<E>, i: nat, j: nat)
      requires SameVersions(held, machine, events) && AllDistinct(events) && i < |events| && j < |held.served|
      requires requestKey(events[i]).None? && requestKey(held.served[j]).None? && hash(events[i]) == hash(held.served[j])
      requires Copies(held, machine, events).Stage(Copies(held, machine, events).Run(), PASSES)
      requires Copies(held, machine, events).Run()[i].None?
      ensures !LogsWithin(events, held.served, hash(events[i]))
    {
      var p := Copies(held, machine, events);
      var mates := p.Run();
      var h := hash(events[i]);
      var owner := p.TakerOf(mates, 3, i, j);
      var id := requestKey(events[owner]).value;
      assert Logs(events, h, Some(id));
      if Logs(held.served, h, Some(id)) {
        var s :| 0 <= s < |held.served| && hash(held.served[s]) == h && requestKey(held.served[s]) == Some(id);
        // Pass 0 would have given `s` to the owner of `j`.
        var other := p.TakerOf(mates, 0, owner, s);
      }
    }

    lemma MatchedWithoutIds(held: Held<E>, machine: Server, events: seq<E>, i: nat, j: nat)
      requires SameVersions(held, machine, events) && AllDistinct(held.served) && AllDistinct(events)
      requires i < |events| && j < |held.served|
      requires requestKey(events[i]).None? && requestKey(held.served[j]).None?
      requires hash(events[i]) == hash(held.served[j])
      requires Copies(held, machine, events).Stage(Copies(held, machine, events).Run(), PASSES)
      requires Copies(held, machine, events).Run()[i].Some?
      ensures LogsWithin(held.served, events, hash(events[i])) ==> LogsWithin(events, held.served, hash(events[i]))
    {
      var p := Copies(held, machine, events);
      var mates := p.Run();
      var h := hash(events[i]);
      var s := mates[i].value;
      assert p.Joined(i, s);
      if LogsWithin(held.served, events, h) {
        if requestKey(held.served[s]).Some? {
          // Its request is in `events`, so pass 0 matched that event to it, not `i`.
          var id := requestKey(held.served[s]).value;
          assert Logs(held.served, h, Some(id));
          var e :| 0 <= e < |events| && hash(events[e]) == h && requestKey(events[e]) == Some(id);
          assert p.ServedFree(mates, 0, s);
          p.MateOf(mates, 0, e, s);
        } else {
          LoggedAreHeld(held, machine, events, i, j);
        }
      }
    }

    /** When event `i` took the held event without ids, every logged request of its hash is held. */
    lemma LoggedAreHeld(held: Held<E>, machine: Server, events: seq<E>, i: nat, j: nat)
      requires SameVersions(held, machine, events) && AllDistinct(held.served) && i < |events| && j < |held.served|
      requires requestKey(events[i]).None? && requestKey(held.served[j]).None? && hash(events[i]) == hash(held.served[j])
      requires Copies(held, machine, events).Stage(Copies(held, machine, events).Run(), PASSES)
      requires var mate := Copies(held, machine, events).Run()[i];
        mate.Some? && mate.value < |held.served| && hash(held.served[mate.value]) == hash(events[i])
        && requestKey(held.served[mate.value]).None?
      ensures LogsWithin(events, held.served, hash(events[i]))
    {
      var p := Copies(held, machine, events);
      var mates := p.Run();
      var h := hash(events[i]);
      assert mates[i].value == j;
      forall id | Logs(events, h, Some(id)) ensures Logs(held.served, h, Some(id)) {
        var e :| 0 <= e < |events| && hash(events[e]) == h && requestKey(events[e]) == Some(id);
        // Pass 2 would have given `j` to an event left by pass 0.
        assert p.ServedFree(mates, 2, j);
        p.MateOf(mates, 2, e, j);
        assert requestKey(held.served[mates[e].value]) == Some(id);
      }
    }

    // ----- every event is kept or counted, and sessions keep their order

    lemma OutcomeCounts(held: Option<Held<E>>, machine: Server, events: seq<E>)
      requires events != []
      ensures var o := MergeSession(held, machine, events);
        && |o.kept| + o.duplicateCount + o.skewDroppedCount == |events|
        && (held.None? || IsSkewed(source(events[0]), machine, held.value.server) ==> o.duplicateCount == 0)
        && (held.None? || !IsSkewed(source(events[0]), machine, held.value.server) ==> o.skewDroppedCount == 0)
    {
      match held
      case None =>
      case Some(h) => UnflaggedCount(events, Flags(Copies(h, machine, events).Run()));
    }

    /** As many events are left out as any one-to-one matching with the session's events could leave out. */
    lemma AsManyCopiesAsPossible(held: Held<E>, machine: Server, events: seq<E>, other: Mates)
      requires TurnsRefine() && events != []
      requires Copies(held, machine, events).Valid() && Copies(held, machine, events).IsMatching(other)
      ensures var o := MergeSession(Some(held), machine, events);
        |MatchedEvents(other)| <= o.duplicateCount + o.skewDroppedCount
    {
      var p := Copies(held, machine, events);
      CopiesRefine(held, machine, events);
      p.RunIsMaximum(other);
      FlagsCountMatches(p.Run());
    }

    /** The events of some sessions. */
    function CountIn(events: seq<E>, sessions: seq<string>): nat {
      if sessions == [] then 0
      else CountIn(events, sessions[..|sessions| - 1]) + |SessionEvents(events, sessions[|sessions| - 1])|
    }

    lemma {:induction false} CountInStep(events: seq<E>, e: E, sessions: seq<string>)
      requires forall a, b :: 0 <= a < b < |sessions| ==> sessions[a] != sessions[b]
      ensures CountIn(events + [e], sessions) == CountIn(events, sessions) + (if session(e) in sessions then 1 else 0)
    {
      assert (events + [e])[..|events|] == events;
      if sessions != [] {
        CountInStep(events, e, sessions[..|sessions| - 1]);
      }
    }

    /** The sessions of a list hold each of its events once. */
    lemma {:induction false} SessionsPartition(events: seq<E>)
      ensures CountIn(events, Sessions(events)) == |events|
    {
      if events != [] {
        var n := |events| - 1;
        var before := Sessions(events[..n]);
        SessionsPartition(events[..n]);
        assert events == events[..n] + [events[n]];
        SessionsDistinct(events[..n]);
        CountInStep(events[..n], events[n], before);
        if session(events[n]) !in before {
          assert Sessions(events)[..|before|] == before;
        }
      }
    }

    /** Each outcome accounts for the events of its session. */
    ghost predicate Accounted(events: seq<E>, order: seq<string>, outcomes: seq<Outcome<E>>)
    {
      |order| == |outcomes| && forall n :: 0 <= n < |outcomes| ==>
        |outcomes[n].kept| + outcomes[n].duplicateCount + outcomes[n].skewDroppedCount == |SessionEvents(events, order[n])|
    }

    lemma {:induction false} TotalCounts(name: string, events: seq<E>, order: seq<string>, outcomes: seq<Outcome<E>>)
      requires Accounted(events, order, outcomes)
      ensures var m := Total(name, outcomes);
        |m.events| + m.duplicateCount + m.skewDroppedCount == CountIn(events, order)
    {
      if outcomes != [] { TotalCounts(name, events, order[..|order| - 1], outcomes[..|order| - 1]); }
    }

    /** Every event of a machine is counted, a duplicate, or dropped under skew. */
    lemma EveryEventIsCounted(served: seq<E>, machines: seq<Machine<E>>, n: nat)
      requires n < |machines|
      ensures var m := Results(served, machines)[n];
        |m.events| + m.duplicateCount + m.skewDroppedCount == |machines[n].events|
    {
      var events := machines[n].events;
      var order := Sessions(events);
      forall k | 0 <= k < |order| {
        OutcomeCounts(HeldAfter(served, machines, n, order[k]), machines[n].server, SessionEvents(events, order[k]));
      }
      TotalCounts(machines[n].server.name, events, order, Outcomes(served, machines, n));
      SessionsPartition(events);
    }

    lemma {:induction false} SessionEventsConcat(xs: seq<E>, ys: seq<E>, key: string)
      ensures SessionEvents(xs + ys, key) == SessionEvents(xs, key) + SessionEvents(ys, key)
    {
      if ys == [] {
        assert xs + ys == xs;
      } else {
        var n := |ys| - 1;
        assert (xs + ys)[..|xs| + n] == xs + ys[..n];
        SessionEventsConcat(xs, ys[..n], key);
      }
    }

    lemma {:induction false} SessionEventsOfOne(xs: seq<E>, key: string, asked: string)
      requires AllOf(xs, key)
      ensures SessionEvents(xs, asked) == if asked == key then xs else []
    {
      if xs != [] {
        assert xs[|xs| - 1] in xs;
        SessionEventsOfOne(xs[..|xs| - 1], key, asked);
      }
    }

    /** Each outcome keeps events of its own session only. */
    ghost predicate KeepsOwn(order: seq<string>, outcomes: seq<Outcome<E>>) {
      && |order| == |outcomes|
      && (forall a, b :: 0 <= a < b < |order| ==> order[a] != order[b])
      && forall n :: 0 <= n < |outcomes| ==> AllOf(outcomes[n].kept, order[n])
    }

    ghost predicate AllOf(events: seq<E>, key: string) {
      forall x :: x in events ==> session(x) == key
    }

    /** What the outcome of session `key` keeps, if there is one. */
    function KeptFor(order: seq<string>, outcomes: seq<Outcome<E>>, key: string): seq<E>
      requires |order| == |outcomes|
    {
      if order == [] then []
      else
        var last := |order| - 1;
        if order[last] == key then outcomes[last].kept else KeptFor(order[..last], outcomes[..last], key)
    }

    lemma {:induction false} KeptForAt(order: seq<string>, outcomes: seq<Outcome<E>>, n: nat)
      requires KeepsOwn(order, outcomes) && n < |order|
      ensures KeptFor(order, outcomes, order[n]) == outcomes[n].kept
    {
      var last := |order| - 1;
      if n < last { KeptForAt(order[..last], outcomes[..last], n); }
    }

    lemma {:induction false} KeptForNone(order: seq<string>, outcomes: seq<Outcome<E>>, key: string)
      requires |order| == |outcomes| && key !in order
      ensures KeptFor(order, outcomes, key) == []
    {
      if order != [] { KeptForNone(order[..|order| - 1], outcomes[..|order| - 1], key); }
    }

    lemma {:induction false} TotalOfSession(name: string, order: seq<string>, outcomes: seq<Outcome<E>>, key: string)
      requires KeepsOwn(order, outcomes)
      ensures SessionEvents(Total(name, outcomes).events, key) == KeptFor(order, outcomes, key)
    {
      if outcomes != [] {
        var last := |outcomes| - 1;
        TotalOfSession(name, order[..last], outcomes[..last], key);
        SessionEventsConcat(Total(name, outcomes[..last]).events, outcomes[last].kept, key);
        SessionEventsOfOne(outcomes[last].kept, order[last], key);
        if key == order[last] { KeptForNone(order[..last], outcomes[..last], key); }
      }
    }

    lemma KeptAreOfSession(held: Option<Held<E>>, machine: Machine<E>, key: string)
      requires key in Sessions(machine.events)
      ensures AllOf(MergeSession(held, machine.server, SessionEvents(machine.events, key)).kept, key)
    {
      SessionEventsBelong(machine.events, key);
    }

    lemma OutcomesKeepOwn(served: seq<E>, machines: seq<Machine<E>>, n: nat)
      requires n < |machines|
      ensures KeepsOwn(Sessions(machines[n].events), Outcomes(served, machines, n))
    {
      var order := Sessions(machines[n].events);
      SessionsDistinct(machines[n].events);
      forall k | 0 <= k < |order| ensures AllOf(Outcomes(served, machines, n)[k].kept, order[k]) {
        KeptAreOfSession(HeldAfter(served, machines, n, order[k]), machines[n], order[k]);
      }
    }

    /** What a result holds of a session is what merging that session kept. */
    lemma ResultOfSession(served: seq<E>, machines: seq<Machine<E>>, n: nat, key: string)
      requires n < |machines| && key in Sessions(machines[n].events)
      ensures SessionEvents(Results(served, machines)[n].events, key) == SessionOutcome(served, machines, n, key).kept
    {
      var order := Sessions(machines[n].events);
      var outcomes := Outcomes(served, machines, n);
      OutcomesKeepOwn(served, machines, n);
      TotalOfSession(machines[n].server.name, order, outcomes, key);
      var at :| 0 <= at < |order| && order[at] == key;
      KeptForAt(order, outcomes, at);
    }

    /** The kept events of a session are its unmatched ones, in the machine's order; a new session's are all. */
    lemma KeptInMachineOrder(served: seq<E>, machines: seq<Machine<E>>, n: nat, key: string)
      requires n < |machines| && key in Sessions(machines[n].events)
      ensures
        var held := HeldAfter(served, machines, n, key);
        var events := SessionEvents(machines[n].events, key);
        SessionEvents(Results(served, machines)[n].events, key) ==
          if held.Some? then Unflagged(events, Flags(Copies(held.value, machines[n].server, events).Run())) else events
    {
      ResultOfSession(served, machines, n, key);
    }
  }

  lemma {:induction false} NothingKept<E>(name: string, outcomes: seq<Outcome<E>>)
    requires forall n :: 0 <= n < |outcomes| ==> outcomes[n].kept == []
    ensures Total(name, outcomes).events == []
  {
    if outcomes != [] { NothingKept(name, outcomes[..|outcomes| - 1]); }
  }

  lemma {:induction false} UnflaggedCount<E>(xs: seq<E>, flags: seq<bool>)
    requires |xs| == |flags|
    ensures |Unflagged(xs, flags)| + CountFlags(flags) == |xs|
  {
    if xs != [] { UnflaggedCount(xs[..|xs| - 1], flags[..|xs| - 1]); }
  }

  /** Where the kept elements stood, in order. */
  lemma {:induction false} UnflaggedIndexes<E>(xs: seq<E>, flags: seq<bool>) returns (at: seq<nat>)
    requires |xs| == |flags|
    ensures |at| == |Unflagged(xs, flags)|
    ensures forall i :: 0 <= i < |at| ==> at[i] < |xs| && !flags[at[i]] && Unflagged(xs, flags)[i] == xs[at[i]]
    ensures forall i, j :: 0 <= i < j < |at| ==> at[i] < at[j]
  {
    if xs == [] {
      at := [];
    } else {
      var n := |xs| - 1;
      at := UnflaggedIndexes(xs[..n], flags[..n]);
      if !flags[n] { at := at + [n]; }
    }
  }

  lemma {:induction false} FlagsCountMatches(mates: Mates)
    ensures CountFlags(Flags(mates)) == |MatchedEvents(mates)|
  {
    if mates == [] {
      assert MatchedEvents(mates) == {};
    } else {
      var n := |mates| - 1;
      FlagsCountMatches(mates[..n]);
      assert Flags(mates)[..n] == Flags(mates[..n]);
      assert MatchedEvents(mates) == MatchedEvents(mates[..n]) + (if mates[n].Some? then {n} else {});
    }
  }

  lemma {:induction false} AllFlagged<E>(xs: seq<E>, flags: seq<bool>)
    requires |xs| == |flags| && forall i :: 0 <= i < |flags| ==> flags[i]
    ensures Unflagged(xs, flags) == []
  {
    if xs != [] { AllFlagged(xs[..|xs| - 1], flags[..|xs| - 1]); }
  }

  /** How many of the first `n` events are unmatched. */
  function FreeBefore(run: Mates, n: nat): nat
    requires n <= |run|
  {
    if n == 0 then 0 else FreeBefore(run, n - 1) + (if run[n - 1].None? then 1 else 0)
  }

  /** Each event's copy once the unmatched ones are appended after `count` served events. */
  function Placed(run: Mates, count: nat): (r: Mates)
    ensures |r| == |run|
  {
    seq(|run|, i requires 0 <= i < |run| => if run[i].Some? then run[i] else Some(count + FreeBefore(run, i)))
  }

  lemma {:induction false} PlacedAt<E>(events: seq<E>, run: Mates, count: nat, i: nat)
    requires i < |events| == |run|
    ensures run[i].None? ==>
      FreeBefore(run, i) < |Unflagged(events, Flags(run))| && Unflagged(events, Flags(run))[FreeBefore(run, i)] == events[i]
  {
    PlacedPrefix(events, run, |run|, i);
    assert events[..|run|] == events && Flags(run)[..|run|] == Flags(run);
  }

  lemma {:induction false} PlacedPrefix<E>(events: seq<E>, run: Mates, n: nat, i: nat)
    requires n <= |events| == |run|
    ensures var kept := Unflagged(events[..n], Flags(run)[..n]);
      && |kept| == FreeBefore(run, n)
      && (i < n && run[i].None? ==> FreeBefore(run, i) < |kept| && kept[FreeBefore(run, i)] == events[i])
  {
    if n > 0 {
      PlacedPrefix(events, run, n - 1, i);
      assert events[..n][..n - 1] == events[..n - 1];
      assert Flags(run)[..n][..n - 1] == Flags(run)[..n - 1];
    }
  }

  lemma {:induction false} PlacedApart(run: Mates, i: nat, j: nat)
    requires i < j < |run| && run[i].None? && run[j].None?
    ensures FreeBefore(run, i) < FreeBefore(run, j)
  {
    if j > i + 1 {
      FreeBeforeGrows(run, i + 1, j);
    }
  }

  lemma {:induction false} FreeBeforeGrows(run: Mates, i: nat, j: nat)
    requires i <= j <= |run|
    ensures FreeBefore(run, i) <= FreeBefore(run, j)
    decreases j
  {
    if i < j { FreeBeforeGrows(run, i, j - 1); }
  }

  // ----- the merge as the source runs it

  /** The sessions of `events` in order, and the events of each. */
  ghost predicate Groups<E(!new)>(m: Merge<E>, events: seq<E>, order: seq<string>, groups: map<string, seq<E>>) {
    && order == m.Sessions(events)
    && (forall key :: key in groups <==> key in order)
    && (forall key :: key in groups ==> groups[key] == m.SessionEvents(events, key))
  }

  function WithEvent<E>(groups: map<string, seq<E>>, key: string, event: E): map<string, seq<E>> {
    groups[key := (if key in groups then groups[key] else []) + [event]]
  }

  lemma GroupsStep<E(!new)>(m: Merge<E>, events: seq<E>, order: seq<string>, groups: map<string, seq<E>>)
    requires events != [] && Groups(m, events[..|events| - 1], order, groups)
    ensures var event := events[|events| - 1];
      var key := m.session(event);
      Groups(m, events, if key in groups then order else order + [key], WithEvent(groups, key, event))
  {
    var before := events[..|events| - 1];
    var next := WithEvent(groups, m.session(events[|events| - 1]), events[|events| - 1]);
    forall k | k in next ensures next[k] == m.SessionEvents(events, k) {
      if k !in groups { assert m.SessionEvents(before, k) == []; }
    }
  }

  method GroupBySession<E(!new)>(m: Merge<E>, events: seq<E>) returns (order: seq<string>, groups: map<string, seq<E>>)
    ensures Groups(m, events, order, groups)
  {
    order, groups := [], map[];
    ghost var done: seq<E> := [];
    for i := 0 to |events|
      invariant done == events[..i] && Groups(m, done, order, groups)
    {
      ghost var more := events[..i + 1];
      assert more[..|more| - 1] == done;
      GroupsStep(m, more, order, groups);
      var key := m.session(events[i]);
      if key !in groups { order := order + [key]; }
      groups, done := WithEvent(groups, key, events[i]), more;
    }
    assert done == events;
  }

  /** The session the two maps hold; one no machine served first is this machine's. */
  function HeldIn<E(!new)>(m: Merge<E>, served: map<string, seq<E>>, servers: map<string, Server>, key: string): Option<Held<E>> {
    if key in served then Some(Held(served[key], if key in servers then servers[key] else m.local)) else None
  }

  /** The maps hold every session as the first `n` machines left it. */
  ghost predicate HoldsAfter<E(!new)>(m: Merge<E>, served: map<string, seq<E>>, servers: map<string, Server>,
                                     servedEvents: seq<E>, machines: seq<Machine<E>>, n: nat)
    requires n <= |machines|
  {
    forall key :: HeldIn(m, served, servers, key) == m.HeldAfter(servedEvents, machines, n, key)
  }

  /** What each of the machine's sessions comes to, given the sessions the maps hold. */
  ghost predicate AreOutcomes<E(!new)>(m: Merge<E>, served: map<string, seq<E>>, servers: map<string, Server>,
                                      machine: Machine<E>, outcomes: seq<Outcome<E>>)
  {
    var order := m.Sessions(machine.events);
    && |outcomes| == |order|
    && forall k :: 0 <= k < |outcomes| ==>
         outcomes[k] == m.MergeSession(HeldIn(m, served, servers, order[k]), machine.server,
                                       m.SessionEvents(machine.events, order[k]))
  }

  /** `served'` and `servers'` hold what `served` and `servers` hold with the machine merged in. */
  ghost predicate Absorbs<E(!new)>(m: Merge<E>, served: map<string, seq<E>>, servers: map<string, Server>,
                                  machine: Machine<E>, served': map<string, seq<E>>, servers': map<string, Server>)
  {
    forall key :: HeldIn(m, served', servers', key) == m.HeldAfterMachine(HeldIn(m, served, servers, key), machine, key)
  }

  lemma MachineAbsorbed<E(!new)>(m: Merge<E>, served: map<string, seq<E>>, servers: map<string, Server>,
      servedEvents: seq<E>, machines: seq<Machine<E>>, n: nat, served': map<string, seq<E>>, servers': map<string, Server>)
    requires n < |machines| && HoldsAfter(m, served, servers, servedEvents, machines, n)
    requires Absorbs(m, served, servers, machines[n], served', servers')
    ensures HoldsAfter(m, served', servers', servedEvents, machines, n + 1)
  {
    forall key ensures HeldIn(m, served', servers', key) == m.HeldAfter(servedEvents, machines, n + 1, key) {
      assert HeldIn(m, served, servers, key) == m.HeldAfter(servedEvents, machines, n, key);
      var before := m.HeldAfter(servedEvents, machines, n, key);
      assert m.HeldAfter(servedEvents, machines, n + 1, key) == m.HeldAfterMachine(before, machines[n], key);
    }
  }

  lemma OutcomesAreOutcomes<E(!new)>(m: Merge<E>, served: map<string, seq<E>>, servers: map<string, Server>,
                                    servedEvents: seq<E>, machines: seq<Machine<E>>, n: nat)
    requires n < |machines| && HoldsAfter(m, served, servers, servedEvents, machines, n)
    ensures AreOutcomes(m, served, servers, machines[n], m.Outcomes(servedEvents, machines, n))
  {
  }

  method MergeByKeys<E(!new)>(m: Merge<E>, servedEvents: seq<E>, machines: seq<Machine<E>>) returns (merged: seq<Merged<E>>)
    requires m.TurnsRefine()
    ensures merged == m.Results(servedEvents, machines)
  {
    var order, servedBySession := GroupBySession(m, servedEvents);
    var serverBySession: map<string, Server> := map[];
    ghost var expected := m.Results(servedEvents, machines);
    merged := [];
    for n := 0 to |machines|
      invariant merged == expected[..n]
      invariant HoldsAfter(m, servedBySession, serverBySession, servedEvents, machines, n)
    {
      OutcomesAreOutcomes(m, servedBySession, serverBySession, servedEvents, machines, n);
      ghost var served, servers := servedBySession, serverBySession;
      var result;
      servedBySession, serverBySession, result :=
        MergeOneMachine(m, machines[n], servedBySession, serverBySession, m.Outcomes(servedEvents, machines, n));
      MachineAbsorbed(m, served, servers, servedEvents, machines, n, servedBySession, serverBySession);
      PrefixGrows(expected, n);
      merged := merged + [result];
    }
  }

  /** The sessions of one machine, in the order they first appear. */
  method MergeOneMachine<E(!new)>(m: Merge<E>, machine: Machine<E>, servedBySession: map<string, seq<E>>,
      serverBySession: map<string, Server>, ghost outcomes: seq<Outcome<E>>)
    returns (servedBySession': map<string, seq<E>>, serverBySession': map<string, Server>, result: Merged<E>)
    requires m.TurnsRefine()
    requires AreOutcomes(m, servedBySession, serverBySession, machine, outcomes)
    ensures Absorbs(m, servedBySession, serverBySession, machine, servedBySession', serverBySession')
    ensures result == Total(machine.server.name, outcomes)
  {
    var order, groups := GroupBySession(m, machine.events);
    m.SessionsDistinct(machine.events);
    servedBySession', serverBySession' := servedBySession, serverBySession;
    result := Merged(machine.server.name, [], 0, 0);
    for k := 0 to |order|
      invariant result == Total(machine.server.name, outcomes[..k])
      invariant AbsorbsSome(m, servedBySession, serverBySession, machine, order[..k], servedBySession', serverBySession')
    {
      PrefixGrows(order, k);
      servedBySession', serverBySession', result :=
        MergeNextSession(m, machine, k, order[k], groups[order[k]], servedBySession', serverBySession', result,
                         servedBySession, serverBySession, outcomes);
    }
    WholePrefix(outcomes);
    WholePrefix(order);
  }

  /** The machine's session `k`, with the ones before it merged. */
  method MergeNextSession<E(!new)>(m: Merge<E>, machine: Machine<E>, ghost k: nat, key: string, events: seq<E>,
      servedBySession: map<string, seq<E>>, serverBySession: map<string, Server>, result: Merged<E>,
      ghost served: map<string, seq<E>>, ghost servers: map<string, Server>, ghost outcomes: seq<Outcome<E>>)
    returns (servedBySession': map<string, seq<E>>, serverBySession': map<string, Server>, result': Merged<E>)
    requires m.TurnsRefine() && AreOutcomes(m, served, servers, machine, outcomes)
    requires k < |m.Sessions(machine.events)| && key == m.Sessions(machine.events)[k] && key !in m.Sessions(machine.events)[..k]
    requires events == m.SessionEvents(machine.events, key) && events != []
    requires AbsorbsSome(m, served, servers, machine, m.Sessions(machine.events)[..k], servedBySession, serverBySession)
    requires result == Total(machine.server.name, outcomes[..k])
    ensures AbsorbsSome(m, served, servers, machine, m.Sessions(machine.events)[..k] + [key], servedBySession', serverBySession')
    ensures result' == Total(machine.server.name, outcomes[..k + 1])
  {
    PrefixGrows(outcomes, k);
    NextOutcome(m, served, servers, machine, outcomes, m.Sessions(machine.events)[..k], k, servedBySession, serverBySession);
    servedBySession', serverBySession', result' :=
      MergeOneSession(m, machine.server, key, events, servedBySession, serverBySession, result);
    AbsorbOne(m, served, servers, machine, m.Sessions(machine.events)[..k], key, servedBySession, serverBySession, servedBySession', serverBySession');
  }

  /** The machine's sessions of `done` are merged in, and no other. */
  ghost predicate AbsorbsSome<E(!new)>(m: Merge<E>, served: map<string, seq<E>>, servers: map<string, Server>, machine: Machine<E>,
                                      done: seq<string>, served': map<string, seq<E>>, servers': map<string, Server>)
  {
    forall key :: HeldIn(m, served', servers', key) ==
                  if key in done then m.HeldAfterMachine(HeldIn(m, served, servers, key), machine, key) else HeldIn(m, served, servers, key)
  }

  /** The next session is still held as before this machine, and its outcome is the expected one. */
  lemma NextOutcome<E(!new)>(m: Merge<E>, served: map<string, seq<E>>, servers: map<string, Server>, machine: Machine<E>,
      outcomes: seq<Outcome<E>>, done: seq<string>, k: nat, served': map<string, seq<E>>, servers': map<string, Server>)
    requires AreOutcomes(m, served, servers, machine, outcomes) && k < |m.Sessions(machine.events)|
    requires AbsorbsSome(m, served, servers, machine, done, served', servers') && m.Sessions(machine.events)[k] !in done
    ensures var key := m.Sessions(machine.events)[k];
      && HeldIn(m, served', servers', key) == HeldIn(m, served, servers, key)
      && outcomes[k] == m.MergeSession(HeldIn(m, served', servers', key), machine.server, m.SessionEvents(machine.events, key))
  {
    assert HeldIn(m, served', servers', m.Sessions(machine.events)[k]) == HeldIn(m, served, servers, m.Sessions(machine.events)[k]);
  }

  lemma AbsorbOne<E(!new)>(m: Merge<E>, served: map<string, seq<E>>, servers: map<string, Server>, machine: Machine<E>, done: seq<string>, key: string,
      served': map<string, seq<E>>, servers': map<string, Server>, served'': map<string, seq<E>>, servers'': map<string, Server>)
    requires AbsorbsSome(m, served, servers, machine, done, served', servers') && key !in done
    requires HeldIn(m, served'', servers'', key) == m.HeldAfterMachine(HeldIn(m, served, servers, key), machine, key)
    requires forall other :: other != key ==> HeldIn(m, served'', servers'', other) == HeldIn(m, served', servers', other)
    ensures AbsorbsSome(m, served, servers, machine, done + [key], served'', servers'')
  {
    forall other ensures HeldIn(m, served'', servers'', other) ==
      if other in done + [key] then m.HeldAfterMachine(HeldIn(m, served, servers, other), machine, other) else HeldIn(m, served, servers, other)
    {
      if other != key { assert HeldIn(m, served'', servers'', other) == HeldIn(m, served', servers', other); }
    }
  }

  lemma PrefixGrows<T>(xs: seq<T>, k: nat)
    requires k < |xs|
    ensures xs[..k + 1] == xs[..k] + [xs[k]] && xs[..k + 1][..k] == xs[..k]
    ensures (forall a, b :: 0 <= a < b < |xs| ==> xs[a] != xs[b]) ==> xs[k] !in xs[..k]
  {
  }

  lemma WholePrefix<T>(xs: seq<T>)
    ensures xs[..|xs|] == xs
  {
  }

  /** One session of one machine: new, or matched against what was served before this machine. */
  method MergeOneSession<E(!new)>(m: Merge<E>, machine: Server, key: string, events: seq<E>,
      servedBySession: map<string, seq<E>>, serverBySession: map<string, Server>, result: Merged<E>)
    returns (servedBySession': map<string, seq<E>>, serverBySession': map<string, Server>, result': Merged<E>)
    requires m.TurnsRefine() && events != []
    ensures var o := m.MergeSession(HeldIn(m, servedBySession, serverBySession, key), machine, events);
      && HeldIn(m, servedBySession', serverBySession', key) == Some(o.held)
      && result' == Merged(result.name, result.events + o.kept, result.duplicateCount + o.duplicateCount,
                           result.skewDroppedCount + o.skewDroppedCount)
    ensures forall other :: other != key ==>
      HeldIn(m, servedBySession', serverBySession', other) == HeldIn(m, servedBySession, serverBySession, other)
  {
    if key !in servedBySession {
      servedBySession', serverBySession' := servedBySession[key := events], serverBySession[key := machine];
      result' := result.(events := result.events + events);
      return;
    }
    var server := if key in serverBySession then serverBySession[key] else m.local;
    var served, kept, copies := MergeHeldSession(m, machine, events, servedBySession[key], server);
    var skewed := IsSkewed(m.source(events[0]), machine, server);
    servedBySession', serverBySession' := servedBySession[key := served], serverBySession;
    result' := Merged(result.name, result.events + kept, result.duplicateCount + (if skewed then 0 else copies),
                      result.skewDroppedCount + (if skewed then copies else 0));
  }

  /** A session already served: its unmatched events are kept, the others counted as copies. */
  method MergeHeldSession<E(!new)>(m: Merge<E>, machine: Server, events: seq<E>, served: seq<E>, server: Server)
    returns (served': seq<E>, kept: seq<E>, copies: nat)
    requires m.TurnsRefine() && events != []
    ensures var skewed := IsSkewed(m.source(events[0]), machine, server);
      m.MergeSession(Some(Held(served, server)), machine, events) ==
        Outcome(Held(served', server), kept, if skewed then 0 else copies, if skewed then copies else 0)
  {
    var skewed := IsSkewed(m.source(events[0]), machine, server);
    m.CopiesRefine(Held(served, server), machine, events);
    var matched := MatchCopies(Problem(events, served, if skewed then m.turns else [m.hash], m.requestKey));
    kept, served', copies := KeepUnmatched(events, matched, served);
  }

  method KeepUnmatched<E>(events: seq<E>, matched: array<bool>, served: seq<E>) returns (kept: seq<E>, served': seq<E>, copies: nat)
    requires matched.Length == |events|
    ensures kept == Unflagged(events, matched[..]) && served' == served + kept && copies == CountFlags(matched[..])
  {
    kept, served', copies := [], served, 0;
    for i := 0 to |events|
      invariant kept == Unflagged(events[..i], matched[..i]) && served' == served + kept
      invariant copies == CountFlags(matched[..i])
    {
      assert events[..i + 1][..i] == events[..i] && matched[..i + 1][..i] == matched[..i];
      if !matched[i] {
        kept, served' := kept + [events[i]], served' + [events[i]];
      } else {
        copies := copies + 1;
      }
    }
    assert events[..|events|] == events && matched[..|events|] == matched[..];
  }
}
