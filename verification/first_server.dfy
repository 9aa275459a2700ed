/**
 Who served a session first, and what that decides (src/machines/merge-machine-events.ts,
 `mergeByKeys`, `findSkew`), in terms of the lists that are merged and the results alone.
 */
module FirstServer {
  import opened Common
  import opened CopyMatching
  import opened MachineMerge

  ghost predicate Lists<E(!new)>(m: Merge<E>, machines: seq<Machine<E>>, n: nat, key: string)
    requires n < |machines|
  {
    m.SessionEvents(machines[n].events, key) != []
  }

  /** Machine `n` is the first to list the session. */
  ghost predicate ListsFirst<E(!new)>(m: Merge<E>, machines: seq<Machine<E>>, n: nat, key: string)
    requires n < |machines|
  {
    Lists(m, machines, n, key) && forall l :: 0 <= l < n ==> !Lists(m, machines, l, key)
  }

  /** Before machine `n`, the session was first served here, or else by the first machine that lists it. */
  ghost predicate ServedFirstBy<E(!new)>(m: Merge<E>, served: seq<E>, machines: seq<Machine<E>>, n: nat, key: string, server: Server)
    requires n <= |machines|
  {
    if m.SessionEvents(served, key) != [] then server == m.local
    else exists first :: 0 <= first < n && ListsFirst(m, machines, first, key) && server == machines[first].server
  }

  ghost predicate ServedBefore<E(!new)>(m: Merge<E>, served: seq<E>, machines: seq<Machine<E>>, n: nat, key: string)
    requires n <= |machines|
  {
    m.SessionEvents(served, key) != [] || exists l :: 0 <= l < n && Lists(m, machines, l, key)
  }

  /** The session is held once someone has served it, and its server is whoever did so first. */
  lemma {:induction false} HeldByFirstServer<E(!new)>(m: Merge<E>, served: seq<E>, machines: seq<Machine<E>>, n: nat, key: string)
    requires n <= |machines|
    ensures var held := m.HeldAfter(served, machines, n, key);
      && (held.Some? <==> ServedBefore(m, served, machines, n, key))
      && (held.Some? ==> ServedFirstBy(m, served, machines, n, key, held.value.server))
    decreases n
  {
    if n > 0 {
      HeldByFirstServer(m, served, machines, n - 1, key);
      var before, after := m.HeldAfter(served, machines, n - 1, key), m.HeldAfter(served, machines, n, key);
      NextMachineServes(m, served, machines, n - 1, key, before, after);
    }
  }

  lemma NextMachineServes<E(!new)>(m: Merge<E>, served: seq<E>, machines: seq<Machine<E>>, n: nat, key: string,
                                   before: Option<Held<E>>, after: Option<Held<E>>)
    requires n < |machines| && after == m.HeldAfterMachine(before, machines[n], key)
    requires before.Some? <==> ServedBefore(m, served, machines, n, key)
    requires before.Some? ==> ServedFirstBy(m, served, machines, n, key, before.value.server)
    ensures after.Some? <==> ServedBefore(m, served, machines, n + 1, key)
    ensures after.Some? ==> ServedFirstBy(m, served, machines, n + 1, key, after.value.server)
  {
    if before.None? && Lists(m, machines, n, key) {
      assert ListsFirst(m, machines, n, key);
    }
  }

  /** Both sides recorded one equal parser version of the source. */
  predicate RecordEqual(a: Server, b: Server, source: string) {
    && a.parserVersions.Some? && b.parserVersions.Some?
    && source in a.parserVersions.value && source in b.parserVersions.value
    && a.parserVersions.value[source] == b.parserVersions.value[source]
  }

  /** Machine `n` and whoever served the session first parse its source alike. */
  ghost predicate ParsedAlike<E(!new)>(m: Merge<E>, served: seq<E>, machines: seq<Machine<E>>, n: nat, key: string)
    requires n < |machines| && Lists(m, machines, n, key)
  {
    exists server :: ServedFirstBy(m, served, machines, n, key, server)
      && RecordEqual(machines[n].server, server, m.source(m.SessionEvents(machines[n].events, key)[0]))
  }

  /** The machine's events of the session that its result leaves out. */
  ghost function LeftOut<E(!new)>(m: Merge<E>, served: seq<E>, machines: seq<Machine<E>>, n: nat, key: string): int
    requires n < |machines|
  {
    |m.SessionEvents(machines[n].events, key)| - |m.SessionEvents(m.Results(served, machines)[n].events, key)|
  }

  /** What is left out of the sessions that are parsed alike, or of the others. */
  ghost function LeftOutOf<E(!new)>(m: Merge<E>, served: seq<E>, machines: seq<Machine<E>>, n: nat, sessions: seq<string>, alike: bool): int
    requires n < |machines| && forall key :: key in sessions ==> Lists(m, machines, n, key)
  {
    if sessions == [] then 0
    else
      var last := |sessions| - 1;
      LeftOutOf(m, served, machines, n, sessions[..last], alike) +
      (if ParsedAlike(m, served, machines, n, sessions[last]) == alike then LeftOut(m, served, machines, n, sessions[last]) else 0)
  }

  lemma OneServer<E(!new)>(m: Merge<E>, served: seq<E>, machines: seq<Machine<E>>, n: nat, key: string, a: Server, b: Server)
    requires n <= |machines| && ServedFirstBy(m, served, machines, n, key, a) && ServedFirstBy(m, served, machines, n, key, b)
    ensures a == b
  {
    if m.SessionEvents(served, key) == [] {
      var i :| 0 <= i < n && ListsFirst(m, machines, i, key) && a == machines[i].server;
      var j :| 0 <= j < n && ListsFirst(m, machines, j, key) && b == machines[j].server;
    }
  }

  lemma AlikeIsNotSkewed<E(!new)>(m: Merge<E>, served: seq<E>, machines: seq<Machine<E>>, n: nat, key: string)
    requires n < |machines| && Lists(m, machines, n, key)
    ensures var held := m.HeldAfter(served, machines, n, key);
      ParsedAlike(m, served, machines, n, key) <==>
        held.Some? && !IsSkewed(m.source(m.SessionEvents(machines[n].events, key)[0]), machines[n].server, held.value.server)
  {
    var held := m.HeldAfter(served, machines, n, key);
    HeldByFirstServer(m, served, machines, n, key);
    if server :| ServedFirstBy(m, served, machines, n, key, server) {
      assert ServedBefore(m, served, machines, n, key);
      OneServer(m, served, machines, n, key, server, held.value.server);
    }
  }

  /** What is left out of a session, as its outcome counts it. */
  ghost predicate CountsLeftOut<E(!new)>(m: Merge<E>, served: seq<E>, machines: seq<Machine<E>>, n: nat, key: string, o: Outcome<E>)
    requires n < |machines| && Lists(m, machines, n, key)
  {
    if ParsedAlike(m, served, machines, n, key)
    then o.duplicateCount == LeftOut(m, served, machines, n, key) && o.skewDroppedCount == 0
    else o.duplicateCount == 0 && o.skewDroppedCount == LeftOut(m, served, machines, n, key)
  }

  lemma SessionCountsLeftOut<E(!new)>(m: Merge<E>, served: seq<E>, machines: seq<Machine<E>>, n: nat, key: string)
    requires n < |machines| && key in m.Sessions(machines[n].events)
    ensures CountsLeftOut(m, served, machines, n, key, m.SessionOutcome(served, machines, n, key))
  {
    var held := m.HeldAfter(served, machines, n, key);
    AlikeIsNotSkewed(m, served, machines, n, key);
    m.ResultOfSession(served, machines, n, key);
    m.OutcomeCounts(held, machines[n].server, m.SessionEvents(machines[n].events, key));
  }

  lemma {:induction false} TotalCountsLeftOut<E(!new)>(m: Merge<E>, served: seq<E>, machines: seq<Machine<E>>, n: nat, order: seq<string>,
                                                       outcomes: seq<Outcome<E>>)
    requires n < |machines| && |order| == |outcomes|
    requires forall k :: 0 <= k < |order| ==> Lists(m, machines, n, order[k]) && CountsLeftOut(m, served, machines, n, order[k], outcomes[k])
    ensures Total(machines[n].server.name, outcomes).duplicateCount == LeftOutOf(m, served, machines, n, order, true)
    ensures Total(machines[n].server.name, outcomes).skewDroppedCount == LeftOutOf(m, served, machines, n, order, false)
  {
    if order != [] {
      var last := |order| - 1;
      TotalCountsLeftOut(m, served, machines, n, order[..last], outcomes[..last]);
      assert CountsLeftOut(m, served, machines, n, order[last], outcomes[last]);
    }
  }

  /**
     A machine's events that are left out of a session are duplicates exactly when it and the first to
     serve the session both recorded one equal parser version of the source, and else skew drops.
   */
  lemma CopiesAreCountedByFirstServer<E(!new)>(m: Merge<E>, served: seq<E>, machines: seq<Machine<E>>, n: nat)
    requires n < |machines|
    ensures var result, sessions := m.Results(served, machines)[n], m.Sessions(machines[n].events);
      && result.duplicateCount == LeftOutOf(m, served, machines, n, sessions, true)
      && result.skewDroppedCount == LeftOutOf(m, served, machines, n, sessions, false)
  {
    var order := m.Sessions(machines[n].events);
    forall k | 0 <= k < |order| ensures CountsLeftOut(m, served, machines, n, order[k], m.Outcomes(served, machines, n)[k]) {
      SessionCountsLeftOut(m, served, machines, n, order[k]);
    }
    TotalCountsLeftOut(m, served, machines, n, order, m.Outcomes(served, machines, n));
  }

  /** Whether an event was left out for a held one: equal hashes when parsed alike, and else an equal loosest turn key. */
  ghost predicate Agree<E(!new)>(m: Merge<E>, alike: bool, x: E, y: E)
    requires m.TurnsRefine()
  {
    && (if alike then m.hash(x) == m.hash(y) else m.turns[|m.turns| - 1](x) == m.turns[|m.turns| - 1](y))
    && (m.requestKey(x).Some? && m.requestKey(y).Some? ==> m.requestKey(x) == m.requestKey(y))
  }

  /** Each event left out of a session has a held event of its own that agrees; each one kept agrees with no held event left. */
  ghost predicate LeavesOutAgreeing<E(!new)>(m: Merge<E>, alike: bool, events: seq<E>, held: seq<E>, mates: Mates)
    requires m.TurnsRefine()
  {
    && |mates| == |events| && OneToOne(mates)
    && (forall i :: 0 <= i < |mates| && mates[i].Some? ==> mates[i].value < |held| && Agree(m, alike, events[i], held[mates[i].value]))
    && forall i, j :: 0 <= i < |mates| && 0 <= j < |held| && mates[i].None? && Agree(m, alike, events[i], held[j]) ==> j in Taken(mates)
  }

  /** Which key copies are matched under, from the lists alone. */
  lemma CopiesAgree<E(!new)>(m: Merge<E>, served: seq<E>, machines: seq<Machine<E>>, n: nat, key: string) returns (mates: Mates)
    requires m.TurnsRefine() && n < |machines| && Lists(m, machines, n, key) && ServedBefore(m, served, machines, n, key)
    ensures m.HeldAfter(served, machines, n, key).Some?
    ensures var events, held := m.SessionEvents(machines[n].events, key), m.HeldAfter(served, machines, n, key).value.served;
      && LeavesOutAgreeing(m, ParsedAlike(m, served, machines, n, key), events, held, mates)
      && m.SessionEvents(m.Results(served, machines)[n].events, key) == Unflagged(events, Flags(mates))
  {
    HeldByFirstServer(m, served, machines, n, key);
    AlikeIsNotSkewed(m, served, machines, n, key);
    var held, events := m.HeldAfter(served, machines, n, key).value, m.SessionEvents(machines[n].events, key);
    var p := m.Copies(held, machines[n].server, events);
    m.CopiesRefine(held, machines[n].server, events);
    p.RunIsExhaustedMatching();
    mates := p.Run();
    m.KeptInMachineOrder(served, machines, n, key);
    ExhaustedLeavesAgreeing(m, held, machines[n].server, events);
  }

  lemma ExhaustedLeavesAgreeing<E(!new)>(m: Merge<E>, held: Held<E>, machine: Server, events: seq<E>)
    requires m.TurnsRefine() && events != []
    requires m.Copies(held, machine, events).Refining()
    requires m.Copies(held, machine, events).Stage(m.Copies(held, machine, events).Run(), PASSES)
    ensures LeavesOutAgreeing(m, !IsSkewed(m.source(events[0]), machine, held.server), events, held.served, m.Copies(held, machine, events).Run())
  {
    var p := m.Copies(held, machine, events);
    var mates := p.Run();
    var alike := !IsSkewed(m.source(events[0]), machine, held.server);
    forall i | 0 <= i < |mates| && mates[i].Some? ensures mates[i].value < |held.served| && Agree(m, alike, events[i], held.served[mates[i].value]) {
      assert p.Joined(i, mates[i].value);
    }
    forall i, j | 0 <= i < |mates| && 0 <= j < |held.served| && mates[i].None? && Agree(m, alike, events[i], held.served[j])
      ensures j in Taken(mates)
    {
      var owner := p.TakerOf(mates, p.PairRank(i, j), i, j);
    }
  }
}
