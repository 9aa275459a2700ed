/**
 The order of what a machine adds (src/machines/merge-machine-events.ts, `groupBySession` and the
 loop over it in `mergeByKeys`): one session after the other, as they start among its events.
 */
module SessionOrder {
  import opened MachineMerge

  ghost predicate HasEvent<E(!new)>(m: Merge<E>, events: seq<E>, key: string) {
    exists i :: 0 <= i < |events| && m.session(events[i]) == key
  }

  lemma HasOneMore<E(!new)>(m: Merge<E>, events: seq<E>, key: string)
    requires events != []
    ensures HasEvent(m, events, key) <==> HasEvent(m, events[..|events| - 1], key) || m.session(events[|events| - 1]) == key
  {
    var last := |events| - 1;
    if HasEvent(m, events[..last], key) {
      var i :| 0 <= i < last && m.session(events[..last][i]) == key;
      assert m.session(events[i]) == key;
    }
    if HasEvent(m, events, key) {
      var i :| 0 <= i < |events| && m.session(events[i]) == key;
      if i < last { assert m.session(events[..last][i]) == key; }
    }
  }

  lemma {:induction false} SessionsAreOfEvents<E(!new)>(m: Merge<E>, events: seq<E>, key: string)
    ensures key in m.Sessions(events) <==> HasEvent(m, events, key)
  {
    if events != [] {
      HasOneMore(m, events, key);
      SessionsAreOfEvents(m, events[..|events| - 1], key);
    }
  }

  /** An event of session `a` comes before every event of session `b`. */
  ghost predicate StartsBefore<E(!new)>(m: Merge<E>, events: seq<E>, a: string, b: string) {
    exists i :: 0 <= i < |events| && m.session(events[i]) == a && forall j :: 0 <= j <= i ==> m.session(events[j]) != b
  }

  lemma StartsBeforeGrows<E(!new)>(m: Merge<E>, events: seq<E>, a: string, b: string, n: nat)
    requires n <= |events| && StartsBefore(m, events[..n], a, b)
    ensures StartsBefore(m, events, a, b)
  {
    var i :| 0 <= i < n && m.session(events[..n][i]) == a && forall j :: 0 <= j <= i ==> m.session(events[..n][j]) != b;
    assert forall j :: 0 <= j <= i ==> events[..n][j] == events[j];
  }

  lemma NewSessionStartsLast<E(!new)>(m: Merge<E>, events: seq<E>, a: string, b: string)
    requires a in m.Sessions(events) && b !in m.Sessions(events)
    ensures StartsBefore(m, events, a, b)
  {
    SessionsAreOfEvents(m, events, a);
    SessionsAreOfEvents(m, events, b);
  }

  lemma {:induction false} SessionsStartInOrder<E(!new)>(m: Merge<E>, events: seq<E>, a: nat, b: nat)
    requires a < b < |m.Sessions(events)|
    ensures StartsBefore(m, events, m.Sessions(events)[a], m.Sessions(events)[b])
  {
    var order, last := m.Sessions(events), |events| - 1;
    if b < |m.Sessions(events[..last])| {
      SessionsStartInOrder(m, events[..last], a, b);
    } else {
      NewSessionStartsLast(m, events[..last], order[a], order[b]);
    }
    StartsBeforeGrows(m, events, order[a], order[b], last);
  }

  lemma {:induction false} TotalFollowsOrder<E(!new)>(m: Merge<E>, name: string, order: seq<string>, outcomes: seq<Outcome<E>>, p: nat, q: nat)
    returns (a: nat, b: nat)
    requires m.KeepsOwn(order, outcomes) && p <= q < |Total(name, outcomes).events|
    ensures var events := Total(name, outcomes).events;
      a <= b < |order| && m.session(events[p]) == order[a] && m.session(events[q]) == order[b]
  {
    var last := |outcomes| - 1;
    var before := Total(name, outcomes[..last]).events;
    a, b := last, last;
    if p < |before| {
      a, b := TotalFollowsOrder(m, name, order[..last], outcomes[..last], p, if q < |before| then q else p);
      if q >= |before| { b := last; }
    }
  }

  lemma TotalFollowsStarts<E(!new)>(m: Merge<E>, name: string, events: seq<E>, outcomes: seq<Outcome<E>>, p: nat, q: nat)
    requires m.KeepsOwn(m.Sessions(events), outcomes) && p < q < |Total(name, outcomes).events|
    ensures var total := Total(name, outcomes).events;
      m.session(total[p]) != m.session(total[q]) ==> StartsBefore(m, events, m.session(total[p]), m.session(total[q]))
  {
    var a, b := TotalFollowsOrder(m, name, m.Sessions(events), outcomes, p, q);
    if a < b { SessionsStartInOrder(m, events, a, b); }
  }

  /**
     A result is named after its machine, and holds one session after the other, in the order in
     which the sessions start among the machine's events.
   */
  lemma ResultsFollowSessionStarts<E(!new)>(m: Merge<E>, served: seq<E>, machines: seq<Machine<E>>, n: nat, p: nat, q: nat)
    requires n < |machines| && p < q < |m.Results(served, machines)[n].events|
    ensures var result := m.Results(served, machines)[n];
      && result.name == machines[n].server.name
      && (m.session(result.events[p]) != m.session(result.events[q]) ==>
            StartsBefore(m, machines[n].events, m.session(result.events[p]), m.session(result.events[q])))
  {
    m.OutcomesKeepOwn(served, machines, n);
    TotalFollowsStarts(m, machines[n].server.name, machines[n].events, m.Outcomes(served, machines, n), p, q);
  }
}
