/** The key sets of src/machines/merge-machine-events.ts (`USAGE_KEYS`, `SESSION_EVENT_KEYS`). */
module EventKeys {
  import opened Common
  import opened CopyMatching
  import opened MachineMerge
  import opened RequestIds

  /** The fields the keys read; the content hash and the request ids as one key are computed elsewhere. */
  datatype Usage = Usage(
    source: string,
    sessionId: string,
    timestamp: string,
    model: Option<string>,
    contentHash: string,
    requestIds: Option<string>)

  const NUL: char := '\U{0}'

  /** A created event's timestamp is an ISO instant, which holds no NUL. */
  type UsageEvent = e: Usage | NUL !in e.timestamp witness Usage("", "", "", None, "", None)

  function ModelText(e: UsageEvent): string {
    if e.model.Some? then e.model.value else ""
  }

  function ModelTurn(e: UsageEvent): string {
    e.timestamp + [NUL] + ModelText(e)
  }

  function UsageMerge(local: Server): Merge<UsageEvent> {
    Merge((e: UsageEvent) => e.source + [NUL] + e.sessionId, (e: UsageEvent) => e.source,
          (e: UsageEvent) => e.contentHash,
          [(e: UsageEvent) => ModelTurn(e), (e: UsageEvent) => e.timestamp],
          (e: UsageEvent) => e.requestIds, local)
  }

  lemma TextBeforeNul(x: string, y: string, a: string, b: string)
    requires NUL !in x && NUL !in y && x + [NUL] + a == y + [NUL] + b
    ensures x == y
  {
    var whole := x + [NUL] + a;
    assert whole[|x|] == NUL && whole[|y|] == NUL;
    assert forall i :: 0 <= i < |x| ==> whole[i] == x[i];
    assert forall i :: 0 <= i < |y| ==> whole[i] == y[i];
    assert x == whole[..|x|] && y == whole[..|y|];
  }

  /** A usage turn's timestamp and model fix its timestamp, so the two keys go from closer to looser. */
  lemma UsageTurnsRefine(local: Server)
    ensures UsageMerge(local).TurnsRefine()
  {
    var m := UsageMerge(local);
    forall k, x: UsageEvent, y: UsageEvent | 0 <= k < |m.turns| && m.turns[k](x) == m.turns[k](y)
      ensures m.turns[|m.turns| - 1](x) == m.turns[|m.turns| - 1](y)
    {
      if k == 0 { TextBeforeNul(x.timestamp, y.timestamp, ModelText(x), ModelText(y)); }
    }
  }

  datatype SessionEvent = SessionEvent(source: string, sessionId: string, kind: string, timestamp: string, json: string)

  function SessionEventMerge(local: Server): Merge<SessionEvent> {
    Merge((e: SessionEvent) => e.source + [NUL] + e.sessionId, (e: SessionEvent) => e.source,
          (e: SessionEvent) => e.json,
          [(e: SessionEvent) => e.kind + [NUL] + e.timestamp],
          (_: SessionEvent) => None, local)
  }

  lemma SessionEventTurnsRefine(local: Server)
    ensures SessionEventMerge(local).TurnsRefine()
  {
  }

  /**
     Ids alone are kept unique: merging [h without ids, h with ids] into a session that holds
     h without ids once makes it hold h without ids twice.
   */
  lemma EventsWithoutIdsCanRepeat()
    ensures exists held: Held<UsageEvent>, events: seq<UsageEvent> ::
      var m := UsageMerge(held.server);
      && m.SameVersions(held, held.server, events) && m.AllDistinct(held.served) && m.AllDistinct(events)
      && !m.AllDistinct(m.MergeSession(Some(held), held.server, events).held.served)
  {
    var plain: UsageEvent := Usage("claude", "a", "t", None, "h", None);
    var logged: UsageEvent := Usage("claude", "a", "t", None, "h", Some("1"));
    var server := Server("local", Some(map["claude" := "p1"]));
    var held, events := Held([plain], server), [plain, logged];
    var m := UsageMerge(server);
    assert m.SameVersions(held, server, events);
    assert m.Logs(events, "h", Some("1")) by { assert m.requestKey(events[1]) == Some("1"); }
    m.EqualEventWithoutIdsIsKeptIff(held, server, events, 0, 0);
    var flags := Flags(m.Copies(held, server, events).Run());
    assert !flags[0];
    var at := UnflaggedIndexes(events, flags);
    KeepsUnflagged(events, flags, 0);
    var kept := Unflagged(events, flags);
    var i :| 0 <= i < |kept| && kept[i] == plain;
    var all := m.MergeSession(Some(held), server, events).held.served;
    assert all[0] == plain && all[1 + i] == plain;
    assert !m.AllDistinct(all);
  }

  /**
     Ids alone do not make an event a copy: a session that holds request 1 holds it twice once a copy of
     it with another content hash, or under skew with another timestamp, is merged into it.
   */
  lemma EventsWithIdsCanRepeat(skewed: bool)
    ensures exists held: Held<UsageEvent>, machine: Server, events: seq<UsageEvent> ::
      var m := UsageMerge(held.server);
      && events != [] && IsSkewed(events[0].source, machine, held.server) == skewed
      && IdsDistinct(m.requestKey, held.served) && IdsDistinct(m.requestKey, events)
      && !IdsDistinct(m.requestKey, m.MergeSession(Some(held), machine, events).held.served)
  {
    var early: UsageEvent := Usage("claude", "a", "t", None, "h", Some("1"));
    var late: UsageEvent := Usage("claude", "a", "u", None, "i", Some("1"));
    var server := Server("local", Some(map["claude" := "p1"]));
    var machine := Server("other", Some(map["claude" := if skewed then "p2" else "p1"]));
    var held, events := Held([early], server), [late];
    var m := UsageMerge(server);
    UsageTurnsRefine(server);
    assert IsSkewed(events[0].source, machine, held.server) == skewed;
    OtherKeyIsHeldTwice(m, server, machine, early, late);
  }
}
