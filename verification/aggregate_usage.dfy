/**
 Usage rows by period, source, machine and project (src/aggregate/aggregate-usage.ts).

 Costs are exact integers. A row is described by the set of events it counts, so adding rows up,
 folding them or splitting them is shown to lose and repeat no event.
 */
module UsageAggregation {
  import opened Common
  import ProjectLabels

  // ----- totals

  datatype Totals = Totals(
    input: int, output: int, reasoning: int, cacheRead: int, cacheWrite: int, tokens: int, costUsd: Option<int>, costIncomplete: bool)

  const ZERO: Totals := Totals(0, 0, 0, 0, 0, 0, None, false)

  datatype Event = Event(
    source: string, machine: Option<string>, project: Option<string>, model: Option<string>,
    input: int, output: int, reasoning: int, cacheRead: int, cacheWrite: int, tokens: int, costUsd: Option<int>)

  function AddCost(target: Option<int>, source: Option<int>): Option<int> {
    if source.None? then target else Some((if target.None? then 0 else target.value) + source.value)
  }

  function AddTotals(target: Totals, source: Totals): Totals {
    Totals(target.input + source.input, target.output + source.output, target.reasoning + source.reasoning,
           target.cacheRead + source.cacheRead, target.cacheWrite + source.cacheWrite, target.tokens + source.tokens,
           AddCost(target.costUsd, source.costUsd), target.costIncomplete || source.costIncomplete)
  }

  /** An event without a cost makes the cost incomplete and adds none. */
  function AddEventToTotals(target: Totals, e: Event): Totals {
    var added := target.(input := target.input + e.input, output := target.output + e.output, reasoning := target.reasoning + e.reasoning,
                         cacheRead := target.cacheRead + e.cacheRead, cacheWrite := target.cacheWrite + e.cacheWrite,
                         tokens := target.tokens + e.tokens);
    if e.costUsd.None? then added.(costIncomplete := true)
    else added.(costUsd := Some((if target.costUsd.None? then 0 else target.costUsd.value) + e.costUsd.value))
  }

  function Of(e: Event): Totals {
    AddEventToTotals(ZERO, e)
  }

  lemma Adding(a: Totals, b: Totals, c: Totals)
    ensures AddTotals(a, b) == AddTotals(b, a) && AddTotals(AddTotals(a, b), c) == AddTotals(a, AddTotals(b, c)) && AddTotals(a, ZERO) == a
  {
  }

  /** Adding an event is adding its totals. */
  lemma AddingAnEvent(a: Totals, e: Event)
    ensures AddEventToTotals(a, e) == AddTotals(a, Of(e))
  {
  }

  /** Adding is associative and commutative, and `zero` adds nothing. */
  ghost predicate Commutes<T(!new)>(add: (T, T) -> T, zero: T) {
    && (forall a, b, c :: add(add(a, b), c) == add(a, add(b, c)))
    && (forall a, b :: add(a, b) == add(b, a))
    && (forall a :: add(a, zero) == a)
  }

  /** The sum of the chosen items among the first `n`. */
  ghost function Sum<T>(add: (T, T) -> T, zero: T, items: seq<T>, chosen: set<nat>, n: nat): T
    requires n <= |items|
  {
    if n == 0 then zero
    else if n - 1 in chosen then add(Sum(add, zero, items, chosen, n - 1), items[n - 1])
    else Sum(add, zero, items, chosen, n - 1)
  }

  lemma LastTerm<T(!new)>(add: (T, T) -> T, zero: T, x: T, y: T, z: T)
    requires Commutes(add, zero)
    ensures add(add(x, y), z) == add(add(x, z), y) && add(add(x, y), z) == add(x, add(y, z)) && add(zero, x) == x && add(x, zero) == x
  {
    assert add(add(x, y), z) == add(x, add(y, z));
    assert add(add(x, z), y) == add(x, add(z, y));
  }

  lemma {:induction false} SumOfNone<T>(add: (T, T) -> T, zero: T, items: seq<T>, n: nat)
    requires n <= |items|
    ensures Sum(add, zero, items, {}, n) == zero
  {
    if n > 0 { SumOfNone(add, zero, items, n - 1); }
  }

  /** Disjoint choices add up. */
  lemma {:induction false} SumOfUnion<T(!new)>(add: (T, T) -> T, zero: T, items: seq<T>, a: set<nat>, b: set<nat>, n: nat)
    requires Commutes(add, zero) && n <= |items| && a !! b
    ensures Sum(add, zero, items, a + b, n) == add(Sum(add, zero, items, a, n), Sum(add, zero, items, b, n))
  {
    if n > 0 {
      SumOfUnion(add, zero, items, a, b, n - 1);
      LastTerm(add, zero, Sum(add, zero, items, a, n - 1), Sum(add, zero, items, b, n - 1), items[n - 1]);
    }
  }

  lemma {:induction false} SumOfOne<T(!new)>(add: (T, T) -> T, zero: T, items: seq<T>, i: nat, n: nat)
    requires Commutes(add, zero) && n <= |items| && i < |items|
    ensures Sum(add, zero, items, {i}, n) == if i < n then items[i] else zero
  {
    if n > 0 {
      SumOfOne(add, zero, items, i, n - 1);
      LastTerm(add, zero, items[n - 1], zero, zero);
    }
  }

  ghost function Each(events: seq<Event>): (r: seq<Totals>)
    ensures |r| == |events| && forall i :: 0 <= i < |r| ==> r[i] == Of(events[i])
  {
    seq(|events|, i requires 0 <= i < |events| => Of(events[i]))
  }

  /** The totals of the chosen events. */
  ghost function TotalOf(events: seq<Event>, chosen: set<nat>): Totals {
    Sum(AddTotals, ZERO, Each(events), chosen, |events|)
  }

  lemma TotalsCommute()
    ensures Commutes(AddTotals, ZERO)
  {
    forall a, b, c ensures AddTotals(AddTotals(a, b), c) == AddTotals(a, AddTotals(b, c)) { Adding(a, b, c); }
    forall a, b ensures AddTotals(a, b) == AddTotals(b, a) { Adding(a, b, a); }
    forall a ensures AddTotals(a, ZERO) == a { Adding(a, a, a); }
  }

  lemma TotalOfUnion(events: seq<Event>, a: set<nat>, b: set<nat>)
    requires a !! b
    ensures TotalOf(events, a + b) == AddTotals(TotalOf(events, a), TotalOf(events, b))
  {
    TotalsCommute();
    SumOfUnion(AddTotals, ZERO, Each(events), a, b, |events|);
  }

  lemma TotalOfNone(events: seq<Event>)
    ensures TotalOf(events, {}) == ZERO
  {
    SumOfNone(AddTotals, ZERO, Each(events), |events|);
  }

  /** One more event. */
  lemma TotalWith(events: seq<Event>, chosen: set<nat>, i: nat)
    requires i < |events| && i !in chosen
    ensures TotalOf(events, chosen + {i}) == AddEventToTotals(TotalOf(events, chosen), events[i])
  {
    TotalsCommute();
    TotalOfUnion(events, chosen, {i});
    SumOfOne(AddTotals, ZERO, Each(events), i, |events|);
    AddingAnEvent(TotalOf(events, chosen), events[i]);
  }

  // ----- a row's models

  ghost function WithModel(events: seq<Event>, chosen: set<nat>, model: string): set<nat> {
    set i | i in chosen && i < |events| && events[i].model == Some(model)
  }

  ghost function ModelsOf(events: seq<Event>, chosen: set<nat>): set<string> {
    set i | i in chosen && i < |events| && events[i].model.Some? :: events[i].model.value
  }

  /** The totals by model of the chosen events; events without a model are in none. */
  ghost predicate ModelsAre(models: map<string, Totals>, events: seq<Event>, chosen: set<nat>) {
    && models.Keys == ModelsOf(events, chosen)
    && forall model :: model in models ==> models[model] == TotalOf(events, WithModel(events, chosen, model))
  }

  function Get(models: map<string, Totals>, model: string): Totals {
    if model in models then models[model] else ZERO
  }

  lemma ModelTotal(models: map<string, Totals>, events: seq<Event>, chosen: set<nat>, model: string)
    requires ModelsAre(models, events, chosen)
    ensures Get(models, model) == TotalOf(events, WithModel(events, chosen, model))
  {
    if model !in models {
      assert WithModel(events, chosen, model) == {};
      TotalOfNone(events);
    }
  }

  lemma ModelsWith(models: map<string, Totals>, events: seq<Event>, chosen: set<nat>, i: nat)
    requires ModelsAre(models, events, chosen) && i < |events| && i !in chosen
    ensures ModelsAre(match events[i].model { case None => models case Some(m) => models[m := AddEventToTotals(Get(models, m), events[i])] },
                      events, chosen + {i})
  {
    var after := match events[i].model { case None => models case Some(m) => models[m := AddEventToTotals(Get(models, m), events[i])] };
    assert ModelsOf(events, chosen + {i}) == ModelsOf(events, chosen) + (if events[i].model.Some? then {events[i].model.value} else {});
    forall m | m in after ensures after[m] == TotalOf(events, WithModel(events, chosen + {i}, m)) {
      if events[i].model == Some(m) {
        ModelTotal(models, events, chosen, m);
        TotalWith(events, WithModel(events, chosen, m), i);
        assert WithModel(events, chosen + {i}, m) == WithModel(events, chosen, m) + {i};
      } else {
        assert WithModel(events, chosen + {i}, m) == WithModel(events, chosen, m);
      }
    }
  }

  ghost function Merged(a: map<string, Totals>, b: map<string, Totals>): map<string, Totals> {
    map m | m in a.Keys + b.Keys :: if m in b then AddTotals(Get(a, m), b[m]) else a[m]
  }

  lemma ModelsOfUnion(a: map<string, Totals>, b: map<string, Totals>, events: seq<Event>, x: set<nat>, y: set<nat>)
    requires ModelsAre(a, events, x) && ModelsAre(b, events, y) && x !! y
    ensures ModelsAre(Merged(a, b), events, x + y)
  {
    var merged := Merged(a, b);
    assert ModelsOf(events, x + y) == ModelsOf(events, x) + ModelsOf(events, y);
    forall m | m in merged ensures merged[m] == TotalOf(events, WithModel(events, x + y, m)) {
      ModelTotal(a, events, x, m);
      ModelTotal(b, events, y, m);
      assert WithModel(events, x + y, m) == WithModel(events, x, m) + WithModel(events, y, m);
      TotalOfUnion(events, WithModel(events, x, m), WithModel(events, y, m));
      Adding(Get(a, m), ZERO, ZERO);
    }
  }

  method MergeModelTotals(target: map<string, Totals>, source: map<string, Totals>) returns (merged: map<string, Totals>)
    ensures merged == Merged(target, source)
  {
    merged := target;
    var rest := source.Keys;
    while rest != {}
      invariant rest <= source.Keys && merged.Keys == target.Keys + (source.Keys - rest)
      invariant forall m :: m in merged ==>
                              merged[m] == if m in source && m !in rest then AddTotals(Get(target, m), source[m]) else target[m]
    {
      var model :| model in rest;
      merged := merged[model := AddTotals(Get(merged, model), source[model])];
      rest := rest - {model};
    }
  }

  // ----- rows, and the events each counts

  const LOCAL_MACHINE_NAME: string := "local"

  datatype ProjectName = ProjectName(key: Option<string>, name: string)

  /** `otherProjects` is set on a row that folds projects past the limit. */
  datatype Group = Group(source: string, machine: Option<string>, project: Option<ProjectName>, otherProjects: Option<nat>)

  datatype Row = Row(group: Group, totals: Totals, models: map<string, Totals>)

  function MachineOf(e: Event): string {
    if e.machine.None? then LOCAL_MACHINE_NAME else e.machine.value
  }

  /** The event belongs to the row's source and, when rows are split by machine, to its machine. */
  predicate Belongs(e: Event, g: Group) {
    e.source == g.source && (g.machine.Some? ==> MachineOf(e) == g.machine.value)
  }

  /** The row counts exactly the events of `own`. */
  ghost predicate RowIs(row: Row, events: seq<Event>, own: set<nat>, breakdown: bool, bySource: bool) {
    && (forall i :: i in own ==> i < |events| && (bySource ==> Belongs(events[i], row.group)))
    && row.totals == TotalOf(events, own)
    && (if breakdown then ModelsAre(row.models, events, own) else row.models == map[])
  }

  ghost function Union(sets: seq<set<nat>>, n: nat): set<nat>
    requires n <= |sets|
  {
    if n == 0 then {} else Union(sets, n - 1) + sets[n - 1]
  }

  ghost predicate Apart(sets: seq<set<nat>>, n: nat)
    requires n <= |sets|
  {
    n == 0 || (Apart(sets, n - 1) && sets[n - 1] !! Union(sets, n - 1))
  }

  /** The rows count every chosen event once. */
  ghost predicate Describe(rows: seq<Row>, own: seq<set<nat>>, events: seq<Event>, chosen: set<nat>, breakdown: bool, bySource: bool) {
    && |own| == |rows| && Apart(own, |own|) && Union(own, |own|) == chosen
    && forall r :: 0 <= r < |rows| ==> RowIs(rows[r], events, own[r], breakdown, bySource)
  }

  lemma {:induction false} UnionOfMore(sets: seq<set<nat>>, more: seq<set<nat>>, n: nat)
    requires n <= |sets| <= |more| && forall k :: 0 <= k < n ==> sets[k] == more[k]
    ensures Union(more, n) == Union(sets, n) && Apart(more, n) == Apart(sets, n)
  {
    if n > 0 { UnionOfMore(sets, more, n - 1); }
  }

  lemma DescribeOneMore(rows: seq<Row>, own: seq<set<nat>>, events: seq<Event>, chosen: set<nat>, breakdown: bool, bySource: bool,
                        row: Row, more: set<nat>)
    requires Describe(rows, own, events, chosen, breakdown, bySource)
    requires RowIs(row, events, more, breakdown, bySource) && more !! chosen
    ensures Describe(rows + [row], own + [more], events, chosen + more, breakdown, bySource)
  {
    UnionOfMore(own, own + [more], |own|);
  }

  /** Adding to one of the sets adds to the union. */
  lemma {:induction false} UnionOfUpdate(sets: seq<set<nat>>, j: nat, more: set<nat>, n: nat)
    requires j < n <= |sets| && more !! Union(sets, n) && Apart(sets, n)
    ensures Union(sets[j := sets[j] + more], n) == Union(sets, n) + more && Apart(sets[j := sets[j] + more], n)
  {
    var updated := sets[j := sets[j] + more];
    if j == n - 1 {
      UnionOfMore(sets, updated, n - 1);
    } else {
      UnionOfUpdate(sets, j, more, n - 1);
    }
  }

  lemma DescribeUpdate(rows: seq<Row>, own: seq<set<nat>>, events: seq<Event>, chosen: set<nat>, breakdown: bool, bySource: bool,
                       j: nat, row: Row, more: set<nat>)
    requires Describe(rows, own, events, chosen, breakdown, bySource) && j < |rows| && more !! chosen
    requires RowIs(row, events, own[j] + more, breakdown, bySource)
    ensures Describe(rows[j := row], own[j := own[j] + more], events, chosen + more, breakdown, bySource)
  {
    UnionOfUpdate(own, j, more, |own|);
  }

  // ----- adding rows up

  function SumRows(rows: seq<Row>, n: nat): Totals
    requires n <= |rows|
  {
    if n == 0 then ZERO else AddTotals(SumRows(rows, n - 1), rows[n - 1].totals)
  }

  predicate InGroup(g: Group, source: string, machine: Option<string>) {
    g.source == source && (machine.Some? ==> g.machine == machine)
  }

  /** The rows of a source, or of a source's machine, added up. */
  function SumGroup(rows: seq<Row>, n: nat, source: string, machine: Option<string>): Totals
    requires n <= |rows|
  {
    if n == 0 then ZERO
    else if InGroup(rows[n - 1].group, source, machine) then AddTotals(SumGroup(rows, n - 1, source, machine), rows[n - 1].totals)
    else SumGroup(rows, n - 1, source, machine)
  }

  ghost function EventsOf(events: seq<Event>, chosen: set<nat>, source: string, machine: Option<string>): set<nat> {
    set i | i in chosen && i < |events| && events[i].source == source && (machine.Some? ==> MachineOf(events[i]) == machine.value)
  }

  lemma {:induction false} RowsAddUp(rows: seq<Row>, own: seq<set<nat>>, events: seq<Event>, chosen: set<nat>, breakdown: bool, bySource: bool, n: nat)
    requires Describe(rows, own, events, chosen, breakdown, bySource) && n <= |rows|
    ensures SumRows(rows, n) == TotalOf(events, Union(own, n))
  {
    ApartBefore(own, n);
    if n == 0 {
      TotalOfNone(events);
    } else {
      RowsAddUp(rows, own, events, chosen, breakdown, bySource, n - 1);
      TotalOfUnion(events, Union(own, n - 1), own[n - 1]);
    }
  }

  lemma {:induction false} ApartBefore(sets: seq<set<nat>>, n: nat)
    requires n <= |sets| && Apart(sets, |sets|)
    ensures Apart(sets, n)
    decreases |sets| - n
  {
    if n < |sets| { ApartBefore(sets, n + 1); }
  }

  /**
     Rows split by machine or project add up, source by source and machine by machine, to the
     events themselves, so regrouping them gives the unsplit rows.
   */
  lemma {:induction false} RowsRegroup(rows: seq<Row>, own: seq<set<nat>>, events: seq<Event>, chosen: set<nat>, breakdown: bool, n: nat,
                                       source: string, machine: Option<string>)
    requires Describe(rows, own, events, chosen, breakdown, true) && n <= |rows|
    requires machine.Some? ==> forall r :: 0 <= r < |rows| ==> rows[r].group.machine.Some?
    ensures SumGroup(rows, n, source, machine) == TotalOf(events, EventsOf(events, Union(own, n), source, machine))
  {
    ApartBefore(own, n);
    if n == 0 {
      assert EventsOf(events, {}, source, machine) == {};
      TotalOfNone(events);
    } else {
      RowsRegroup(rows, own, events, chosen, breakdown, n - 1, source, machine);
      var before, row := Union(own, n - 1), own[n - 1];
      assert RowIs(rows[n - 1], events, row, breakdown, true);
      if InGroup(rows[n - 1].group, source, machine) {
        assert EventsOf(events, before + row, source, machine) == EventsOf(events, before, source, machine) + row;
        TotalOfUnion(events, EventsOf(events, before, source, machine), row);
      } else {
        assert EventsOf(events, before + row, source, machine) == EventsOf(events, before, source, machine);
      }
    }
  }

  // ----- ranking projects

  /** `byCost` is false when cost is hidden. */
  datatype ProjectLimit = ProjectLimit(count: nat, byCost: bool)

  datatype Ranked = Ranked(key: Option<string>, name: string, totals: Totals)

  function CostOf(t: Totals): int {
    if t.costUsd.None? then 0 else t.costUsd.value
  }

  /** `a` is listed before `b`: by cost, then tokens, then name, or by tokens, then name. */
  predicate Outranks(a: Ranked, b: Ranked, byCost: bool) {
    if byCost && CostOf(a.totals) != CostOf(b.totals) then CostOf(a.totals) > CostOf(b.totals)
    else if a.totals.tokens != b.totals.tokens then a.totals.tokens > b.totals.tokens
    else ProjectLabels.Before(a.name, b.name)
  }

  lemma RankingIsAnOrder(a: Ranked, b: Ranked, c: Ranked, byCost: bool)
    ensures !(Outranks(a, b, byCost) && Outranks(b, a, byCost))
    ensures !Outranks(b, a, byCost) && !Outranks(c, b, byCost) ==> !Outranks(c, a, byCost)
  {
    ProjectLabels.OneIsBefore(a.name, b.name);
    ProjectLabels.OneIsBefore(b.name, c.name);
    if ProjectLabels.Before(c.name, a.name) && ProjectLabels.Before(a.name, b.name) {
      ProjectLabels.BeforeIsTransitive(c.name, a.name, b.name);
    }
  }

  ghost predicate InOrder(ranked: seq<Ranked>, byCost: bool) {
    forall i, j :: 0 <= i < j < |ranked| ==> !Outranks(ranked[j], ranked[i], byCost)
  }

  method InsertRanked(ranked: seq<Ranked>, p: Ranked, byCost: bool) returns (inserted: seq<Ranked>, ghost at: nat)
    requires InOrder(ranked, byCost)
    ensures InOrder(inserted, byCost) && at <= |ranked| && inserted == ranked[..at] + [p] + ranked[at..]
  {
    var i := |ranked|;
    while i > 0 && Outranks(p, ranked[i - 1], byCost)
      invariant 0 <= i <= |ranked|
      invariant forall j :: i <= j < |ranked| ==> Outranks(p, ranked[j], byCost)
    {
      i := i - 1;
    }
    forall j | 0 <= j < i ensures !Outranks(p, ranked[j], byCost) {
      RankingIsAnOrder(ranked[j], ranked[i - 1], p, byCost);
    }
    forall j | i <= j < |ranked| ensures !Outranks(ranked[j], p, byCost) { RankingIsAnOrder(p, ranked[j], p, byCost); }
    inserted, at := ranked[..i] + [p] + ranked[i..], i;
  }

  ghost function KeysOf(ranked: seq<Ranked>): set<Option<string>> {
    set i | 0 <= i < |ranked| :: ranked[i].key
  }

  ghost predicate KeysOnce(ranked: seq<Ranked>) {
    forall i, j :: 0 <= i < j < |ranked| ==> ranked[i].key != ranked[j].key
  }

  /** The projects in rank order, each once. */
  ghost predicate Ranks(ranked: seq<Ranked>, projects: map<Option<string>, Ranked>, keys: set<Option<string>>, byCost: bool) {
    && InOrder(ranked, byCost) && KeysOnce(ranked) && KeysOf(ranked) == keys
    && forall i :: 0 <= i < |ranked| ==> ranked[i].key in projects && ranked[i] == projects[ranked[i].key]
  }

  lemma RanksOneMore(ranked: seq<Ranked>, projects: map<Option<string>, Ranked>, keys: set<Option<string>>, byCost: bool, at: nat, p: Ranked)
    requires Ranks(ranked, projects, keys, byCost) && at <= |ranked| && p.key !in keys && p.key in projects && projects[p.key] == p
    requires InOrder(ranked[..at] + [p] + ranked[at..], byCost)
    ensures Ranks(ranked[..at] + [p] + ranked[at..], projects, keys + {p.key}, byCost)
  {
    var inserted := ranked[..at] + [p] + ranked[at..];
    assert forall i :: 0 <= i < |ranked| ==> ranked[i].key in KeysOf(ranked);
    forall i | 0 <= i < |ranked| ensures ranked[i].key in KeysOf(inserted) {
      assert inserted[if i < at then i else i + 1] == ranked[i];
    }
    assert inserted[at] == p;
  }

  method RankProjects(projects: map<Option<string>, Ranked>, byCost: bool) returns (ranked: seq<Ranked>)
    requires forall key :: key in projects ==> projects[key].key == key
    ensures Ranks(ranked, projects, projects.Keys, byCost)
  {
    ranked := [];
    var rest := projects.Keys;
    ghost var done := {};
    while rest != {}
      invariant rest !! done && rest + done == projects.Keys && Ranks(ranked, projects, done, byCost)
    {
      var key :| key in rest;
      var inserted, at := InsertRanked(ranked, projects[key], byCost);
      RanksOneMore(ranked, projects, done, byCost, at, projects[key]);
      ranked := inserted;
      rest, done := rest - {key}, done + {key};
    }
  }

  lemma {:induction false} KeysCount(ranked: seq<Ranked>)
    requires KeysOnce(ranked)
    ensures |KeysOf(ranked)| == |ranked|
  {
    if ranked != [] {
      var last := |ranked| - 1;
      KeysCount(ranked[..last]);
      assert KeysOf(ranked) == KeysOf(ranked[..last]) + {ranked[last].key} by { assert ranked == ranked[..last] + [ranked[last]]; }
      assert ranked[last].key !in KeysOf(ranked[..last]);
    }
  }

  // ----- folding projects past the limit

  predicate OfProject(row: Row, key: Option<string>) {
    row.group.project.Some? && row.group.project.value.key == key
  }

  /** A project's rows added up. */
  function ProjectTotals(rows: seq<Row>, n: nat, key: Option<string>): Totals
    requires n <= |rows|
  {
    if n == 0 then ZERO
    else if OfProject(rows[n - 1], key) then AddTotals(ProjectTotals(rows, n - 1, key), rows[n - 1].totals)
    else ProjectTotals(rows, n - 1, key)
  }

  ghost predicate AllHaveProjects(rows: seq<Row>, n: nat)
    requires n <= |rows|
  {
    forall r :: 0 <= r < n ==> rows[r].group.project.Some?
  }

  ghost function ProjectKeys(rows: seq<Row>, n: nat): set<Option<string>>
    requires n <= |rows|
  {
    set r | 0 <= r < n && rows[r].group.project.Some? :: rows[r].group.project.value.key
  }

  /** The name the project's first row has. */
  ghost function FirstName(rows: seq<Row>, n: nat, key: Option<string>): string
    requires n <= |rows| && key in ProjectKeys(rows, n)
  {
    if key in ProjectKeys(rows, n - 1) then FirstName(rows, n - 1, key) else rows[n - 1].group.project.value.name
  }

  /** Each project of the first `n` rows, with its totals and name. */
  ghost predicate Collects(projects: map<Option<string>, Ranked>, rows: seq<Row>, n: nat)
    requires n <= |rows|
  {
    && projects.Keys == ProjectKeys(rows, n)
    && forall key :: key in projects ==> projects[key] == Ranked(key, FirstName(rows, n, key), ProjectTotals(rows, n, key))
  }

  lemma {:induction false} NoProjectTotals(rows: seq<Row>, n: nat, key: Option<string>)
    requires n <= |rows| && key !in ProjectKeys(rows, n)
    ensures ProjectTotals(rows, n, key) == ZERO
  {
    if n > 0 { NoProjectTotals(rows, n - 1, key); }
  }

  method CollectProjects(rows: seq<Row>) returns (projects: Option<map<Option<string>, Ranked>>)
    ensures projects.None? <==> !AllHaveProjects(rows, |rows|)
    ensures projects.Some? ==> Collects(projects.value, rows, |rows|)
  {
    var found: map<Option<string>, Ranked> := map[];
    for i := 0 to |rows|
      invariant AllHaveProjects(rows, i) && Collects(found, rows, i)
    {
      var group := rows[i].group;
      if group.project.None? { return None; }
      var key := group.project.value.key;
      if key !in found { NoProjectTotals(rows, i, key); }
      var project := if key in found then found[key] else Ranked(key, group.project.value.name, ZERO);
      assert ProjectKeys(rows, i + 1) == ProjectKeys(rows, i) + {key};
      found := found[key := project.(totals := AddTotals(project.totals, rows[i].totals))];
    }
    projects := Some(found);
  }

  /** No project that is not kept is listed before one that is. */
  ghost predicate KeepsBest(kept: set<Option<string>>, projects: map<Option<string>, Ranked>, byCost: bool) {
    && kept <= projects.Keys
    && forall k, other :: k in kept && other in projects.Keys - kept ==> !Outranks(projects[other], projects[k], byCost)
  }

  /** Cost ranks projects unless one's cost is incomplete. */
  ghost function RanksByCost(limit: ProjectLimit, projects: map<Option<string>, Ranked>): bool {
    limit.byCost && forall key :: key in projects ==> !projects[key].totals.costIncomplete
  }

  method DecideByCost(limit: ProjectLimit, projects: map<Option<string>, Ranked>) returns (byCost: bool)
    ensures byCost == RanksByCost(limit, projects)
  {
    byCost := limit.byCost;
    var rest := projects.Keys;
    while rest != {}
      invariant rest <= projects.Keys
      invariant byCost == (limit.byCost && forall key :: key in projects && key !in rest ==> !projects[key].totals.costIncomplete)
    {
      var key :| key in rest;
      if projects[key].totals.costIncomplete { byCost := false; }
      rest := rest - {key};
    }
  }

  /** The projects to keep; none when there is no project to fold, or only one. */
  method KeepProjects(rows: seq<Row>, limit: ProjectLimit) returns (kept: Option<set<Option<string>>>, ghost projects: map<Option<string>, Ranked>)
    ensures kept.Some? <==> AllHaveProjects(rows, |rows|) && |ProjectKeys(rows, |rows|)| > limit.count + 1
    ensures kept.Some? ==> Collects(projects, rows, |rows|)
    ensures kept.Some? ==> |kept.value| == limit.count && KeepsBest(kept.value, projects, RanksByCost(limit, projects))
  {
    projects := map[];
    var found := CollectProjects(rows);
    if found.None? || |found.value| <= limit.count + 1 { return None, projects; }
    projects := found.value;
    var byCost := DecideByCost(limit, found.value);
    var ranked := RankProjects(found.value, byCost);
    FirstAreKept(ranked, found.value, byCost, limit.count);
    kept := Some(set i | 0 <= i < limit.count :: ranked[i].key);
  }

  lemma FirstAreKept(ranked: seq<Ranked>, projects: map<Option<string>, Ranked>, byCost: bool, count: nat)
    requires Ranks(ranked, projects, projects.Keys, byCost) && count <= |projects|
    ensures |ranked| == |projects|
    ensures var kept := set i | 0 <= i < count :: ranked[i].key; |kept| == count && KeepsBest(kept, projects, byCost)
  {
    KeysCount(ranked);
    KeysCount(ranked[..count]);
    BestAreFirst(ranked, projects, byCost, count);
    assert (set i | 0 <= i < count :: ranked[i].key) == KeysOf(ranked[..count]);
  }

  lemma BestAreFirst(ranked: seq<Ranked>, projects: map<Option<string>, Ranked>, byCost: bool, count: nat)
    requires Ranks(ranked, projects, projects.Keys, byCost) && count <= |ranked|
    ensures KeepsBest(KeysOf(ranked[..count]), projects, byCost)
  {
    var kept := KeysOf(ranked[..count]);
    forall k, other | k in kept && other in projects.Keys - kept ensures !Outranks(projects[other], projects[k], byCost) {
      var i :| 0 <= i < count && ranked[..count][i].key == k;
      assert other in KeysOf(ranked);
      var j :| 0 <= j < |ranked| && ranked[j].key == other;
      assert forall m :: 0 <= m < count ==> ranked[..count][m].key in kept;
      assert ranked[i] == projects[k] && ranked[j] == projects[other];
    }
  }

  function OtherGroup(g: Group): Group {
    Group(g.source, g.machine, None, None)
  }

  /** Where `others` has the row of a source and machine. */
  method FindOther(others: seq<Row>, g: Group) returns (found: Option<nat>)
    ensures found.Some? ==> found.value < |others| && others[found.value].group == OtherGroup(g)
    ensures found.None? ==> forall k :: 0 <= k < |others| ==> others[k].group != OtherGroup(g)
  {
    found := None;
    for k := 0 to |others|
      invariant forall j :: 0 <= j < k ==> others[j].group != OtherGroup(g)
    {
      if others[k].group == OtherGroup(g) { return Some(k); }
    }
  }

  lemma RowsMerge(a: Row, x: set<nat>, b: Row, y: set<nat>, events: seq<Event>, breakdown: bool)
    requires RowIs(a, events, x, breakdown, true) && RowIs(b, events, y, breakdown, true) && x !! y
    requires a.group.source == b.group.source && a.group.machine == b.group.machine
    ensures RowIs(Row(a.group, AddTotals(a.totals, b.totals), if breakdown then Merged(a.models, b.models) else map[]), events, x + y, breakdown, true)
  {
    TotalOfUnion(events, x, y);
    if breakdown { ModelsOfUnion(a.models, b.models, events, x, y); }
  }

  lemma EmptyRowIs(g: Group, events: seq<Event>, breakdown: bool, bySource: bool)
    ensures RowIs(Row(g, ZERO, map[]), events, {}, breakdown, bySource)
  {
    TotalOfNone(events);
    assert ModelsOf(events, {}) == {};
  }

  lemma {:induction false} OwnIsWithin(sets: seq<set<nat>>, k: nat, n: nat)
    requires k < n <= |sets|
    ensures sets[k] <= Union(sets, n)
  {
    if k < n - 1 { OwnIsWithin(sets, k, n - 1); }
  }

  predicate Keeps(kept: set<Option<string>>, row: Row) {
    row.group.project.Some? && row.group.project.value.key in kept
  }

  function KeptRows(rows: seq<Row>, n: nat, kept: set<Option<string>>): seq<Row>
    requires n <= |rows|
  {
    if n == 0 then [] else KeptRows(rows, n - 1, kept) + (if Keeps(kept, rows[n - 1]) then [rows[n - 1]] else [])
  }

  /** The projects folded into the row of a source and machine. */
  ghost function FoldedKeys(rows: seq<Row>, n: nat, kept: set<Option<string>>, g: Group): set<Option<string>>
    requires n <= |rows|
  {
    set r | 0 <= r < n && rows[r].group.project.Some? && !Keeps(kept, rows[r]) && OtherGroup(rows[r].group) == g :: rows[r].group.project.value.key
  }

  /** The rows that fold others, and the projects in each. */
  datatype Others = Others(rows: seq<Row>, projectKeys: seq<set<Option<string>>>)

  ghost predicate HasGroup(rows: seq<Row>, g: Group) {
    exists k :: 0 <= k < |rows| && rows[k].group == g
  }

  /** One row a source and machine. */
  ghost predicate GroupsOnce(o: Others) {
    && |o.projectKeys| == |o.rows|
    && (forall k :: 0 <= k < |o.rows| ==> OtherGroup(o.rows[k].group) == o.rows[k].group)
    && (forall j, k :: 0 <= j < k < |o.rows| ==> o.rows[j].group != o.rows[k].group)
  }

  ghost predicate OthersHold(o: Others, rows: seq<Row>, n: nat, kept: set<Option<string>>)
    requires n <= |rows|
  {
    && GroupsOnce(o)
    && (forall k :: 0 <= k < |o.rows| ==> o.projectKeys[k] == FoldedKeys(rows, n, kept, o.rows[k].group))
    && (forall g: Group :: FoldedKeys(rows, n, kept, g) != {} ==> HasGroup(o.rows, g))
  }

  /** Adds one row's usage to the row of its source and machine. */
  method FoldRow(o: Others, row: Row, breakdown: bool, ghost own: seq<set<nat>>, ghost rowOwn: set<nat>, ghost events: seq<Event>,
                 ghost folded: set<nat>)
    returns (o': Others, ghost own': seq<set<nat>>)
    requires Describe(o.rows, own, events, folded, breakdown, true) && RowIs(row, events, rowOwn, breakdown, true) && rowOwn !! folded
    requires GroupsOnce(o) && row.group.project.Some?
    ensures Describe(o'.rows, own', events, folded + rowOwn, breakdown, true)
    ensures Joins(o, row.group, o')
  {
    var found := FindOther(o.rows, row.group);
    var key := row.group.project.value.key;
    var other := if found.Some? then o.rows[found.value] else Row(OtherGroup(row.group), ZERO, map[]);
    ghost var otherOwn := if found.Some? then own[found.value] else {};
    EmptyRowIs(OtherGroup(row.group), events, breakdown, true);
    if found.Some? { OwnIsWithin(own, found.value, |own|); }
    RowsMerge(other, otherOwn, row, rowOwn, events, breakdown);
    var models := map[];
    if breakdown { models := MergeModelTotals(other.models, row.models); }
    other := Row(other.group, AddTotals(other.totals, row.totals), models);
    if found.Some? {
      var k := found.value;
      DescribeUpdate(o.rows, own, events, folded, breakdown, true, k, other, rowOwn);
      o' := Others(o.rows[k := other], o.projectKeys[k := o.projectKeys[k] + {key}]);
      own' := own[k := otherOwn + rowOwn];
    } else {
      DescribeOneMore(o.rows, own, events, folded, breakdown, true, other, {} + rowOwn);
      assert {} + rowOwn == rowOwn;
      o', own' := Others(o.rows + [other], o.projectKeys + [{key}]), own + [rowOwn];
    }
  }

  /** The project joins those of its source and machine. */
  ghost predicate Joins(o: Others, g: Group, o': Others)
    requires |o.projectKeys| == |o.rows| && g.project.Some?
  {
    && |o'.projectKeys| == |o'.rows|
    && |o'.rows| == (if HasGroup(o.rows, OtherGroup(g)) then |o.rows| else |o.rows| + 1)
    && (forall k :: 0 <= k < |o.rows| ==> o'.rows[k].group == o.rows[k].group)
    && (forall k :: 0 <= k < |o.rows| ==> o'.projectKeys[k] == o.projectKeys[k] + KeyIn(g, o.rows[k].group))
    && (|o'.rows| > |o.rows| ==> o'.rows[|o.rows|].group == OtherGroup(g) && o'.projectKeys[|o.rows|] == KeyIn(g, OtherGroup(g)))
  }

  /** The group's project, when it is folded into `other`. */
  ghost function KeyIn(g: Group, other: Group): set<Option<string>>
    requires g.project.Some?
  {
    if OtherGroup(g) == other then {g.project.value.key} else {}
  }

  lemma FoldedOneMore(rows: seq<Row>, n: nat, kept: set<Option<string>>, g: Group)
    requires n < |rows| && rows[n].group.project.Some?
    ensures FoldedKeys(rows, n + 1, kept, g) == FoldedKeys(rows, n, kept, g) + if Keeps(kept, rows[n]) then {} else KeyIn(rows[n].group, g)
  {
  }

  lemma OthersHoldMore(o: Others, rows: seq<Row>, n: nat, kept: set<Option<string>>, o': Others)
    requires n < |rows| && rows[n].group.project.Some? && OthersHold(o, rows, n, kept)
    requires if Keeps(kept, rows[n]) then o' == o else Joins(o, rows[n].group, o')
    ensures OthersHold(o', rows, n + 1, kept)
  {
    var m := n + 1;
    forall g: Group ensures FoldedKeys(rows, m, kept, g) == FoldedKeys(rows, n, kept, g) + if Keeps(kept, rows[n]) then {} else KeyIn(rows[n].group, g) {
      FoldedOneMore(rows, n, kept, g);
    }
    forall g: Group | FoldedKeys(rows, m, kept, g) != {} ensures HasGroup(o'.rows, g) {
      if HasGroup(o.rows, g) {
        var k :| 0 <= k < |o.rows| && o.rows[k].group == g;
        assert o'.rows[k].group == g;
      } else {
        assert o'.rows[|o.rows|].group == g;
      }
    }
    if |o'.rows| > |o.rows| { assert FoldedKeys(rows, n, kept, OtherGroup(rows[n].group)) == {}; }
  }

  /** The kept projects' rows as they were, then one row per source and machine with the rest, which says how many projects it holds. */
  ghost predicate FoldIs(rows: seq<Row>, kept: set<Option<string>>, folded: seq<Row>) {
    var own := KeptRows(rows, |rows|, kept);
    && |own| <= |folded| && folded[..|own|] == own
    && (forall k :: |own| <= k < |folded| ==>
          var g := folded[k].group;
          g.otherProjects == Some(|FoldedKeys(rows, |rows|, kept, OtherGroup(g))|))
    && (forall j, k :: |own| <= j < k < |folded| ==> OtherGroup(folded[j].group) != OtherGroup(folded[k].group))
  }

  /** What a folded row's group shows besides its source and machine. */
  function Counted(g: Group, count: nat): Group {
    Group(g.source, g.machine, Some(ProjectName(None, "other projects")), Some(count))
  }

  /** With more than one project past the limit, the best are kept and the others folded. */
  ghost predicate FoldOutcome(rows: seq<Row>, limit: ProjectLimit, kept: set<Option<string>>, projects: map<Option<string>, Ranked>, folded: seq<Row>) {
    if AllHaveProjects(rows, |rows|) && |ProjectKeys(rows, |rows|)| > limit.count + 1 then
      && |kept| == limit.count && Collects(projects, rows, |rows|) && KeepsBest(kept, projects, RanksByCost(limit, projects))
      && FoldIs(rows, kept, folded)
    else folded == rows
  }

  method FoldOtherProjects(rows: seq<Row>, limit: ProjectLimit, breakdown: bool, ghost own: seq<set<nat>>, ghost events: seq<Event>, ghost chosen: set<nat>)
    returns (folded: seq<Row>, ghost foldedOwn: seq<set<nat>>, ghost kept: set<Option<string>>, ghost projects: map<Option<string>, Ranked>)
    requires Describe(rows, own, events, chosen, breakdown, true)
    ensures Describe(folded, foldedOwn, events, chosen, breakdown, true)
    ensures FoldOutcome(rows, limit, kept, projects, folded)
  {
    var keep;
    keep, projects := KeepProjects(rows, limit);
    folded, foldedOwn, kept := rows, own, {};
    if keep.Some? {
      kept := keep.value;
      folded, foldedOwn := FoldAll(rows, keep.value, breakdown, own, events, chosen);
    }
  }

  /** The rows kept and folded so far, and the events they count. */
  datatype Folding = Folding(kept: seq<Row>, others: Others)

  datatype FoldedEvents = FoldedEvents(keptOwn: seq<set<nat>>, kept: set<nat>, othersOwn: seq<set<nat>>, others: set<nat>)

  ghost function Counts(e: FoldedEvents): set<nat> {
    e.kept + e.others
  }

  ghost predicate FoldedTo(f: Folding, e: FoldedEvents, rows: seq<Row>, kept: set<Option<string>>, n: nat, events: seq<Event>, breakdown: bool)
    requires n <= |rows|
  {
    && f.kept == KeptRows(rows, n, kept) && OthersHold(f.others, rows, n, kept)
    && Describe(f.kept, e.keptOwn, events, e.kept, breakdown, true)
    && Describe(f.others.rows, e.othersOwn, events, e.others, breakdown, true) && e.kept !! e.others
  }

  /** The row of a kept project joins the kept rows. */
  lemma KeptRowJoins(f: Folding, e: FoldedEvents, rows: seq<Row>, kept: set<Option<string>>, i: nat, breakdown: bool, events: seq<Event>, rowOwn: set<nat>)
    requires i < |rows| && rows[i].group.project.Some? && Keeps(kept, rows[i]) && FoldedTo(f, e, rows, kept, i, events, breakdown)
    requires RowIs(rows[i], events, rowOwn, breakdown, true) && rowOwn !! Counts(e)
    ensures FoldedTo(f.(kept := f.kept + [rows[i]]), e.(keptOwn := e.keptOwn + [rowOwn], kept := e.kept + rowOwn), rows, kept, i + 1, events, breakdown)
  {
    DescribeOneMore(f.kept, e.keptOwn, events, e.kept, breakdown, true, rows[i], rowOwn);
    OthersHoldMore(f.others, rows, i, kept, f.others);
  }

  /** The row of a project that is not kept joins the row of its source and machine. */
  lemma FoldedRowJoins(f: Folding, e: FoldedEvents, rows: seq<Row>, kept: set<Option<string>>, i: nat, breakdown: bool, events: seq<Event>,
                       rowOwn: set<nat>, others: Others, othersOwn: seq<set<nat>>)
    requires i < |rows| && rows[i].group.project.Some? && !Keeps(kept, rows[i]) && FoldedTo(f, e, rows, kept, i, events, breakdown)
    requires rowOwn !! Counts(e) && Joins(f.others, rows[i].group, others)
    requires Describe(others.rows, othersOwn, events, e.others + rowOwn, breakdown, true)
    ensures FoldedTo(f.(others := others), e.(othersOwn := othersOwn, others := e.others + rowOwn), rows, kept, i + 1, events, breakdown)
  {
    OthersHoldMore(f.others, rows, i, kept, others);
  }

  method FoldStep(f: Folding, ghost e: FoldedEvents, rows: seq<Row>, kept: set<Option<string>>, i: nat, breakdown: bool, ghost events: seq<Event>,
                  ghost rowOwn: set<nat>)
    returns (f': Folding, ghost e': FoldedEvents)
    requires i < |rows| && rows[i].group.project.Some? && FoldedTo(f, e, rows, kept, i, events, breakdown)
    requires RowIs(rows[i], events, rowOwn, breakdown, true) && rowOwn !! Counts(e)
    ensures FoldedTo(f', e', rows, kept, i + 1, events, breakdown) && Counts(e') == Counts(e) + rowOwn
  {
    if rows[i].group.project.value.key in kept {
      KeptRowJoins(f, e, rows, kept, i, breakdown, events, rowOwn);
      f', e' := f.(kept := f.kept + [rows[i]]), e.(keptOwn := e.keptOwn + [rowOwn], kept := e.kept + rowOwn);
    } else {
      var others, othersOwn := FoldRow(f.others, rows[i], breakdown, e.othersOwn, rowOwn, events, e.others);
      FoldedRowJoins(f, e, rows, kept, i, breakdown, events, rowOwn, others, othersOwn);
      f', e' := f.(others := others), e.(othersOwn := othersOwn, others := e.others + rowOwn);
    }
  }

  /** The first `i` rows are folded, and `e` are the events they count. */
  ghost predicate FoldsEvents(f: Folding, e: FoldedEvents, rows: seq<Row>, own: seq<set<nat>>, kept: set<Option<string>>, i: nat, events: seq<Event>,
                              breakdown: bool)
    requires i <= |rows| == |own|
  {
    FoldedTo(f, e, rows, kept, i, events, breakdown) && Counts(e) == Union(own, i)
  }

  ghost predicate FoldingAt(f: Folding, rows: seq<Row>, own: seq<set<nat>>, kept: set<Option<string>>, i: nat, events: seq<Event>, breakdown: bool)
    requires i <= |rows| == |own|
  {
    exists e :: FoldsEvents(f, e, rows, own, kept, i, events, breakdown)
  }

  method FoldNext(f: Folding, rows: seq<Row>, ghost own: seq<set<nat>>, kept: set<Option<string>>, i: nat, breakdown: bool,
                  ghost events: seq<Event>, ghost chosen: set<nat>)
    returns (f': Folding)
    requires Describe(rows, own, events, chosen, breakdown, true) && i < |rows| && rows[i].group.project.Some?
    requires FoldingAt(f, rows, own, kept, i, events, breakdown)
    ensures FoldingAt(f', rows, own, kept, i + 1, events, breakdown)
  {
    ghost var e :| FoldsEvents(f, e, rows, own, kept, i, events, breakdown);
    NextIsApart(rows, own, events, chosen, breakdown, i);
    ghost var e';
    f', e' := FoldStep(f, e, rows, kept, i, breakdown, events, own[i]);
    assert FoldsEvents(f', e', rows, own, kept, i + 1, events, breakdown);
  }

  method FoldAll(rows: seq<Row>, kept: set<Option<string>>, breakdown: bool, ghost own: seq<set<nat>>, ghost events: seq<Event>, ghost chosen: set<nat>)
    returns (folded: seq<Row>, ghost foldedOwn: seq<set<nat>>)
    requires Describe(rows, own, events, chosen, breakdown, true) && AllHaveProjects(rows, |rows|)
    ensures Describe(folded, foldedOwn, events, chosen, breakdown, true) && FoldIs(rows, kept, folded)
  {
    var f := FoldRows(rows, kept, breakdown, own, events, chosen);
    ghost var e :| FoldsEvents(f, e, rows, own, kept, |rows|, events, breakdown);
    folded, foldedOwn := AppendOthers(f, e, breakdown, events);
    AppendedIsFold(rows, kept, f, folded);
  }

  method FoldRows(rows: seq<Row>, kept: set<Option<string>>, breakdown: bool, ghost own: seq<set<nat>>, ghost events: seq<Event>, ghost chosen: set<nat>)
    returns (f: Folding)
    requires Describe(rows, own, events, chosen, breakdown, true) && AllHaveProjects(rows, |rows|)
    ensures FoldingAt(f, rows, own, kept, |rows|, events, breakdown)
  {
    f := Folding([], Others([], []));
    FoldStarts(rows, own, kept, events, breakdown);
    for i := 0 to |rows|
      invariant FoldingAt(f, rows, own, kept, i, events, breakdown)
    {
      f := FoldNext(f, rows, own, kept, i, breakdown, events, chosen);
    }
  }

  lemma NextIsApart(rows: seq<Row>, own: seq<set<nat>>, events: seq<Event>, chosen: set<nat>, breakdown: bool, i: nat)
    requires Describe(rows, own, events, chosen, breakdown, true) && i < |rows|
    ensures own[i] !! Union(own, i) && RowIs(rows[i], events, own[i], breakdown, true)
  {
    ApartBefore(own, i + 1);
  }

  lemma FoldStarts(rows: seq<Row>, own: seq<set<nat>>, kept: set<Option<string>>, events: seq<Event>, breakdown: bool)
    requires |own| == |rows|
    ensures FoldingAt(Folding([], Others([], [])), rows, own, kept, 0, events, breakdown)
  {
    assert FoldsEvents(Folding([], Others([], [])), FoldedEvents([], {}, [], {}), rows, own, kept, 0, events, breakdown);
  }

  /** The kept rows, then the first `k` folded ones with their counts. */
  ghost predicate AppendedTo(f: Folding, folded: seq<Row>, k: nat) {
    && |f.others.projectKeys| == |f.others.rows| && k <= |f.others.rows| && |folded| == |f.kept| + k
    && folded[..|f.kept|] == f.kept
    && forall j :: |f.kept| <= j < |folded| ==>
         var other := j - |f.kept|;
         folded[j].group == Counted(f.others.rows[other].group, |f.others.projectKeys[other]|)
  }

  function CountedRow(o: Others, k: nat): Row
    requires k < |o.rows| == |o.projectKeys|
  {
    o.rows[k].(group := Counted(o.rows[k].group, |o.projectKeys[k]|))
  }

  lemma AppendDescribes(f: Folding, e: FoldedEvents, folded: seq<Row>, own: seq<set<nat>>, k: nat, events: seq<Event>, breakdown: bool)
    requires |f.others.projectKeys| == |f.others.rows| && k < |f.others.rows|
    requires Describe(f.others.rows, e.othersOwn, events, e.others, breakdown, true) && e.kept !! e.others
    requires Describe(folded, own, events, e.kept + Union(e.othersOwn, k), breakdown, true)
    ensures Describe(folded + [CountedRow(f.others, k)], own + [e.othersOwn[k]], events, e.kept + Union(e.othersOwn, k + 1), breakdown, true)
  {
    ApartBefore(e.othersOwn, k + 1);
    OwnIsWithin(e.othersOwn, k, |e.othersOwn|);
    assert RowIs(f.others.rows[k], events, e.othersOwn[k], breakdown, true);
    DescribeOneMore(folded, own, events, e.kept + Union(e.othersOwn, k), breakdown, true, CountedRow(f.others, k), e.othersOwn[k]);
    assert e.kept + Union(e.othersOwn, k) + e.othersOwn[k] == e.kept + Union(e.othersOwn, k + 1);
  }

  method AppendOthers(f: Folding, ghost e: FoldedEvents, breakdown: bool, ghost events: seq<Event>) returns (folded: seq<Row>, ghost own: seq<set<nat>>)
    requires |f.others.projectKeys| == |f.others.rows| && e.kept !! e.others
    requires Describe(f.kept, e.keptOwn, events, e.kept, breakdown, true)
    requires Describe(f.others.rows, e.othersOwn, events, e.others, breakdown, true)
    ensures Describe(folded, own, events, e.kept + e.others, breakdown, true) && AppendedTo(f, folded, |f.others.rows|)
  {
    folded, own := f.kept, e.keptOwn;
    assert e.kept + Union(e.othersOwn, 0) == e.kept;
    for k := 0 to |f.others.rows|
      invariant AppendedTo(f, folded, k)
      invariant |e.othersOwn| == |f.others.rows| && Describe(folded, own, events, e.kept + Union(e.othersOwn, k), breakdown, true)
    {
      AppendDescribes(f, e, folded, own, k, events, breakdown);
      AppendKeepsShape(f, folded, k);
      folded, own := folded + [CountedRow(f.others, k)], own + [e.othersOwn[k]];
    }
  }

  lemma AppendKeepsShape(f: Folding, folded: seq<Row>, k: nat)
    requires AppendedTo(f, folded, k) && k < |f.others.rows|
    ensures AppendedTo(f, folded + [CountedRow(f.others, k)], k + 1)
  {
  }

  lemma AppendedIsFold(rows: seq<Row>, kept: set<Option<string>>, f: Folding, folded: seq<Row>)
    requires f.kept == KeptRows(rows, |rows|, kept) && OthersHold(f.others, rows, |rows|, kept)
    requires AppendedTo(f, folded, |f.others.rows|)
    ensures FoldIs(rows, kept, folded)
  {
    forall k | |f.kept| <= k < |folded| ensures OtherGroup(folded[k].group) == f.others.rows[k - |f.kept|].group {
    }
  }

  /** Two lists of rows that count the same events, folded or not, split or not, agree on every source and machine. */
  lemma RegroupedRowsAgree(a: seq<Row>, ownA: seq<set<nat>>, b: seq<Row>, ownB: seq<set<nat>>, events: seq<Event>, chosen: set<nat>, breakdown: bool,
                           source: string, machine: Option<string>)
    requires Describe(a, ownA, events, chosen, breakdown, true) && Describe(b, ownB, events, chosen, breakdown, true)
    requires machine.Some? ==> forall r :: 0 <= r < |a| ==> a[r].group.machine.Some?
    requires machine.Some? ==> forall r :: 0 <= r < |b| ==> b[r].group.machine.Some?
    ensures SumGroup(a, |a|, source, machine) == SumGroup(b, |b|, source, machine)
    ensures SumRows(a, |a|) == SumRows(b, |b|) == TotalOf(events, chosen)
  {
    RowsRegroup(a, ownA, events, chosen, breakdown, |a|, source, machine);
    RowsRegroup(b, ownB, events, chosen, breakdown, |b|, source, machine);
    RowsAddUp(a, ownA, events, chosen, breakdown, true, |a|);
    RowsAddUp(b, ownB, events, chosen, breakdown, true, |b|);
  }

  // ----- accumulating events

  /** `primaryRepo`: one row per project instead of one per source. */
  datatype Split = Split(machine: bool, repo: bool, primaryRepo: bool)

  datatype RowKey = RowKey(source: string, machine: Option<string>, project: Option<Option<string>>)

  datatype Place = Place(period: string, key: RowKey)

  function ToRowKey(e: Event, split: Split): RowKey {
    var project := if split.repo then Some(e.project) else None;
    if split.primaryRepo then RowKey("", None, project)
    else RowKey(e.source, if split.machine then Some(MachineOf(e)) else None, project)
  }

  /** How events are laid out in rows: by period, by the keys of `split`, with these project labels. */
  datatype Layout = Layout(period: Event -> string, split: Split, labels: map<Option<string>, string>) {
    predicate Labelled(e: Event) {
      split.repo ==> e.project in labels
    }

    function PlaceOf(e: Event): Place {
      Place(period(e), ToRowKey(e, split))
    }

    /** What the row of an event groups by. */
    function GroupOf(e: Event): Group
      requires Labelled(e)
    {
      Group(e.source, if split.machine then Some(MachineOf(e)) else None,
            if split.repo then Some(ProjectName(e.project, labels[e.project])) else None, None)
    }
  }

  ghost function EventsAt(events: seq<Event>, n: nat, l: Layout, place: Place): set<nat>
    requires n <= |events|
  {
    set i | 0 <= i < n && l.PlaceOf(events[i]) == place
  }

  ghost function PlacesOf(events: seq<Event>, n: nat, l: Layout): set<Place>
    requires n <= |events|
  {
    set i | 0 <= i < n :: l.PlaceOf(events[i])
  }

  /** The group is that of one of the place's events. */
  ghost predicate GroupComes(g: Group, events: seq<Event>, n: nat, l: Layout, place: Place)
    requires n <= |events|
  {
    exists i :: 0 <= i < n && l.PlaceOf(events[i]) == place && l.Labelled(events[i]) && g == l.GroupOf(events[i])
  }

  /** The row of one place counts the events of that place. */
  ghost predicate RowAt(row: Row, events: seq<Event>, n: nat, l: Layout, place: Place, breakdown: bool)
    requires n <= |events|
  {
    RowIs(row, events, EventsAt(events, n, l, place), breakdown, !l.split.primaryRepo) && GroupComes(row.group, events, n, l, place)
  }

  ghost predicate Accumulated(places: map<Place, Row>, events: seq<Event>, n: nat, l: Layout, breakdown: bool)
    requires n <= |events|
  {
    && places.Keys == PlacesOf(events, n, l)
    && forall place :: place in places ==> RowAt(places[place], events, n, l, place, breakdown)
  }

  function AddEvent(row: Row, e: Event, breakdown: bool): Row {
    Row(row.group, AddEventToTotals(row.totals, e),
        match e.model
        case None => row.models
        case Some(m) => if breakdown then row.models[m := AddEventToTotals(Get(row.models, m), e)] else row.models)
  }

  lemma RowWithEvent(row: Row, events: seq<Event>, own: set<nat>, i: nat, breakdown: bool, bySource: bool)
    requires RowIs(row, events, own, breakdown, bySource) && i < |events| && i !in own && (bySource ==> Belongs(events[i], row.group))
    ensures RowIs(AddEvent(row, events[i], breakdown), events, own + {i}, breakdown, bySource)
  {
    TotalWith(events, own, i);
    if breakdown { ModelsWith(row.models, events, own, i); }
  }

  lemma PlaceOneMore(events: seq<Event>, n: nat, l: Layout, place: Place)
    requires n < |events|
    ensures EventsAt(events, n + 1, l, place) == EventsAt(events, n, l, place) + if l.PlaceOf(events[n]) == place then {n} else {}
  {
  }

  /** The row an event is added to: the one at its place, or a new one. */
  ghost predicate RowFor(row: Row, places: map<Place, Row>, l: Layout, e: Event) {
    && l.Labelled(e)
    && if l.PlaceOf(e) in places then row == places[l.PlaceOf(e)] else row == Row(l.GroupOf(e), ZERO, map[])
  }

  lemma SamePlaceBelongs(events: seq<Event>, n: nat, l: Layout, g: Group)
    requires n < |events| && !l.split.primaryRepo && GroupComes(g, events, n, l, l.PlaceOf(events[n]))
    ensures Belongs(events[n], g)
  {
  }

  lemma GroupStillComes(g: Group, events: seq<Event>, n: nat, l: Layout, place: Place)
    requires n < |events| && GroupComes(g, events, n, l, place)
    ensures GroupComes(g, events, n + 1, l, place)
  {
  }

  lemma AccumulateOwn(places: map<Place, Row>, events: seq<Event>, n: nat, l: Layout, breakdown: bool, row: Row)
    requires n < |events| && Accumulated(places, events, n, l, breakdown) && RowFor(row, places, l, events[n])
    ensures RowAt(AddEvent(row, events[n], breakdown), events, n + 1, l, l.PlaceOf(events[n]), breakdown)
  {
    var place := l.PlaceOf(events[n]);
    var own := EventsAt(events, n, l, place);
    PlaceOneMore(events, n, l, place);
    if place in places {
      assert RowAt(places[place], events, n, l, place, breakdown);
      GroupStillComes(row.group, events, n, l, place);
      if !l.split.primaryRepo { SamePlaceBelongs(events, n, l, row.group); }
    } else {
      assert own == {};
      EmptyRowIs(row.group, events, breakdown, !l.split.primaryRepo);
      assert GroupComes(row.group, events, n + 1, l, place);
    }
    RowWithEvent(row, events, own, n, breakdown, !l.split.primaryRepo);
  }

  lemma OtherRowStays(row: Row, events: seq<Event>, n: nat, l: Layout, place: Place, breakdown: bool)
    requires n < |events| && RowAt(row, events, n, l, place, breakdown) && l.PlaceOf(events[n]) != place
    ensures RowAt(row, events, n + 1, l, place, breakdown)
  {
    PlaceOneMore(events, n, l, place);
    assert EventsAt(events, n + 1, l, place) == EventsAt(events, n, l, place);
    GroupStillComes(row.group, events, n, l, place);
  }

  lemma AccumulateOne(places: map<Place, Row>, events: seq<Event>, n: nat, l: Layout, breakdown: bool, row: Row)
    requires n < |events| && Accumulated(places, events, n, l, breakdown) && RowFor(row, places, l, events[n])
    ensures Accumulated(places[l.PlaceOf(events[n]) := AddEvent(row, events[n], breakdown)], events, n + 1, l, breakdown)
  {
    var own := l.PlaceOf(events[n]);
    var next := places[own := AddEvent(row, events[n], breakdown)];
    AccumulateOwn(places, events, n, l, breakdown, row);
    assert PlacesOf(events, n + 1, l) == PlacesOf(events, n, l) + {own};
    forall place | place in next ensures RowAt(next[place], events, n + 1, l, place, breakdown) {
      if place != own { OtherRowStays(places[place], events, n, l, place, breakdown); }
    }
  }

  /** Every event's usage, by period and row; nothing when a project has no label. */
  method Accumulate(events: seq<Event>, l: Layout, breakdown: bool) returns (places: Option<map<Place, Row>>)
    ensures places.Some? <==> AllLabelled(events, |events|, l)
    ensures places.Some? ==> Accumulated(places.value, events, |events|, l, breakdown)
  {
    var rows, count := AccumulateLabelled(events, l, breakdown);
    places := if count == |events| then Some(rows) else None;
  }

  /** The events before the first one whose project has no label. */
  method AccumulateLabelled(events: seq<Event>, l: Layout, breakdown: bool) returns (rows: map<Place, Row>, count: nat)
    ensures count <= |events| && AllLabelled(events, count, l) && (count < |events| ==> !l.Labelled(events[count]))
    ensures Accumulated(rows, events, count, l, breakdown)
  {
    rows, count := map[], 0;
    while count < |events| && l.Labelled(events[count])
      invariant count <= |events| && AllLabelled(events, count, l) && Accumulated(rows, events, count, l, breakdown)
    {
      rows := AccumulateEvent(rows, events[count], l, breakdown, events, count);
      count := count + 1;
    }
  }

  ghost predicate AllLabelled(events: seq<Event>, n: nat, l: Layout)
    requires n <= |events|
  {
    forall i :: 0 <= i < n ==> l.Labelled(events[i])
  }

  method AccumulateEvent(places: map<Place, Row>, e: Event, l: Layout, breakdown: bool, ghost events: seq<Event>, ghost n: nat)
    returns (places': map<Place, Row>)
    requires n < |events| && e == events[n] && l.Labelled(e) && Accumulated(places, events, n, l, breakdown)
    ensures Accumulated(places', events, n + 1, l, breakdown)
  {
    var place := l.PlaceOf(e);
    var row := if place in places then places[place] else Row(l.GroupOf(e), ZERO, map[]);
    AccumulateOne(places, events, n, l, breakdown, row);
    places' := places[place := AddEvent(row, e, breakdown)];
  }

  // ----- the report

  /** Totals and, with a breakdown, totals by model. */
  datatype Usage = Usage(totals: Totals, models: map<string, Totals>)

  datatype PeriodReport = PeriodReport(period: string, rows: seq<Row>, combined: Option<Usage>)

  datatype Report = Report(periods: seq<PeriodReport>, grand: Usage)

  ghost predicate UsageIs(u: Usage, events: seq<Event>, chosen: set<nat>, breakdown: bool) {
    u.totals == TotalOf(events, chosen) && if breakdown then ModelsAre(u.models, events, chosen) else u.models == map[]
  }

  ghost function EventsIn(events: seq<Event>, period: Event -> string, name: string): set<nat> {
    set i | 0 <= i < |events| && period(events[i]) == name
  }

  method AddRow(u: Usage, row: Row, breakdown: bool, ghost events: seq<Event>, ghost x: set<nat>, ghost y: set<nat>, ghost bySource: bool) returns (sum: Usage)
    requires UsageIs(u, events, x, breakdown) && RowIs(row, events, y, breakdown, bySource) && x !! y
    ensures UsageIs(sum, events, x + y, breakdown)
  {
    TotalOfUnion(events, x, y);
    var models := u.models;
    if breakdown {
      models := MergeModelTotals(u.models, row.models);
      ModelsOfUnion(u.models, row.models, events, x, y);
    }
    sum := Usage(AddTotals(u.totals, row.totals), models);
  }

  /** A period's rows added to its combined usage and to the grand one. */
  method AddRows(rows: seq<Row>, grand: Usage, breakdown: bool, ghost own: seq<set<nat>>, ghost events: seq<Event>, ghost chosen: set<nat>,
                 ghost before: set<nat>, ghost bySource: bool)
    returns (combined: Usage, grand': Usage)
    requires Describe(rows, own, events, chosen, breakdown, bySource) && UsageIs(grand, events, before, breakdown) && chosen !! before
    ensures UsageIs(combined, events, chosen, breakdown) && UsageIs(grand', events, before + chosen, breakdown)
  {
    combined, grand' := Usage(ZERO, map[]), grand;
    EmptyRowIs(Group("", None, None, None), events, breakdown, bySource);
    assert before + Union(own, 0) == before;
    for i := 0 to |rows|
      invariant UsageIs(combined, events, Union(own, i), breakdown) && UsageIs(grand', events, before + Union(own, i), breakdown)
    {
      ApartBefore(own, i + 1);
      OwnIsWithin(own, i, |own|);
      assert RowIs(rows[i], events, own[i], breakdown, bySource);
      combined := AddRow(combined, rows[i], breakdown, events, Union(own, i), own[i], bySource);
      assert before + Union(own, i) + own[i] == before + Union(own, i + 1);
      grand' := AddRow(grand', rows[i], breakdown, events, before + Union(own, i), own[i], bySource);
    }
  }

  ghost function UnionAt(events: seq<Event>, l: Layout, places: set<Place>): set<nat> {
    set i | 0 <= i < |events| && l.PlaceOf(events[i]) in places
  }

  /** Each row counts all events of one place, and groups as one of them does. */
  ghost predicate OnePlaceEach(rows: seq<Row>, own: seq<set<nat>>, events: seq<Event>, l: Layout)
    requires |own| == |rows|
  {
    forall r :: 0 <= r < |rows| ==> exists place :: own[r] == EventsAt(events, |events|, l, place) && GroupComes(rows[r].group, events, |events|, l, place)
  }

  /** A period's rows, in any order. */
  method ListPeriod(places: map<Place, Row>, name: string, ghost events: seq<Event>, ghost l: Layout, ghost breakdown: bool)
    returns (rows: seq<Row>, ghost own: seq<set<nat>>)
    requires Accumulated(places, events, |events|, l, breakdown)
    ensures Describe(rows, own, events, EventsIn(events, l.period, name), breakdown, !l.split.primaryRepo)
    ensures OnePlaceEach(rows, own, events, l)
  {
    var chosen := set place | place in places && place.period == name;
    rows := ListPlaces(places, chosen, events, l, breakdown);
    own := PeriodIsListed(rows, places, name, events, l, breakdown, chosen);
  }

  method ListPlaces(places: map<Place, Row>, chosen: set<Place>, ghost events: seq<Event>, ghost l: Layout, ghost breakdown: bool)
    returns (rows: seq<Row>)
    requires Accumulated(places, events, |events|, l, breakdown) && chosen <= places.Keys
    ensures ListsPlaces(rows, events, l, breakdown, chosen)
  {
    rows := [];
    var rest := chosen;
    NothingListed(events, l, breakdown, chosen);
    while rest != {}
      invariant rest <= chosen && ListsPlaces(rows, events, l, breakdown, chosen - rest)
    {
      var place :| place in rest;
      ListStep(rows, places, events, l, breakdown, chosen, rest, place);
      rows, rest := rows + [places[place]], rest - {place};
    }
    assert chosen - {} == chosen;
  }

  ghost predicate Listed(rows: seq<Row>, own: seq<set<nat>>, events: seq<Event>, l: Layout, breakdown: bool, done: set<Place>) {
    Describe(rows, own, events, UnionAt(events, l, done), breakdown, !l.split.primaryRepo) && OnePlaceEach(rows, own, events, l)
  }

  /** The rows list the places of `done`. */
  ghost predicate ListsPlaces(rows: seq<Row>, events: seq<Event>, l: Layout, breakdown: bool, done: set<Place>) {
    exists own :: Listed(rows, own, events, l, breakdown, done)
  }

  lemma NothingListed(events: seq<Event>, l: Layout, breakdown: bool, chosen: set<Place>)
    ensures ListsPlaces([], events, l, breakdown, chosen - chosen)
  {
    assert chosen - chosen == {};
    assert Listed([], [], events, l, breakdown, {});
  }

  lemma ListStep(rows: seq<Row>, places: map<Place, Row>, events: seq<Event>, l: Layout, breakdown: bool, chosen: set<Place>, rest: set<Place>,
                 place: Place)
    requires Accumulated(places, events, |events|, l, breakdown) && place in rest && rest <= chosen <= places.Keys
    requires ListsPlaces(rows, events, l, breakdown, chosen - rest)
    ensures ListsPlaces(rows + [places[place]], events, l, breakdown, chosen - (rest - {place}))
  {
    OneFewerLeft(chosen, rest, place);
    ListsOneMore(rows, places, events, l, breakdown, chosen - rest, place);
  }

  lemma ListsOneMore(rows: seq<Row>, places: map<Place, Row>, events: seq<Event>, l: Layout, breakdown: bool, done: set<Place>, place: Place)
    requires Accumulated(places, events, |events|, l, breakdown) && place in places && place !in done
    requires ListsPlaces(rows, events, l, breakdown, done)
    ensures ListsPlaces(rows + [places[place]], events, l, breakdown, done + {place})
  {
    var own :| Listed(rows, own, events, l, breakdown, done);
    ListedOneMore(rows, own, places, events, l, breakdown, done, place);
  }

  lemma ListedOneMore(rows: seq<Row>, own: seq<set<nat>>, places: map<Place, Row>, events: seq<Event>, l: Layout, breakdown: bool, done: set<Place>,
                      place: Place)
    requires Accumulated(places, events, |events|, l, breakdown) && place in places && place !in done
    requires Listed(rows, own, events, l, breakdown, done)
    ensures Listed(rows + [places[place]], own + [EventsAt(events, |events|, l, place)], events, l, breakdown, done + {place})
  {
    ListOneMore(rows, own, places, events, l, breakdown, done, place);
    assert RowAt(places[place], events, |events|, l, place, breakdown);
    PlaceOneMoreEach(rows, own, events, l, places[place], place);
  }

  /** With all places of a period listed, the rows count its events. */
  lemma PeriodIsListed(rows: seq<Row>, places: map<Place, Row>, name: string, events: seq<Event>, l: Layout, breakdown: bool, done: set<Place>)
    returns (own: seq<set<nat>>)
    requires Accumulated(places, events, |events|, l, breakdown)
    requires done == (set place | place in places && place.period == name) && ListsPlaces(rows, events, l, breakdown, done)
    ensures Describe(rows, own, events, EventsIn(events, l.period, name), breakdown, !l.split.primaryRepo)
    ensures OnePlaceEach(rows, own, events, l)
  {
    own :| Listed(rows, own, events, l, breakdown, done);
    PeriodIsItsPlaces(places, name, events, l, breakdown, done);
  }

  lemma ListOneMore(rows: seq<Row>, own: seq<set<nat>>, places: map<Place, Row>, events: seq<Event>, l: Layout, breakdown: bool, done: set<Place>,
                    place: Place)
    requires Accumulated(places, events, |events|, l, breakdown) && place in places && place !in done
    requires Describe(rows, own, events, UnionAt(events, l, done), breakdown, !l.split.primaryRepo)
    ensures Describe(rows + [places[place]], own + [EventsAt(events, |events|, l, place)], events,
                     UnionAt(events, l, done + {place}), breakdown, !l.split.primaryRepo)
  {
    var at := EventsAt(events, |events|, l, place);
    assert RowAt(places[place], events, |events|, l, place, breakdown);
    assert UnionAt(events, l, done + {place}) == UnionAt(events, l, done) + at;
    DescribeOneMore(rows, own, events, UnionAt(events, l, done), breakdown, !l.split.primaryRepo, places[place], at);
  }

  lemma PlaceOneMoreEach(rows: seq<Row>, own: seq<set<nat>>, events: seq<Event>, l: Layout, row: Row, place: Place)
    requires |own| == |rows| && OnePlaceEach(rows, own, events, l) && GroupComes(row.group, events, |events|, l, place)
    ensures OnePlaceEach(rows + [row], own + [EventsAt(events, |events|, l, place)], events, l)
  {
  }

  lemma PeriodIsItsPlaces(places: map<Place, Row>, name: string, events: seq<Event>, l: Layout, breakdown: bool, done: set<Place>)
    requires Accumulated(places, events, |events|, l, breakdown) && done == set place | place in places && place.period == name
    ensures UnionAt(events, l, done) == EventsIn(events, l.period, name)
  {
    forall i | i in EventsIn(events, l.period, name) ensures l.PlaceOf(events[i]) in done {
      assert l.PlaceOf(events[i]) in PlacesOf(events, |events|, l);
    }
  }

  /** Where a period's rows come from: the events each counts, and the rows before folding. */
  datatype Provenance = Provenance(own: seq<set<nat>>, unfolded: seq<Row>, unfoldedOwn: seq<set<nat>>, kept: set<Option<string>>,
                                   projects: map<Option<string>, Ranked>)

  predicate Folds(l: Layout, limit: Option<ProjectLimit>) {
    l.split.repo && !l.split.primaryRepo && limit.Some?
  }

  /**
     The rows count the period's events once each, one row a place, folded when there is a limit;
     the combined row, which the period has with more than one row, counts them all.
   */
  ghost predicate PeriodIs(p: PeriodReport, v: Provenance, events: seq<Event>, l: Layout, limit: Option<ProjectLimit>, breakdown: bool) {
    var chosen := EventsIn(events, l.period, p.period);
    && Describe(p.rows, v.own, events, chosen, breakdown, !l.split.primaryRepo)
    && Describe(v.unfolded, v.unfoldedOwn, events, chosen, breakdown, !l.split.primaryRepo) && OnePlaceEach(v.unfolded, v.unfoldedOwn, events, l)
    && (if Folds(l, limit) then FoldOutcome(v.unfolded, limit.value, v.kept, v.projects, p.rows) else p.rows == v.unfolded)
    && (p.combined.Some? <==> |p.rows| > 1)
    && (p.combined.Some? ==> UsageIs(p.combined.value, events, chosen, breakdown))
  }

  /** An empty report costs nothing rather than an unknown amount. */
  function Finalized(events: seq<Event>, grand: Usage): Usage {
    if events == [] && grand.totals.costUsd.None? && !grand.totals.costIncomplete then grand.(totals := grand.totals.(costUsd := Some(0))) else grand
  }

  ghost function AllEvents(events: seq<Event>): set<nat> {
    set i {:trigger events[i]} | 0 <= i < |events|
  }

  /** The events of the named periods. */
  ghost function EventsInAny(events: seq<Event>, period: Event -> string, names: set<string>): set<nat> {
    set i | 0 <= i < |events| && period(events[i]) in names
  }

  function PeriodNames(periods: seq<PeriodReport>): (names: seq<string>)
    ensures |names| == |periods| && forall k :: 0 <= k < |names| ==> names[k] == periods[k].period
  {
    seq(|periods|, k requires 0 <= k < |periods| => periods[k].period)
  }

  ghost predicate PeriodsAre(periods: seq<PeriodReport>, from: seq<Provenance>, events: seq<Event>, l: Layout, limit: Option<ProjectLimit>, breakdown: bool) {
    |from| == |periods| && forall k :: 0 <= k < |periods| ==> PeriodIs(periods[k], from[k], events, l, limit, breakdown)
  }

  /** The periods in order, every event in one of them, each with its rows; the grand total counts every event. */
  ghost predicate IsReport(report: Report, from: seq<Provenance>, events: seq<Event>, l: Layout, limit: Option<ProjectLimit>, breakdown: bool) {
    && ProjectLabels.Ascending(PeriodNames(report.periods))
    && (forall i :: 0 <= i < |events| ==> l.period(events[i]) in PeriodNames(report.periods))
    && PeriodsAre(report.periods, from, events, l, limit, breakdown)
    && if events == [] then report.grand == Usage(ZERO.(costUsd := Some(0)), map[]) else UsageIs(report.grand, events, AllEvents(events), breakdown)
  }

  method ReportPeriod(places: map<Place, Row>, name: string, l: Layout, limit: Option<ProjectLimit>, breakdown: bool, grand: Usage,
                      ghost events: seq<Event>, ghost before: set<nat>)
    returns (p: PeriodReport, grand': Usage, ghost v: Provenance)
    requires Accumulated(places, events, |events|, l, breakdown)
    requires UsageIs(grand, events, before, breakdown) && before !! EventsIn(events, l.period, name)
    ensures p.period == name && PeriodIs(p, v, events, l, limit, breakdown)
    ensures UsageIs(grand', events, before + EventsIn(events, l.period, name), breakdown)
  {
    ghost var chosen := EventsIn(events, l.period, name);
    var rows, own := ListPeriod(places, name, events, l, breakdown);
    v := Provenance(own, rows, own, {}, map[]);
    if Folds(l, limit) {
      ghost var kept, projects;
      rows, own, kept, projects := FoldOtherProjects(rows, limit.value, breakdown, own, events, chosen);
      v := v.(own := own, kept := kept, projects := projects);
    }
    var combined;
    combined, grand' := AddRows(rows, grand, breakdown, own, events, chosen, before, !l.split.primaryRepo);
    p := PeriodReport(name, rows, if |rows| > 1 then Some(combined) else None);
  }

  method AggregateUsage(events: seq<Event>, l: Layout, limit: Option<ProjectLimit>, breakdown: bool)
    returns (report: Option<Report>, ghost from: seq<Provenance>)
    ensures report.Some? <==> AllLabelled(events, |events|, l)
    ensures report.Some? ==> IsReport(report.value, from, events, l, limit, breakdown)
  {
    from := [];
    var places := Accumulate(events, l, breakdown);
    if places.None? { return None, from; }
    var names := ProjectLabels.SortKeys(set place | place in places.value :: place.period);
    var periods, grand;
    periods, grand, from := ReportAll(places.value, names, l, limit, breakdown, events);
    EveryPeriodIsListed(places.value, events, l, breakdown, names);
    report := Some(Report(periods, Finalized(events, grand)));
    if events == [] { NothingToCount(grand, breakdown); }
  }

  method ReportAll(places: map<Place, Row>, names: seq<string>, l: Layout, limit: Option<ProjectLimit>, breakdown: bool, ghost events: seq<Event>)
    returns (periods: seq<PeriodReport>, grand: Usage, ghost from: seq<Provenance>)
    requires Accumulated(places, events, |events|, l, breakdown) && ProjectLabels.Ascending(names)
    ensures PeriodNames(periods) == names && PeriodsAre(periods, from, events, l, limit, breakdown)
    ensures UsageIs(grand, events, EventsInAny(events, l.period, ProjectLabels.Elements(names)), breakdown)
  {
    periods, grand, from := [], Usage(ZERO, map[]), [];
    EmptyRowIs(Group("", None, None, None), events, breakdown, false);
    assert EventsInAny(events, l.period, ProjectLabels.Elements(names[..0])) == {};
    for k := 0 to |names|
      invariant PeriodNames(periods) == names[..k] && PeriodsAre(periods, from, events, l, limit, breakdown)
      invariant UsageIs(grand, events, EventsInAny(events, l.period, ProjectLabels.Elements(names[..k])), breakdown)
    {
      ghost var before := EventsInAny(events, l.period, ProjectLabels.Elements(names[..k]));
      PeriodIsNew(events, l.period, names, k);
      var p: PeriodReport;
      ghost var v: Provenance;
      p, grand, v := ReportPeriod(places, names[k], l, limit, breakdown, grand, events, before);
      periods, from := periods + [p], from + [v];
    }
    assert names[..|names|] == names;
  }

  lemma PeriodIsNew(events: seq<Event>, period: Event -> string, names: seq<string>, k: nat)
    requires ProjectLabels.Ascending(names) && k < |names|
    ensures var before := EventsInAny(events, period, ProjectLabels.Elements(names[..k]));
      && before !! EventsIn(events, period, names[k])
      && EventsInAny(events, period, ProjectLabels.Elements(names[..k + 1])) == before + EventsIn(events, period, names[k])
  {
    ProjectLabels.OneIsBefore(names[k], names[k]);
    assert names[..k + 1] == names[..k] + [names[k]];
  }

  lemma EveryPeriodIsListed(places: map<Place, Row>, events: seq<Event>, l: Layout, breakdown: bool, names: seq<string>)
    requires Accumulated(places, events, |events|, l, breakdown)
    requires ProjectLabels.Elements(names) == set place | place in places :: place.period
    ensures forall i :: 0 <= i < |events| ==> l.period(events[i]) in names
    ensures EventsInAny(events, l.period, ProjectLabels.Elements(names)) == AllEvents(events)
  {
    forall i | 0 <= i < |events| ensures l.period(events[i]) in ProjectLabels.Elements(names) {
      assert l.PlaceOf(events[i]) in places;
    }
  }

  lemma NothingToCount(grand: Usage, breakdown: bool)
    requires UsageIs(grand, [], AllEvents([]), breakdown)
    ensures Finalized([], grand) == Usage(ZERO.(costUsd := Some(0)), map[])
  {
    assert AllEvents([]) == {};
    TotalOfNone([]);
    assert ModelsOf([], {}) == {};
  }

  // ----- what totals, rows and ranking mean, field by field

  /** The sum of a figure over the chosen events among the first `n`. */
  ghost function Figure(of: Event -> int, events: seq<Event>, chosen: set<nat>, n: nat): int
    requires n <= |events|
  {
    if n == 0 then 0 else Figure(of, events, chosen, n - 1) + (if n - 1 in chosen then of(events[n - 1]) else 0)
  }

  /** Each token count is the sum of the events' own. */
  ghost predicate CountsTokens(t: Totals, events: seq<Event>, chosen: set<nat>, n: nat)
    requires n <= |events|
  {
    && t.input == Figure((e: Event) => e.input, events, chosen, n)
    && t.output == Figure((e: Event) => e.output, events, chosen, n)
    && t.reasoning == Figure((e: Event) => e.reasoning, events, chosen, n)
    && t.cacheRead == Figure((e: Event) => e.cacheRead, events, chosen, n)
    && t.cacheWrite == Figure((e: Event) => e.cacheWrite, events, chosen, n)
    && t.tokens == Figure((e: Event) => e.tokens, events, chosen, n)
  }

  /** The cost is the sum of the known costs, if any is known, and incomplete when any is missing. */
  ghost predicate CountsCost(t: Totals, events: seq<Event>, chosen: set<nat>, n: nat)
    requires n <= |events|
  {
    && (t.costUsd.Some? <==> exists i :: 0 <= i < n && i in chosen && events[i].costUsd.Some?)
    && (t.costUsd.Some? ==> t.costUsd.value == Figure((e: Event) => if e.costUsd.Some? then e.costUsd.value else 0, events, chosen, n))
    && (t.costUsd.None? ==> Figure((e: Event) => if e.costUsd.Some? then e.costUsd.value else 0, events, chosen, n) == 0)
    && (t.costIncomplete <==> exists i :: 0 <= i < n && i in chosen && events[i].costUsd.None?)
  }

  lemma {:induction false} SumCounts(events: seq<Event>, chosen: set<nat>, n: nat)
    requires n <= |events|
    ensures var t := Sum(AddTotals, ZERO, Each(events), chosen, n); CountsTokens(t, events, chosen, n) && CountsCost(t, events, chosen, n)
  {
    if n > 0 {
      SumCounts(events, chosen, n - 1);
      var before := Sum(AddTotals, ZERO, Each(events), chosen, n - 1);
      CountsOneMore(before, events, chosen, n - 1);
    }
  }

  lemma CountsOneMore(before: Totals, events: seq<Event>, chosen: set<nat>, n: nat)
    requires n < |events| && CountsTokens(before, events, chosen, n) && CountsCost(before, events, chosen, n)
    ensures var t := if n in chosen then AddTotals(before, Of(events[n])) else before;
      CountsTokens(t, events, chosen, n + 1) && CountsCost(t, events, chosen, n + 1)
  {
    var known := (e: Event) => if e.costUsd.Some? then e.costUsd.value else 0;
    assert Figure(known, events, chosen, n + 1) == Figure(known, events, chosen, n) + (if n in chosen then known(events[n]) else 0);
    var m := n + 1;
    assert (exists i :: 0 <= i < m && i in chosen && events[i].costUsd.Some?) <==>
      (exists i :: 0 <= i < n && i in chosen && events[i].costUsd.Some?) || (n in chosen && events[n].costUsd.Some?);
    assert (exists i :: 0 <= i < m && i in chosen && events[i].costUsd.None?) <==>
      (exists i :: 0 <= i < n && i in chosen && events[i].costUsd.None?) || (n in chosen && events[n].costUsd.None?);
  }

  /** Totals of events are the sums of their figures; a missing cost makes the cost incomplete. */
  lemma TotalsAreSums(events: seq<Event>, chosen: set<nat>)
    ensures CountsTokens(TotalOf(events, chosen), events, chosen, |events|) && CountsCost(TotalOf(events, chosen), events, chosen, |events|)
  {
    SumCounts(events, chosen, |events|);
  }

  /** Two events share a row exactly when they agree in what the report is split by; an event without a machine is of this one. */
  lemma ShareARowIff(l: Layout, a: Event, b: Event)
    ensures l.PlaceOf(a) == l.PlaceOf(b) <==>
      && l.period(a) == l.period(b)
      && (l.split.repo ==> a.project == b.project)
      && (!l.split.primaryRepo ==> a.source == b.source)
      && (!l.split.primaryRepo && l.split.machine ==>
            (if a.machine.None? then "local" else a.machine.value) == (if b.machine.None? then "local" else b.machine.value))
  {
  }

  /** What a row shows of an event: its source, and its machine and labelled project when the report is split by them. */
  ghost predicate ShowsEvent(g: Group, e: Event, l: Layout) {
    && (!l.split.primaryRepo ==> g.source == e.source)
    && (g.machine.Some? <==> l.split.machine)
    && (l.split.machine && !l.split.primaryRepo ==> g.machine.value == if e.machine.None? then "local" else e.machine.value)
    && (g.project.Some? <==> l.split.repo)
    && (l.split.repo ==> g.project.value.key == e.project && e.project in l.labels && g.project.value.name == l.labels[e.project])
    && g.otherProjects.None?
  }

  /** Before folding, every row shows what each of its events is of. */
  lemma RowsShowTheirEvents(rows: seq<Row>, own: seq<set<nat>>, events: seq<Event>, l: Layout, r: nat, i: nat)
    requires |own| == |rows| && OnePlaceEach(rows, own, events, l) && r < |rows| && i in own[r]
    ensures i < |events| && ShowsEvent(rows[r].group, events[i], l)
  {
    var place :| own[r] == EventsAt(events, |events|, l, place) && GroupComes(rows[r].group, events, |events|, l, place);
    var j :| 0 <= j < |events| && l.PlaceOf(events[j]) == place && l.Labelled(events[j]) && rows[r].group == l.GroupOf(events[j]);
    ShareARowIff(l, events[i], events[j]);
  }

  /** The events of a project's rows. */
  ghost function EventsOfProject(rows: seq<Row>, own: seq<set<nat>>, n: nat, key: Option<string>): set<nat>
    requires n <= |rows| == |own|
  {
    if n == 0 then {} else EventsOfProject(rows, own, n - 1, key) + (if OfProject(rows[n - 1], key) then own[n - 1] else {})
  }

  lemma {:induction false} ProjectEventsWithin(rows: seq<Row>, own: seq<set<nat>>, n: nat, key: Option<string>)
    requires n <= |rows| == |own|
    ensures EventsOfProject(rows, own, n, key) <= Union(own, n)
  {
    if n > 0 { ProjectEventsWithin(rows, own, n - 1, key); }
  }

  /** A project's totals are those of the events its rows count. */
  lemma {:induction false} ProjectTotalsAreItsEvents(rows: seq<Row>, own: seq<set<nat>>, events: seq<Event>, chosen: set<nat>, breakdown: bool,
                                                     n: nat, key: Option<string>)
    requires Describe(rows, own, events, chosen, breakdown, true) && n <= |rows|
    ensures ProjectTotals(rows, n, key) == TotalOf(events, EventsOfProject(rows, own, n, key))
  {
    if n == 0 {
      TotalOfNone(events);
    } else {
      ProjectTotalsAreItsEvents(rows, own, events, chosen, breakdown, n - 1, key);
      if OfProject(rows[n - 1], key) {
        ApartBefore(own, n);
        ProjectEventsWithin(rows, own, n - 1, key);
        assert RowIs(rows[n - 1], events, own[n - 1], breakdown, true);
        TotalOfUnion(events, EventsOfProject(rows, own, n - 1, key), own[n - 1]);
      } else {
        assert EventsOfProject(rows, own, n, key) == EventsOfProject(rows, own, n - 1, key);
      }
    }
  }

  function KnownCost(t: Totals): int {
    if t.costUsd.Some? then t.costUsd.value else 0
  }

  /** Some project's cost is incomplete. */
  ghost predicate SomeCostIncomplete(rows: seq<Row>) {
    exists key :: key in ProjectKeys(rows, |rows|) && ProjectTotals(rows, |rows|, key).costIncomplete
  }

  /** Project `a` is listed no later than `b`: more costly when ranked by cost, then with more tokens, then by name. */
  ghost predicate ListedNoLater(rows: seq<Row>, a: Option<string>, b: Option<string>, byCost: bool)
    requires a in ProjectKeys(rows, |rows|) && b in ProjectKeys(rows, |rows|)
  {
    var x, y := ProjectTotals(rows, |rows|, a), ProjectTotals(rows, |rows|, b);
    || (byCost && KnownCost(x) > KnownCost(y))
    || ((byCost ==> KnownCost(x) == KnownCost(y)) && x.tokens > y.tokens)
    || ((byCost ==> KnownCost(x) == KnownCost(y)) && x.tokens == y.tokens
        && !ProjectLabels.Before(FirstName(rows, |rows|, b), FirstName(rows, |rows|, a)))
  }

  /**
     Folding, from the rows alone: with at most one project more than the limit, nothing changes; else as
     many projects as the limit are kept, and each is listed no later than any that is folded.
   */
  lemma FoldKeepsTheBest(rows: seq<Row>, limit: ProjectLimit, kept: set<Option<string>>, projects: map<Option<string>, Ranked>, folded: seq<Row>)
    requires AllHaveProjects(rows, |rows|) && FoldOutcome(rows, limit, kept, projects, folded)
    ensures |ProjectKeys(rows, |rows|)| <= limit.count + 1 ==> folded == rows
    ensures |ProjectKeys(rows, |rows|)| > limit.count + 1 ==>
      && |kept| == limit.count && kept <= ProjectKeys(rows, |rows|)
      && forall a, b :: a in kept && b in ProjectKeys(rows, |rows|) - kept ==>
           ListedNoLater(rows, a, b, limit.byCost && !SomeCostIncomplete(rows))
  {
    if |ProjectKeys(rows, |rows|)| > limit.count + 1 {
      var byCost := RanksByCost(limit, projects);
      assert byCost == (limit.byCost && !SomeCostIncomplete(rows));
      forall a, b | a in kept && b in ProjectKeys(rows, |rows|) - kept ensures ListedNoLater(rows, a, b, byCost) {
        assert !Outranks(projects[b], projects[a], byCost);
      }
    }
  }
}
