/**
 Incremental ingest of one append-only file (src/persistence/event-store-append.ts,
 src/persistence/event-store-administration.ts, src/cli/build-usage-data-parsing.ts).

 A table is its rows from the greatest index down. `Adapter` stands for the source adapter: what a whole read of
 the file's first `n` bytes gives, and what a read resumed from a cursor gives. `Faithful` is the
 contract of packages/core/src/stream/cursor.ts that resumed reads keep.
 */
module IncrementalIngest {
  import opened Common

  /** One file's rows of a table, the greatest index first. */
  datatype Table<V> = Empty | Row(index: nat, value: V, older: Table<V>)

  datatype SessionEvent<T, M> = ToolCall(call: T) | Message(message: M)

  /** How many of the last rows of each kind a resumed read replaces. */
  datatype Replaced = Replaced(usage: nat, toolCalls: nat, messages: nat)

  datatype Read<U, T, M> = Read(usage: seq<U>, session: seq<SessionEvent<T, M>>, skippedRows: nat)

  datatype Resumed<U, T, M> = Resumed(read: Read<U, T, M>, replaced: Replaced)

  /** `resume(n, l)` reads bytes `n` to `l` from the cursor at `n`; `None` when the read restarts. */
  datatype Adapter<!U, !T, !M> = Adapter(whole: nat -> Read<U, T, M>, resume: (nat, nat) -> Option<Resumed<U, T, M>>)

  /** The cursor row keeps the fingerprint of the version it was written with. */
  datatype CursorRow = CursorRow(fingerprint: string, offset: nat)

  datatype StoredFile<U, T, M> = StoredFile(
    fingerprint: string, skippedRows: nat, events: Table<U>, session: SessionTables<T, M>, cursorRow: Option<CursorRow>)
  {
    /** The cursor counts only for the version it was written with. */
    function Cursor(): Option<nat> {
      if cursorRow.Some? && cursorRow.value.fingerprint == fingerprint then Some(cursorRow.value.offset) else None
    }
  }

  datatype Append = Append(expectedFingerprint: string, expectedCursor: nat, replaced: Replaced)

  datatype Write<U, T, M> = Write(
    fingerprint: string, usage: seq<U>, session: seq<SessionEvent<T, M>>, skippedRows: nat, readCursor: Option<nat>, append: Option<Append>)

  // ----- tables

  function DeleteLast<V>(t: Table<V>, count: nat): Table<V> {
    if t.Empty? || count == 0 then t else DeleteLast(t.older, count - 1)
  }

  /** One past the greatest index, or 0. */
  function IndexAfter<V>(t: Table<V>): nat {
    if t.Empty? then 0 else t.index + 1
  }

  /** The rows in index order. */
  function Values<V>(t: Table<V>): seq<V> {
    if t.Empty? then [] else Values(t.older) + [t.value]
  }

  /** The tool call and message tables, which share one index. */
  datatype SessionTables<T, M> = SessionTables(calls: Table<T>, messages: Table<M>)

  predicate NoRows<T, M>(t: SessionTables<T, M>) {
    t.calls.Empty? && t.messages.Empty?
  }

  predicate CallIsLast<T, M>(t: SessionTables<T, M>)
    requires !NoRows(t)
  {
    t.messages.Empty? || (t.calls.Row? && t.calls.index > t.messages.index)
  }

  function LastIndex<T, M>(t: SessionTables<T, M>): nat
    requires !NoRows(t)
  {
    if CallIsLast(t) then t.calls.index else t.messages.index
  }

  function Last<T, M>(t: SessionTables<T, M>): SessionEvent<T, M>
    requires !NoRows(t)
  {
    if CallIsLast(t) then ToolCall(t.calls.value) else Message(t.messages.value)
  }

  function WithoutLast<T, M>(t: SessionTables<T, M>): SessionTables<T, M>
    requires !NoRows(t)
  {
    if CallIsLast(t) then t.(calls := t.calls.older) else t.(messages := t.messages.older)
  }

  function Count<V>(t: Table<V>): nat {
    if t.Empty? then 0 else Count(t.older) + 1
  }

  /** Both tables' events by their shared index. */
  function Merged<T, M>(t: SessionTables<T, M>): seq<SessionEvent<T, M>>
    decreases Count(t.calls) + Count(t.messages)
  {
    if NoRows(t) then [] else Merged(WithoutLast(t)) + [Last(t)]
  }

  /** Every index is below `below`, and below the next one up: none is used twice. */
  predicate Ordered<T, M>(t: SessionTables<T, M>, below: nat)
    decreases Count(t.calls) + Count(t.messages)
  {
    NoRows(t) || (LastIndex(t) < below && Ordered(WithoutLast(t), LastIndex(t)))
  }

  function NextSessionIndex<T, M>(t: SessionTables<T, M>): nat {
    if IndexAfter(t.calls) >= IndexAfter(t.messages) then IndexAfter(t.calls) else IndexAfter(t.messages)
  }

  function With<T, M>(t: SessionTables<T, M>, index: nat, e: SessionEvent<T, M>): SessionTables<T, M> {
    match e
    case ToolCall(call) => t.(calls := Row(index, call, t.calls))
    case Message(message) => t.(messages := Row(index, message, t.messages))
  }

  function DeleteLastOfEach<T, M>(t: SessionTables<T, M>, calls: nat, messages: nat): SessionTables<T, M> {
    SessionTables(DeleteLast(t.calls, calls), DeleteLast(t.messages, messages))
  }

  /** The first `n` events inserted from `first` on. */
  function InsertedUsage<U>(t: Table<U>, events: seq<U>, n: nat, first: nat): Table<U>
    requires n <= |events|
  {
    if n == 0 then t else Row(first + (n - 1), events[n - 1], InsertedUsage(t, events, n - 1, first))
  }

  /** The first `n` events inserted from `first` on, each into its table. */
  function Inserted<T, M>(t: SessionTables<T, M>, events: seq<SessionEvent<T, M>>, n: nat, first: nat): SessionTables<T, M>
    requires n <= |events|
  {
    if n == 0 then t else With(Inserted(t, events, n - 1, first), first + (n - 1), events[n - 1])
  }

  // ----- the write

  predicate Continues<U, T, M>(stored: Option<StoredFile<U, T, M>>, append: Append) {
    stored.Some? && stored.value.fingerprint == append.expectedFingerprint && stored.value.Cursor() == Some(append.expectedCursor)
  }

  /** The rows a write adds to: none for a whole read, all but the replaced ones for a resumed read. */
  function KeptRows<U, T, M>(stored: Option<StoredFile<U, T, M>>, append: Option<Append>): StoredFile<U, T, M>
    requires append.Some? ==> stored.Some?
  {
    match append
    case None => StoredFile("", 0, Empty, SessionTables(Empty, Empty), None)
    case Some(a) =>
      var file := stored.value;
      file.(events := DeleteLast(file.events, a.replaced.usage),
                               session := DeleteLastOfEach(file.session, a.replaced.toolCalls, a.replaced.messages))
  }

  /** The file once the write is applied; a stale append leaves it as it is. */
  function Written<U, T, M>(stored: Option<StoredFile<U, T, M>>, w: Write<U, T, M>): Option<StoredFile<U, T, M>> {
    if w.append.Some? && !Continues(stored, w.append.value) then stored
    else
      var kept := KeptRows(stored, w.append);
      Some(StoredFile(
             w.fingerprint, w.skippedRows,
             InsertedUsage(kept.events, w.usage, |w.usage|, IndexAfter(kept.events)),
             Inserted(kept.session, w.session, |w.session|, NextSessionIndex(kept.session)),
             if w.readCursor.Some? then Some(CursorRow(w.fingerprint, w.readCursor.value)) else None))
  }

  // ----- what an adapter promises, and what the store holds

  function DropLast<V>(s: seq<V>, count: nat): seq<V> {
    if count >= |s| then [] else s[..|s| - count]
  }

  /** The last `calls` tool calls and `messages` messages dropped, wherever they lie. */
  function DropKinds<T, M>(events: seq<SessionEvent<T, M>>, calls: nat, messages: nat): seq<SessionEvent<T, M>> {
    if events == [] then []
    else
      var before, last := events[..|events| - 1], events[|events| - 1];
      if last.ToolCall? && calls > 0 then DropKinds(before, calls - 1, messages)
      else if last.Message? && messages > 0 then DropKinds(before, calls, messages - 1)
      else DropKinds(before, calls, messages) + [last]
  }

  function Joined<U, T, M>(before: Read<U, T, M>, resumed: Resumed<U, T, M>): Read<U, T, M> {
    Read(DropLast(before.usage, resumed.replaced.usage) + resumed.read.usage,
         DropKinds(before.session, resumed.replaced.toolCalls, resumed.replaced.messages) + resumed.read.session,
         before.skippedRows + resumed.read.skippedRows)
  }

  /** A resumed read joined to the read it continues is a whole read, and it replaces only what was there. */
  ghost predicate Faithful<U, T, M>(adapter: Adapter<U, T, M>) {
    forall n, l :: adapter.resume(n, l).Some? ==>
                     && adapter.whole(l) == Joined(adapter.whole(n), adapter.resume(n, l).value)
                     && adapter.resume(n, l).value.replaced.usage <= |adapter.whole(n).usage|
  }

  /** The rows are numbered from 0 up without a gap. */
  predicate Contiguous<V>(t: Table<V>) {
    t.Empty? || (t.index == Count(t.older) && Contiguous(t.older))
  }

  ghost predicate UsageRowsAre<U>(t: Table<U>, usage: seq<U>) {
    Contiguous(t) && Values(t) == usage
  }

  /** The rows are those of a whole read of the first `l` bytes, and a counting cursor is at `l`. */
  ghost predicate HoldsReadTo<U, T, M>(adapter: Adapter<U, T, M>, file: StoredFile<U, T, M>, l: nat) {
    && UsageRowsAre(file.events, adapter.whole(l).usage)
    && Ordered(file.session, NextSessionIndex(file.session)) && Merged(file.session) == adapter.whole(l).session
    && file.skippedRows == adapter.whole(l).skippedRows
    && (file.Cursor().Some? ==> file.Cursor().value == l)
  }

  ghost predicate HoldsWholeRead<U, T, M>(adapter: Adapter<U, T, M>, stored: Option<StoredFile<U, T, M>>) {
    stored.Some? ==> exists l :: HoldsReadTo(adapter, stored.value, l)
  }

  /** A write of a whole read, or of a read resumed from the cursor the write expects. */
  ghost predicate WritesReadTo<U, T, M>(adapter: Adapter<U, T, M>, w: Write<U, T, M>, l: nat) {
    && (w.readCursor.Some? ==> w.readCursor.value == l)
    && w.skippedRows == adapter.whole(l).skippedRows
    && match w.append {
         case None => w.usage == adapter.whole(l).usage && w.session == adapter.whole(l).session
         case Some(a) =>
           var resumed := adapter.resume(a.expectedCursor, l);
           resumed.Some? && w.usage == resumed.value.read.usage && w.session == resumed.value.read.session && a.replaced == resumed.value.replaced
       }
  }

  // ----- one write

  lemma {:induction false} UsageDeleted<U>(t: Table<U>, count: nat)
    requires Contiguous(t)
    ensures Contiguous(DeleteLast(t, count)) && Values(DeleteLast(t, count)) == DropLast(Values(t), count)
  {
    if t.Row? && count > 0 {
      UsageDeleted(t.older, count - 1);
      assert DropLast(Values(t), count) == DropLast(Values(t.older), count - 1);
    }
  }

  lemma {:induction false} CountIsNext<U>(t: Table<U>)
    requires Contiguous(t)
    ensures IndexAfter(t) == Count(t)
  {
  }

  lemma {:induction false} UsageInserted<U>(t: Table<U>, events: seq<U>, n: nat)
    requires Contiguous(t) && n <= |events|
    ensures UsageRowsAre(InsertedUsage(t, events, n, Count(t)), Values(t) + events[..n])
    ensures Count(InsertedUsage(t, events, n, Count(t))) == Count(t) + n
  {
    if n > 0 {
      UsageInserted(t, events, n - 1);
      assert events[..n] == events[..n - 1] + [events[n - 1]];
      assert Values(t) + events[..n] == Values(t) + events[..n - 1] + [events[n - 1]];
    } else {
      assert Values(t) + events[..0] == Values(t);
    }
  }

  lemma UsageAppended<U>(t: Table<U>, usage: seq<U>, dropped: nat, events: seq<U>)
    requires UsageRowsAre(t, usage)
    ensures var kept := DeleteLast(t, dropped);
      UsageRowsAre(InsertedUsage(kept, events, |events|, IndexAfter(kept)), DropLast(usage, dropped) + events)
  {
    UsageDeleted(t, dropped);
    CountIsNext(DeleteLast(t, dropped));
    UsageInserted(DeleteLast(t, dropped), events, |events|);
    assert events[..|events|] == events;
  }

  ghost function Indexes<V>(t: Table<V>): set<nat> {
    if t.Empty? then {} else Indexes(t.older) + {t.index}
  }

  /** No index is used twice, within a table or across the two. */
  lemma {:induction false} OrderedMeansDistinct<T, M>(t: SessionTables<T, M>, below: nat)
    requires Ordered(t, below)
    ensures Indexes(t.calls) !! Indexes(t.messages)
    ensures |Indexes(t.calls)| == Count(t.calls) && |Indexes(t.messages)| == Count(t.messages)
    ensures forall i :: i in Indexes(t.calls) + Indexes(t.messages) ==> i < below
    decreases Count(t.calls) + Count(t.messages)
  {
    if !NoRows(t) {
      var before := WithoutLast(t);
      OrderedMeansDistinct(before, LastIndex(t));
      assert LastIndex(t) !in Indexes(before.calls) + Indexes(before.messages);
      if CallIsLast(t) {
        assert Indexes(t.calls) == Indexes(before.calls) + {LastIndex(t)};
      } else {
        assert Indexes(t.messages) == Indexes(before.messages) + {LastIndex(t)};
      }
    }
  }

  lemma NextIsAbove<T, M>(t: SessionTables<T, M>, below: nat)
    requires Ordered(t, below)
    ensures Ordered(t, NextSessionIndex(t))
  {
  }

  lemma AppendOne<T, M>(t: SessionTables<T, M>, index: nat, e: SessionEvent<T, M>)
    requires Ordered(t, index)
    ensures Ordered(With(t, index, e), index + 1) && Merged(With(t, index, e)) == Merged(t) + [e]
  {
    var more := With(t, index, e);
    assert Last(more) == e && LastIndex(more) == index && WithoutLast(more) == t;
  }

  lemma DropKindsAppend<T, M>(events: seq<SessionEvent<T, M>>, last: SessionEvent<T, M>, calls: nat, messages: nat)
    ensures DropKinds(events + [last], calls, messages) ==
      if last.ToolCall? && calls > 0 then DropKinds(events, calls - 1, messages)
      else if last.Message? && messages > 0 then DropKinds(events, calls, messages - 1)
      else DropKinds(events, calls, messages) + [last]
  {
    assert (events + [last])[..|events|] == events;
  }

  /** Deleting deletes the last row, or keeps it at the end. */
  lemma DeleteUnfold<T, M>(t: SessionTables<T, M>, calls: nat, messages: nat)
    requires !NoRows(t)
    ensures var before := WithoutLast(t);
      DeleteLastOfEach(t, calls, messages) ==
      if CallIsLast(t) && calls > 0 then DeleteLastOfEach(before, calls - 1, messages)
      else if !CallIsLast(t) && messages > 0 then DeleteLastOfEach(before, calls, messages - 1)
      else With(DeleteLastOfEach(before, calls, messages), LastIndex(t), Last(t))
  {
  }

  /** Deleting the last rows of each table drops the last events of each kind from the merged order. */
  lemma {:induction false} MergedDrop<T, M>(t: SessionTables<T, M>, below: nat, calls: nat, messages: nat)
    requires Ordered(t, below)
    ensures var left := DeleteLastOfEach(t, calls, messages);
      Ordered(left, below) && Merged(left) == DropKinds(Merged(t), calls, messages)
    decreases Count(t.calls) + Count(t.messages)
  {
    if !NoRows(t) {
      var before := WithoutLast(t);
      DeleteUnfold(t, calls, messages);
      DropKindsAppend(Merged(before), Last(t), calls, messages);
      if CallIsLast(t) && calls > 0 {
        MergedDrop(before, LastIndex(t), calls - 1, messages);
        OrderedHigher(DeleteLastOfEach(t, calls, messages), LastIndex(t), below);
      } else if !CallIsLast(t) && messages > 0 {
        MergedDrop(before, LastIndex(t), calls, messages - 1);
        OrderedHigher(DeleteLastOfEach(t, calls, messages), LastIndex(t), below);
      } else {
        MergedDrop(before, LastIndex(t), calls, messages);
        AppendOne(DeleteLastOfEach(before, calls, messages), LastIndex(t), Last(t));
        OrderedHigher(DeleteLastOfEach(t, calls, messages), LastIndex(t) + 1, below);
      }
    }
  }

  lemma OrderedHigher<T, M>(t: SessionTables<T, M>, below: nat, higher: nat)
    requires Ordered(t, below) && below <= higher
    ensures Ordered(t, higher)
  {
  }

  /** The tables are in order below `below` and hold these events, in this order. */
  ghost predicate SessionRowsAre<T, M>(t: SessionTables<T, M>, below: nat, events: seq<SessionEvent<T, M>>) {
    Ordered(t, below) && Merged(t) == events
  }

  lemma InsertNext<T, M>(t: SessionTables<T, M>, index: nat, before: seq<SessionEvent<T, M>>, events: seq<SessionEvent<T, M>>, n: nat)
    requires n < |events| && SessionRowsAre(t, index, before + events[..n])
    ensures SessionRowsAre(With(t, index, events[n]), index + 1, before + events[..n + 1])
  {
    AppendOne(t, index, events[n]);
    assert before + events[..n + 1] == before + events[..n] + [events[n]];
  }

  /** Rows written from `first` on come after every stored row, in the order they were read. */
  lemma {:induction false} SessionAppended<T, M>(t: SessionTables<T, M>, events: seq<SessionEvent<T, M>>, n: nat, first: nat)
    requires Ordered(t, first) && n <= |events|
    ensures SessionRowsAre(Inserted(t, events, n, first), first + n, Merged(t) + events[..n])
  {
    if n == 0 {
      assert Merged(t) + events[..0] == Merged(t);
    } else {
      SessionAppended(t, events, n - 1, first);
      InsertNext(Inserted(t, events, n - 1, first), first + (n - 1), Merged(t), events, n - 1);
    }
  }

  lemma KeptHolds<U, T, M>(adapter: Adapter<U, T, M>, stored: Option<StoredFile<U, T, M>>, w: Write<U, T, M>, l: nat)
    requires Faithful(adapter) && HoldsWholeRead(adapter, stored) && WritesReadTo(adapter, w, l)
    requires w.append.Some? ==> Continues(stored, w.append.value)
    ensures var kept := KeptRows(stored, w.append);
      && Ordered(kept.session, NextSessionIndex(kept.session)) && Merged(kept.session) + w.session == adapter.whole(l).session
      && UsageRowsAre(InsertedUsage(kept.events, w.usage, |w.usage|, IndexAfter(kept.events)), adapter.whole(l).usage)
  {
    if w.append.Some? {
      var a, file := w.append.value, stored.value;
      var n :| HoldsReadTo(adapter, file, n);
      assert n == a.expectedCursor;
      UsageAppended(file.events, adapter.whole(n).usage, a.replaced.usage, w.usage);
      MergedDrop(file.session, NextSessionIndex(file.session), a.replaced.toolCalls, a.replaced.messages);
      NextIsAbove(KeptRows(stored, w.append).session, NextSessionIndex(file.session));
    } else {
      UsageAppended<U>(Empty, [], 0, w.usage);
      assert [] + w.usage == w.usage && [] + w.session == w.session;
    }
  }

  /** A write that is not stale makes the stored rows those of the whole read it ends at. */
  lemma WriteStoresWholeRead<U, T, M>(adapter: Adapter<U, T, M>, stored: Option<StoredFile<U, T, M>>, w: Write<U, T, M>, l: nat)
    requires Faithful(adapter) && HoldsWholeRead(adapter, stored) && WritesReadTo(adapter, w, l)
    requires w.append.Some? ==> Continues(stored, w.append.value)
    ensures Written(stored, w).Some? && HoldsReadTo(adapter, Written(stored, w).value, l)
  {
    var kept := KeptRows(stored, w.append);
    var first := NextSessionIndex(kept.session);
    KeptHolds(adapter, stored, w, l);
    SessionAppended(kept.session, w.session, |w.session|, first);
    assert w.session[..|w.session|] == w.session;
    NextIsAbove(Inserted(kept.session, w.session, |w.session|, first), first + |w.session|);
  }

  // ----- runs

  function WholeWrite<U, T, M>(adapter: Adapter<U, T, M>, fingerprint: string, l: nat, withCursor: bool): Write<U, T, M> {
    var read := adapter.whole(l);
    Write(fingerprint, read.usage, read.session, read.skippedRows, if withCursor then Some(l) else None, None)
  }

  /** What a run keeps of the stored version it resumes, from one read snapshot. */
  datatype ResumePoint<U> = ResumePoint(cursor: nat, storedFingerprint: string, events: seq<U>, skippedRows: nat)

  function ReadResumePoint<U, T, M>(stored: Option<StoredFile<U, T, M>>): Option<ResumePoint<U>> {
    if stored.Some? && stored.value.Cursor().Some? then
      var file := stored.value;
      Some(ResumePoint(file.Cursor().value, file.fingerprint, Values(file.events), file.skippedRows))
    else None
  }

  /** The usage a run reports for a file it resumed: the stored events it keeps, then its own. */
  function JoinResumedRead<U, T, M>(point: ResumePoint<U>, resumed: Resumed<U, T, M>): (seq<U>, nat)
    requires resumed.replaced.usage <= |point.events|
  {
    (point.events[..|point.events| - resumed.replaced.usage] + resumed.read.usage, point.skippedRows + resumed.read.skippedRows)
  }

  function ResumedWrite<U, T, M>(point: ResumePoint<U>, resumed: Resumed<U, T, M>, fingerprint: string, l: nat): Write<U, T, M> {
    Write(fingerprint, resumed.read.usage, resumed.read.session, point.skippedRows + resumed.read.skippedRows, Some(l),
          Some(Append(point.storedFingerprint, point.cursor, resumed.replaced)))
  }

  /** What a run that resumed the file stored at the time writes. */
  function PendingAppend<U, T, M>(adapter: Adapter<U, T, M>, resumed: Option<StoredFile<U, T, M>>, fingerprint: string, l: nat): Option<Write<U, T, M>> {
    var point := ReadResumePoint(resumed);
    var read := if point.Some? then adapter.resume(point.value.cursor, l) else None;
    if read.Some? then Some(ResumedWrite(point.value, read.value, fingerprint, l)) else None
  }

  /** The stored file, and the writes of all runs that have read it and not yet flushed. */
  datatype World<U, T, M> = World(stored: Option<StoredFile<U, T, M>>, pending: seq<Write<U, T, M>>)

  /** `l` is where the file ends when the run reads it; the file may grow at any time. */
  datatype Step =
    | ReadWhole(fingerprint: string, l: nat, withCursor: bool)
    | ReadGrown(fingerprint: string, l: nat)
    | Flush(write: nat)
    | DeleteFile
    | OlderBuildWrite(fingerprint: string, l: nat)

  /** A build that does not know cursors replaces the rows and leaves the cursor row. */
  function OlderBuildWritten<U, T, M>(adapter: Adapter<U, T, M>, stored: Option<StoredFile<U, T, M>>, fingerprint: string, l: nat)
    : StoredFile<U, T, M>
  {
    var row := if stored.Some? then stored.value.cursorRow else None;
    Written(None, WholeWrite(adapter, fingerprint, l, false)).value.(cursorRow := row)
  }

  /** The cursor row an older build leaves is not of the version it stores, or its read and the cursor's are one. */
  ghost predicate CursorRowFits<U, T, M>(adapter: Adapter<U, T, M>, stored: Option<StoredFile<U, T, M>>, fingerprint: string, l: nat) {
    var row := if stored.Some? then stored.value.cursorRow else None;
    row.None? || row.value.fingerprint != fingerprint || adapter.whole(row.value.offset) == adapter.whole(l)
  }

  function Next<U, T, M>(adapter: Adapter<U, T, M>, w: World<U, T, M>, step: Step): World<U, T, M> {
    match step
    case ReadWhole(fingerprint, l, withCursor) => w.(pending := w.pending + [WholeWrite(adapter, fingerprint, l, withCursor)])
    case ReadGrown(fingerprint, l) =>
      var append := PendingAppend(adapter, w.stored, fingerprint, l);
      w.(pending := w.pending + [if append.Some? then append.value else WholeWrite(adapter, fingerprint, l, true)])
    case Flush(i) =>
      if i < |w.pending| then World(Written(w.stored, w.pending[i]), w.pending[..i] + w.pending[i + 1..]) else w
    case DeleteFile => w.(stored := None)
    case OlderBuildWrite(fingerprint, l) => w.(stored := Some(OlderBuildWritten(adapter, w.stored, fingerprint, l)))
  }

  function Run<U, T, M>(adapter: Adapter<U, T, M>, steps: seq<Step>): World<U, T, M> {
    if steps == [] then World(None, []) else Next(adapter, Run(adapter, steps[..|steps| - 1]), steps[|steps| - 1])
  }

  ghost predicate WritesWholeRead<U, T, M>(adapter: Adapter<U, T, M>, w: Write<U, T, M>) {
    exists l :: WritesReadTo(adapter, w, l)
  }

  ghost predicate Inv<U, T, M>(adapter: Adapter<U, T, M>, w: World<U, T, M>) {
    HoldsWholeRead(adapter, w.stored) && forall i :: 0 <= i < |w.pending| ==> WritesWholeRead(adapter, w.pending[i])
  }

  /** A run that resumes reports, and writes, the whole read of the file. */
  lemma ResumedRunReadsWhole<U, T, M>(adapter: Adapter<U, T, M>, stored: Option<StoredFile<U, T, M>>, fingerprint: string, l: nat)
    requires Faithful(adapter) && HoldsWholeRead(adapter, stored) && ReadResumePoint(stored).Some?
    requires adapter.resume(ReadResumePoint(stored).value.cursor, l).Some?
    ensures var point := ReadResumePoint(stored).value;
      var resumed := adapter.resume(point.cursor, l).value;
      && WritesReadTo(adapter, ResumedWrite(point, resumed, fingerprint, l), l)
      && resumed.replaced.usage <= |point.events|
      && JoinResumedRead(point, resumed) == (adapter.whole(l).usage, adapter.whole(l).skippedRows)
  {
    var n :| HoldsReadTo(adapter, stored.value, n);
    assert n == ReadResumePoint(stored).value.cursor;
  }

  lemma WholeWriteReadsWhole<U, T, M>(adapter: Adapter<U, T, M>, fingerprint: string, l: nat, withCursor: bool)
    ensures WritesWholeRead(adapter, WholeWrite(adapter, fingerprint, l, withCursor))
  {
    assert WritesReadTo(adapter, WholeWrite(adapter, fingerprint, l, withCursor), l);
  }

  lemma FlushKeeps<U, T, M>(adapter: Adapter<U, T, M>, stored: Option<StoredFile<U, T, M>>, w: Write<U, T, M>)
    requires Faithful(adapter) && HoldsWholeRead(adapter, stored) && WritesWholeRead(adapter, w)
    ensures HoldsWholeRead(adapter, Written(stored, w))
  {
    if w.append.None? || Continues(stored, w.append.value) {
      var l :| WritesReadTo(adapter, w, l);
      WriteStoresWholeRead(adapter, stored, w, l);
    }
  }

  lemma OlderBuildStoresWholeRead<U, T, M>(adapter: Adapter<U, T, M>, fingerprint: string, l: nat)
    requires Faithful(adapter)
    ensures HoldsReadTo(adapter, OlderBuildWritten(adapter, None, fingerprint, l), l)
  {
    var write := WholeWrite(adapter, fingerprint, l, false);
    assert WritesReadTo(adapter, write, l);
    WriteStoresWholeRead(adapter, None, write, l);
  }

  /** An older build's write leaves the rows of a whole read, with a cursor that is its end if it counts, exactly when the cursor row fits. */
  lemma OlderBuildKeepsIff<U, T, M>(adapter: Adapter<U, T, M>, stored: Option<StoredFile<U, T, M>>, fingerprint: string, l: nat)
    requires Faithful(adapter)
    ensures HoldsWholeRead(adapter, Some(OlderBuildWritten(adapter, stored, fingerprint, l))) <==> CursorRowFits(adapter, stored, fingerprint, l)
  {
    OlderBuildStoresWholeRead(adapter, fingerprint, l);
    var file := OlderBuildWritten(adapter, stored, fingerprint, l);
    var bare := OlderBuildWritten(adapter, None, fingerprint, l);
    assert file.events == bare.events && file.session == bare.session && file.skippedRows == bare.skippedRows;
    forall n | HoldsReadTo(adapter, file, n) ensures adapter.whole(n) == adapter.whole(l) {
    }
    if file.Cursor().None? {
      assert HoldsReadTo(adapter, file, l);
    } else if CursorRowFits(adapter, stored, fingerprint, l) {
      assert HoldsReadTo(adapter, file, file.Cursor().value);
    }
  }

  /** The step is no older build's write, or the cursor row it leaves fits. */
  ghost predicate StepFits<U, T, M>(adapter: Adapter<U, T, M>, w: World<U, T, M>, step: Step) {
    step.OlderBuildWrite? ==> CursorRowFits(adapter, w.stored, step.fingerprint, step.l)
  }

  lemma NextKeeps<U, T, M>(adapter: Adapter<U, T, M>, w: World<U, T, M>, step: Step)
    requires Faithful(adapter) && Inv(adapter, w)
    ensures Inv(adapter, Next(adapter, w, step)) <==> StepFits(adapter, w, step)
  {
    match step {
      case ReadWhole(fingerprint, l, withCursor) => WholeWriteReadsWhole(adapter, fingerprint, l, withCursor);
      case ReadGrown(fingerprint, l) =>
        WholeWriteReadsWhole(adapter, fingerprint, l, true);
        var point := ReadResumePoint(w.stored);
        if point.Some? && adapter.resume(point.value.cursor, l).Some? {
          ResumedRunReadsWhole(adapter, w.stored, fingerprint, l);
        }
      case Flush(i) =>
        if i < |w.pending| { FlushKeeps(adapter, w.stored, w.pending[i]); }
      case DeleteFile =>
      case OlderBuildWrite(fingerprint, l) => OlderBuildKeepsIff(adapter, w.stored, fingerprint, l);
    }
  }

  /** Every older build's write of the run fits the cursor row it finds. */
  ghost predicate RunFits<U, T, M>(adapter: Adapter<U, T, M>, steps: seq<Step>) {
    steps == [] || (RunFits(adapter, steps[..|steps| - 1]) && StepFits(adapter, Run(adapter, steps[..|steps| - 1]), steps[|steps| - 1]))
  }

  /** Every state of the run holds the rows of a whole read, and the cursor of its end. */
  ghost predicate RunHolds<U, T, M>(adapter: Adapter<U, T, M>, steps: seq<Step>) {
    (steps == [] || RunHolds(adapter, steps[..|steps| - 1])) && Inv(adapter, Run(adapter, steps))
  }

  /**
     Under any interleaving of whole and resumed reads and their writes, the stored rows are always those
     of a whole read, up to the stored cursor, if and only if each older build's write fits the cursor row.
   */
  lemma {:induction false} StoredRowsAreAWholeRead<U, T, M>(adapter: Adapter<U, T, M>, steps: seq<Step>)
    requires Faithful(adapter)
    ensures RunHolds(adapter, steps) <==> RunFits(adapter, steps)
  {
    if steps != [] {
      var before := steps[..|steps| - 1];
      StoredRowsAreAWholeRead(adapter, before);
      if RunFits(adapter, before) { NextKeeps(adapter, Run(adapter, before), steps[|steps| - 1]); }
    }
  }

  // ----- an older build's write that does not fit

  /** Byte `n` of the file is event `n`. */
  function Bytes(n: nat, l: nat): seq<nat>
    requires n <= l
  {
    seq(l - n, i requires 0 <= i => n + i)
  }

  function BytesAdapter(): Adapter<nat, nat, nat> {
    Adapter((l: nat) => Read(Bytes(0, l), [], 0),
            (n: nat, l: nat) => if n <= l then Some(Resumed(Read(Bytes(n, l), [], 0), Replaced(0, 0, 0))) else None)
  }

  lemma BytesAreFaithful()
    ensures Faithful(BytesAdapter())
  {
    forall n, l | BytesAdapter().resume(n, l).Some?
      ensures BytesAdapter().whole(l) == Joined(BytesAdapter().whole(n), BytesAdapter().resume(n, l).value)
    {
      assert Bytes(0, l) == Bytes(0, n) + Bytes(n, l);
    }
  }

  lemma AfterStep<U, T, M>(adapter: Adapter<U, T, M>, steps: seq<Step>, step: Step, after: World<U, T, M>) returns (more: seq<Step>)
    requires Next(adapter, Run(adapter, steps), step) == after
    ensures more == steps + [step] && Run(adapter, more) == after
  {
    more := steps + [step];
    assert more[..|steps|] == steps;
  }

  /** A read to 1 is stored with its cursor, and an older build stores a read to 2 as the same version. */
  lemma OlderBuildOverwrites<U, T, M>(adapter: Adapter<U, T, M>) returns (steps: seq<Step>)
    ensures var first := Written(None, WholeWrite(adapter, "F1", 1, true));
      Run(adapter, steps) == World(Some(OlderBuildWritten(adapter, first, "F1", 2)), [])
  {
    var write := WholeWrite(adapter, "F1", 1, true);
    var none: seq<Write<U, T, M>> := [];
    steps := AfterStep(adapter, [], ReadWhole("F1", 1, true), World(None, [write]));
    steps := AfterStep(adapter, steps, Flush(0), World(Written(None, write), none));
    steps := AfterStep(adapter, steps, OlderBuildWrite("F1", 2),
                       World(Some(OlderBuildWritten(adapter, Written(None, write), "F1", 2)), none));
  }

  /** A run resumes the stored file to byte `l`, and its append is stored. */
  lemma ResumeAndFlush<U, T, M>(adapter: Adapter<U, T, M>, before: seq<Step>, fingerprint: string, l: nat) returns (steps: seq<Step>)
    requires Run(adapter, before).pending == [] && PendingAppend(adapter, Run(adapter, before).stored, fingerprint, l).Some?
    ensures var stored := Run(adapter, before).stored;
      Run(adapter, steps).stored == Written(stored, PendingAppend(adapter, stored, fingerprint, l).value)
  {
    var stored := Run(adapter, before).stored;
    var write := PendingAppend(adapter, stored, fingerprint, l).value;
    steps := AfterStep(adapter, before, ReadGrown(fingerprint, l), World(stored, [write]));
    steps := AfterStep(adapter, steps, Flush(0), World(Written(stored, write), []));
  }

  /**
     A write that does not fit breaks the promise: after an older build stored a read to 2 over the
     cursor at 1, a read resumed from 1 appends byte 1 once more.
   */
  lemma OlderBuildCanRepeatRows()
    ensures Faithful(BytesAdapter())
    ensures exists steps :: var stored := Run(BytesAdapter(), steps).stored;
      stored.Some? && Values(stored.value.events) == [0, 1, 1] && !HoldsWholeRead(BytesAdapter(), stored)
  {
    var a := BytesAdapter();
    BytesAreFaithful();
    var steps := OlderBuildOverwrites(a);
    var older := Run(a, steps).stored.value;
    OlderBuildStoresWholeRead(a, "F1", 2);
    steps := ResumeAndFlush(a, steps, "F2", 2);
    var stored := Run(a, steps).stored;
    MixedRows(older.events, 2, 1);
    assert Values(stored.value.events) == [0, 1, 1];
    NoReadRepeats();
  }

  lemma NoReadRepeats()
    ensures forall l :: BytesAdapter().whole(l).usage != [0, 1, 1]
  {
    forall l: nat ensures BytesAdapter().whole(l).usage != [0, 1, 1] {
      if l > 2 { assert Bytes(0, l)[2] == 2; }
    }
  }

  /** Rows of the first `n` bytes with the bytes from `from` on appended. */
  lemma MixedRows(t: Table<nat>, n: nat, from: nat)
    requires from <= n && UsageRowsAre(t, Bytes(0, n))
    ensures var rows := InsertedUsage(DeleteLast(t, 0), Bytes(from, n), n - from, IndexAfter(DeleteLast(t, 0)));
      Values(rows) == Bytes(0, n) + Bytes(from, n)
  {
    UsageAppended(t, Bytes(0, n), 0, Bytes(from, n));
  }

  // ----- an append and the version it continues

  /** The stored file is of the version, and at the cursor, of the one that was resumed. */
  predicate StillStored<U, T, M>(now: Option<StoredFile<U, T, M>>, resumed: Option<StoredFile<U, T, M>>)
    requires resumed.Some?
  {
    now.Some? && now.value.fingerprint == resumed.value.fingerprint && now.value.Cursor() == resumed.value.Cursor()
  }

  /** The store holds the usage and the count of skipped rows that the run reports. */
  ghost predicate HoldsReport<U, T, M>(adapter: Adapter<U, T, M>, stored: Option<StoredFile<U, T, M>>, resumed: Option<StoredFile<U, T, M>>, l: nat)
    requires ReadResumePoint(resumed).Some? && adapter.resume(ReadResumePoint(resumed).value.cursor, l).Some?
  {
    var point := ReadResumePoint(resumed).value;
    var read := adapter.resume(point.cursor, l).value;
    && stored.Some? && read.replaced.usage <= |point.events|
    && JoinResumedRead(point, read) == (Values(stored.value.events), stored.value.skippedRows)
  }

  lemma AppendStoresReport<U, T, M>(adapter: Adapter<U, T, M>, now: Option<StoredFile<U, T, M>>, resumed: Option<StoredFile<U, T, M>>,
                                    fingerprint: string, l: nat)
    requires Faithful(adapter) && HoldsWholeRead(adapter, now) && HoldsWholeRead(adapter, resumed)
    requires PendingAppend(adapter, resumed, fingerprint, l).Some?
    ensures var after := Written(now, PendingAppend(adapter, resumed, fingerprint, l).value);
      if StillStored(now, resumed) then HoldsReport(adapter, after, resumed, l) else after == now
  {
    if StillStored(now, resumed) {
      ResumedRunReadsWhole(adapter, resumed, fingerprint, l);
      WriteStoresWholeRead(adapter, now, PendingAppend(adapter, resumed, fingerprint, l).value, l);
    }
  }

  lemma {:induction false} PrefixFits<U, T, M>(adapter: Adapter<U, T, M>, steps: seq<Step>, n: nat)
    requires RunFits(adapter, steps) && n <= |steps|
    ensures RunFits(adapter, steps[..n])
  {
    if n == |steps| {
      assert steps[..n] == steps;
    } else {
      PrefixFits(adapter, steps[..|steps| - 1], n);
      assert steps[..|steps| - 1][..n] == steps[..n];
    }
  }

  /**
     Whatever other runs store between a run's resumed read and its write, the write leaves exactly the
     usage the run reports when the version it resumed is stored, and else changes nothing.
   */
  lemma AppendStoresReportOrNothing<U, T, M>(adapter: Adapter<U, T, M>, steps: seq<Step>, n: nat, i: nat, fingerprint: string, l: nat)
    requires Faithful(adapter) && RunFits(adapter, steps) && n <= |steps|
    requires var resumed, now := Run(adapter, steps[..n]).stored, Run(adapter, steps);
      && PendingAppend(adapter, resumed, fingerprint, l).Some?
      && i < |now.pending| && now.pending[i] == PendingAppend(adapter, resumed, fingerprint, l).value
    ensures var resumed, now := Run(adapter, steps[..n]).stored, Run(adapter, steps).stored;
      var after := Next(adapter, Run(adapter, steps), Flush(i)).stored;
      if StillStored(now, resumed) then HoldsReport(adapter, after, resumed, l) else after == now
  {
    PrefixFits(adapter, steps, n);
    StoredRowsAreAWholeRead(adapter, steps[..n]);
    StoredRowsAreAWholeRead(adapter, steps);
    AppendStoresReport(adapter, Run(adapter, steps).stored, Run(adapter, steps[..n]).stored, fingerprint, l);
  }

  // ----- the version and cursor a write leaves

  /** A write that is not stale leaves its own version, and its own cursor, or none. */
  lemma WriteRecordsVersion<U, T, M>(stored: Option<StoredFile<U, T, M>>, w: Write<U, T, M>)
    requires w.append.Some? ==> Continues(stored, w.append.value)
    ensures Written(stored, w).Some? && Written(stored, w).value.fingerprint == w.fingerprint && Written(stored, w).value.Cursor() == w.readCursor
  {
  }

  /** What a run that reads the file to `l` writes when it resumes from `cursor` of version `version`. */
  ghost predicate Resumes<U, T, M>(adapter: Adapter<U, T, M>, w: Write<U, T, M>, version: string, cursor: nat, l: nat)
    requires adapter.resume(cursor, l).Some?
  {
    var read := adapter.resume(cursor, l).value;
    && w.append == Some(Append(version, cursor, read.replaced)) && w.readCursor == Some(l)
    && w.usage == read.read.usage && w.session == read.read.session
  }

  /**
     The next run reads on from the cursor a write left, when it left one and the read can resume there;
     else it reads the whole file.
   */
  lemma NextRunResumesIff<U, T, M>(adapter: Adapter<U, T, M>, world: World<U, T, M>, i: nat, fingerprint: string, l: nat)
    requires i < |world.pending| && (world.pending[i].append.Some? ==> Continues(world.stored, world.pending[i].append.value))
    ensures var flushed, after := world.pending[i], Next(adapter, Next(adapter, world, Flush(i)), ReadGrown(fingerprint, l));
      && |after.pending| == |world.pending|
      && var write := after.pending[|after.pending| - 1];
         && write.fingerprint == fingerprint
         && if flushed.readCursor.Some? && adapter.resume(flushed.readCursor.value, l).Some?
            then Resumes(adapter, write, flushed.fingerprint, flushed.readCursor.value, l)
            else write == WholeWrite(adapter, fingerprint, l, true)
  {
    WriteRecordsVersion(world.stored, world.pending[i]);
  }

  // ----- the store

  function Stored<U, T, M>(files: map<string, StoredFile<U, T, M>>, path: string): Option<StoredFile<U, T, M>> {
    if path in files then Some(files[path]) else None
  }

  /** All files once the first `n` writes of a batch are applied, in order. */
  function AllWritten<U, T, M>(files: map<string, StoredFile<U, T, M>>, writes: seq<(string, Write<U, T, M>)>, n: nat)
    : map<string, StoredFile<U, T, M>>
    requires n <= |writes|
  {
    if n == 0 then files
    else
      var before := AllWritten(files, writes, n - 1);
      var (path, w) := writes[n - 1];
      match Written(Stored(before, path), w)
      case None => before
      case Some(file) => before[path := file]
  }

  /** The tables of the event store, by file. */
  class EventStore<U, T, M> {
    var files: map<string, StoredFile<U, T, M>>

    constructor ()
      ensures files == map[]
    {
      files := map[];
    }

    /**
       Where a resumed read's rows start, with the rows it replaces deleted; nothing, with
       nothing deleted, when another version or another cursor is stored.
     */
    method PrepareFileAppend(path: string, append: Append) returns (next: Option<(nat, nat)>)
      modifies this
      ensures next.None? <==> !Continues(Stored(old(files), path), append)
      ensures next.None? ==> files == old(files)
      ensures next.Some? ==>
        var kept := KeptRows(Stored(old(files), path), Some(append));
        files == old(files)[path := kept] && next.value == (IndexAfter(kept.events), NextSessionIndex(kept.session))
    {
      if path !in files || files[path].fingerprint != append.expectedFingerprint
         || files[path].cursorRow.None? || files[path].cursorRow.value.fingerprint != files[path].fingerprint
         || files[path].cursorRow.value.offset != append.expectedCursor {
        return None;
      }
      var file := files[path];
      file := file.(events := DeleteLast(file.events, append.replaced.usage));
      file := file.(session := DeleteLastOfEach(file.session, append.replaced.toolCalls, append.replaced.messages));
      files := files[path := file];
      next := Some((IndexAfter(file.events), NextSessionIndex(file.session)));
    }

    /** Replaces or appends to the rows of several files, in one transaction. */
    method ReplaceFilesEvents(writes: seq<(string, Write<U, T, M>)>)
      modifies this
      ensures files == AllWritten(old(files), writes, |writes|)
    {
      for i := 0 to |writes|
        invariant files == AllWritten(old(files), writes, i)
      {
        ApplyWrite(writes[i].0, writes[i].1);
      }
    }

    method ApplyWrite(path: string, w: Write<U, T, M>)
      modifies this
      ensures files == match Written(Stored(old(files), path), w) { case None => old(files) case Some(file) => old(files)[path := file] }
    {
      var firstEvent, firstSession := 0, 0;
      var file := StoredFile(w.fingerprint, w.skippedRows, Empty, SessionTables(Empty, Empty), None);
      if w.append.Some? {
        var next := PrepareFileAppend(path, w.append.value);
        if next.None? { return; }
        firstEvent, firstSession := next.value.0, next.value.1;
        file := files[path].(fingerprint := w.fingerprint, skippedRows := w.skippedRows);
      }
      var events, session := InsertRows(file, w, firstEvent, firstSession);
      var cursorRow := None;
      if w.readCursor.Some? {
        cursorRow := Some(CursorRow(w.fingerprint, w.readCursor.value));
      }
      files := files[path := StoredFile(w.fingerprint, w.skippedRows, events, session, cursorRow)];
    }

    static method InsertRows(file: StoredFile<U, T, M>, w: Write<U, T, M>, firstEvent: nat, firstSession: nat)
      returns (events: Table<U>, session: SessionTables<T, M>)
      ensures events == InsertedUsage(file.events, w.usage, |w.usage|, firstEvent)
      ensures session == Inserted(file.session, w.session, |w.session|, firstSession)
    {
      events, session := file.events, file.session;
      for position := 0 to |w.usage|
        invariant events == InsertedUsage(file.events, w.usage, position, firstEvent)
      {
        events := Row(firstEvent + position, w.usage[position], events);
      }
      for position := 0 to |w.session|
        invariant session == Inserted(file.session, w.session, position, firstSession)
      {
        var index := firstSession + position;
        match w.session[position] {
          case ToolCall(call) => session := session.(calls := Row(index, call, session.calls));
          case Message(message) => session := session.(messages := Row(index, message, session.messages));
        }
      }
    }
  }
}
