/**
 Request bodies of an OTLP push (src/otel-export/otlp-push.ts): units are packed in order under a
 byte bound, and a traces line too large for one body is split into pieces the same way.

 Texts are JSON as bytes, one `char` a byte, so the running byte counts are compared with the
 length of the body that is sent.
 */
module OtlpBatches {

  // ----- texts

  function Join(texts: seq<string>): string {
    if texts == [] then "" else if |texts| == 1 then texts[0]
    else Join(texts[..|texts| - 1]) + "," + texts[|texts| - 1]
  }

  /** The JSON of a list between what comes before and after its elements. */
  datatype Frame = Frame(head: string, tail: string) {
    function Text(elements: seq<string>): string {
      head + Join(elements) + tail
    }

    /** The bytes of the list with no element. */
    function EmptyBytes(): nat {
      |head| + |tail|
    }
  }

  function Sizes(texts: seq<string>): (r: seq<nat>)
    ensures |r| == |texts| && forall i :: 0 <= i < |r| ==> r[i] == |texts[i]|
  {
    seq(|texts|, i requires 0 <= i < |texts| => |texts[i]|)
  }

  /** The sum of the first `n` sizes. */
  function Prefix(sizes: seq<nat>, n: nat): nat
    requires n <= |sizes|
  {
    if n == 0 then 0 else Prefix(sizes, n - 1) + sizes[n - 1]
  }

  lemma {:induction false} PrefixGrows(sizes: seq<nat>, m: nat, n: nat)
    requires m <= n <= |sizes|
    ensures Prefix(sizes, m) <= Prefix(sizes, n)
    decreases n
  {
    if m < n { PrefixGrows(sizes, m, n - 1); }
  }

  /** The bytes of elements `lo` to `hi` in a list of `empty` bytes: their own, and the commas between them. */
  function Bytes(empty: nat, sizes: seq<nat>, lo: nat, hi: nat): nat
    requires lo <= hi <= |sizes|
  {
    PrefixGrows(sizes, lo, hi);
    empty + Prefix(sizes, hi) - Prefix(sizes, lo) + (if hi > lo then hi - lo - 1 else 0)
  }

  lemma BytesOfOne(empty: nat, sizes: seq<nat>, i: nat)
    requires i < |sizes|
    ensures Bytes(empty, sizes, i, i + 1) == empty + sizes[i]
  {
  }

  lemma {:induction false} JoinLength(texts: seq<string>, lo: nat, hi: nat)
    requires lo <= hi <= |texts|
    ensures |Join(texts[lo..hi])| == Bytes(0, Sizes(texts), lo, hi)
    decreases hi
  {
    if lo + 1 < hi {
      JoinLength(texts, lo, hi - 1);
      assert texts[lo..hi][..hi - lo - 1] == texts[lo..hi - 1];
    }
  }

  /** The counted bytes are those of the text that is sent. */
  lemma TextBytes(frame: Frame, texts: seq<string>, lo: nat, hi: nat)
    requires lo <= hi <= |texts|
    ensures |frame.Text(texts[lo..hi])| == Bytes(frame.EmptyBytes(), Sizes(texts), lo, hi)
  {
    JoinLength(texts, lo, hi);
  }

  // ----- groups

  /** The elements from `lo` to `hi`. */
  datatype Group = Group(lo: nat, hi: nat)

  /** The first `count` groups hold the first `n` elements, in order, at least one each. */
  predicate Tiles(groups: seq<Group>, count: nat, n: nat)
    requires count <= |groups|
  {
    if count == 0 then n == 0
    else
      var last := groups[count - 1];
      last.hi == n && last.lo < n && Tiles(groups, count - 1, last.lo)
  }

  /** The group fits the bound, or holds one element. */
  predicate GroupFits(g: Group, empty: nat, sizes: seq<nat>, maxBytes: int) {
    && g.lo < g.hi <= |sizes|
    && (g.lo == g.hi - 1 || Bytes(empty, sizes, g.lo, g.hi) <= maxBytes)
  }

  ghost predicate Fit(groups: seq<Group>, count: nat, empty: nat, sizes: seq<nat>, maxBytes: int)
    requires count <= |groups|
  {
    forall k :: 0 <= k < count ==> GroupFits(groups[k], empty, sizes, maxBytes)
  }

  /** Element `n` joins the last group when that still fits. */
  function Extend(groups: seq<Group>, empty: nat, sizes: seq<nat>, n: nat, maxBytes: int): seq<Group>
    requires n < |sizes| && (groups != [] ==> groups[|groups| - 1].lo < n)
  {
    if groups == [] then [Group(n, n + 1)]
    else
      var last := |groups| - 1;
      if Bytes(empty, sizes, groups[last].lo, n + 1) > maxBytes then groups + [Group(n, n + 1)]
      else groups[last := Group(groups[last].lo, n + 1)]
  }

  /** The groups of the first `n` elements when each takes as many as fit. */
  function Greedy(empty: nat, sizes: seq<nat>, n: nat, maxBytes: int): (groups: seq<Group>)
    requires n <= |sizes|
    ensures groups == [] <==> n == 0
    ensures groups != [] ==> groups[|groups| - 1].lo < n == groups[|groups| - 1].hi
  {
    if n == 0 then [] else Extend(Greedy(empty, sizes, n - 1, maxBytes), empty, sizes, n - 1, maxBytes)
  }

  lemma {:induction false} TilesPrefix(a: seq<Group>, b: seq<Group>, count: nat, n: nat)
    requires count <= |a| && count <= |b| && Tiles(a, count, n) && forall k :: 0 <= k < count ==> a[k] == b[k]
    ensures Tiles(b, count, n)
  {
    if count > 0 { TilesPrefix(a, b, count - 1, a[count - 1].lo); }
  }

  ghost predicate Packs(groups: seq<Group>, empty: nat, sizes: seq<nat>, n: nat, maxBytes: int) {
    Tiles(groups, |groups|, n) && Fit(groups, |groups|, empty, sizes, maxBytes)
  }

  lemma ExtendPacks(before: seq<Group>, empty: nat, sizes: seq<nat>, n: nat, maxBytes: int)
    requires n < |sizes| && Packs(before, empty, sizes, n, maxBytes)
    ensures Packs(Extend(before, empty, sizes, n, maxBytes), empty, sizes, n + 1, maxBytes)
  {
    if before != [] {
      var last := |before| - 1;
      TilesPrefix(before, before + [Group(n, n + 1)], |before|, n);
      TilesPrefix(before, before[last := Group(before[last].lo, n + 1)], last, before[last].lo);
    }
  }

  /** Greedy groups hold every element once, in order, and fit. */
  lemma {:induction false} GreedyFits(empty: nat, sizes: seq<nat>, n: nat, maxBytes: int)
    requires n <= |sizes|
    ensures Packs(Greedy(empty, sizes, n, maxBytes), empty, sizes, n, maxBytes)
  {
    if n > 0 {
      GreedyFits(empty, sizes, n - 1, maxBytes);
      ExtendPacks(Greedy(empty, sizes, n - 1, maxBytes), empty, sizes, n - 1, maxBytes);
    }
  }

  /** A group within another is no larger. */
  lemma WiderIsLarger(empty: nat, sizes: seq<nat>, lo: nat, lo': nat, hi': nat, hi: nat)
    requires lo <= lo' < hi' <= hi <= |sizes|
    ensures Bytes(empty, sizes, lo', hi') <= Bytes(empty, sizes, lo, hi)
  {
    PrefixGrows(sizes, lo, lo');
    PrefixGrows(sizes, hi', hi);
  }

  /**
     Any grouping of the first `n` elements that fits, here `count - 1` groups and one from `lo`
     on, has at least as many groups as the greedy one, and with as many its last starts no later.
   */
  lemma {:induction false} GreedyStaysAhead(empty: nat, sizes: seq<nat>, n: nat, maxBytes: int, others: seq<Group>, count: nat, lo: nat)
    requires n <= |sizes| && 0 < count <= |others| + 1
    requires Tiles(others, count - 1, lo) && Fit(others, count - 1, empty, sizes, maxBytes)
    requires GroupFits(Group(lo, n), empty, sizes, maxBytes)
    ensures var groups := Greedy(empty, sizes, n, maxBytes);
      |groups| <= count && (|groups| == count ==> lo <= groups[|groups| - 1].lo)
    decreases n
  {
    if lo == n - 1 {
      if count > 1 {
        var last := others[count - 2];
        assert GroupFits(last, empty, sizes, maxBytes) && Group(last.lo, lo) == last;
        GreedyStaysAhead(empty, sizes, lo, maxBytes, others, count - 1, last.lo);
      }
    } else {
      WiderIsLarger(empty, sizes, lo, lo, n - 1, n);
      GreedyStaysAhead(empty, sizes, n - 1, maxBytes, others, count, lo);
      var before := Greedy(empty, sizes, n - 1, maxBytes);
      if |before| == count { WiderIsLarger(empty, sizes, lo, before[count - 1].lo, n, n); }
    }
  }

  /** No grouping that keeps the order and fits has fewer groups. */
  lemma GreedyIsFewest(empty: nat, sizes: seq<nat>, maxBytes: int, others: seq<Group>)
    requires Packs(others, empty, sizes, |sizes|, maxBytes)
    ensures |Greedy(empty, sizes, |sizes|, maxBytes)| <= |others|
  {
    if others != [] {
      var last := others[|others| - 1];
      assert GroupFits(last, empty, sizes, maxBytes) && Group(last.lo, |sizes|) == last;
      GreedyStaysAhead(empty, sizes, |sizes|, maxBytes, others, |others|, last.lo);
    }
  }

  lemma {:induction false} TileBounds(groups: seq<Group>, count: nat, n: nat, k: nat)
    requires k < count <= |groups| && Tiles(groups, count, n)
    ensures groups[k].lo < groups[k].hi <= n
  {
    if k < count - 1 { TileBounds(groups, count - 1, groups[count - 1].lo, k); }
  }

  /** The elements of the first `count` groups, one group after the other. */
  ghost function Flatten<T>(s: seq<T>, groups: seq<Group>, count: nat): seq<T>
    requires count <= |groups| && forall k :: 0 <= k < count ==> groups[k].lo <= groups[k].hi <= |s|
  {
    if count == 0 then [] else Flatten(s, groups, count - 1) + s[groups[count - 1].lo..groups[count - 1].hi]
  }

  /** Groups hold every element once, in order. */
  lemma {:induction false} GroupsAreTheList<T>(s: seq<T>, groups: seq<Group>, count: nat, n: nat)
    requires count <= |groups| && n <= |s| && Tiles(groups, count, n)
    ensures forall k :: 0 <= k < count ==> groups[k].lo <= groups[k].hi <= |s|
    ensures Flatten(s, groups, count) == s[..n]
  {
    if count > 0 { GroupsAreTheList(s, groups, count - 1, groups[count - 1].lo); }
  }

  // ----- units

  /** What goes into a body as a whole: one resource, with the items it counts and its bytes. */
  datatype Unit = Unit(resource: string, items: nat, bytes: nat)

  /** An export line's resource; a traces line's is its spans in the resource's and scope's JSON. */
  datatype Line = Traces(scope: Frame, spans: seq<string>) | Metrics(resource: string, items: nat)

  function Resource(line: Line): string {
    match line
    case Traces(scope, spans) => scope.Text(spans)
    case Metrics(resource, _) => resource
  }

  function Items(line: Line): nat {
    match line
    case Traces(_, spans) => |spans|
    case Metrics(_, items) => items
  }

  function Piece(line: Line, g: Group): Unit
    requires line.Traces? && g.lo <= g.hi <= |line.spans|
  {
    Unit(line.scope.Text(line.spans[g.lo..g.hi]), g.hi - g.lo, |line.scope.Text(line.spans[g.lo..g.hi])|)
  }

  predicate Within(groups: seq<Group>, n: nat) {
    forall k :: 0 <= k < |groups| ==> groups[k].lo <= groups[k].hi <= n
  }

  function Pieces(line: Line, groups: seq<Group>): (units: seq<Unit>)
    requires line.Traces? && Within(groups, |line.spans|)
    ensures |units| == |groups|
  {
    seq(|groups|, k requires 0 <= k < |groups| => Piece(line, groups[k]))
  }

  /** The groups of a traces line's spans; a line without spans is one piece. */
  function SpanGroups(line: Line, envelopeBytes: nat, maxBytes: int): (groups: seq<Group>)
    requires line.Traces?
  {
    if line.spans == [] then [Group(0, 0)]
    else Greedy(envelopeBytes + line.scope.EmptyBytes(), Sizes(line.spans), |line.spans|, maxBytes)
  }

  lemma SpanGroupsAreWithin(line: Line, envelopeBytes: nat, maxBytes: int)
    requires line.Traces?
    ensures Within(SpanGroups(line, envelopeBytes, maxBytes), |line.spans|)
  {
    if line.spans != [] { GreedyIsWithin(envelopeBytes + line.scope.EmptyBytes(), Sizes(line.spans), |line.spans|, maxBytes); }
  }

  lemma GreedyIsWithin(empty: nat, sizes: seq<nat>, n: nat, maxBytes: int)
    requires n <= |sizes|
    ensures Within(Greedy(empty, sizes, n, maxBytes), n)
  {
    var groups := Greedy(empty, sizes, n, maxBytes);
    GreedyFits(empty, sizes, n, maxBytes);
    forall k | 0 <= k < |groups| ensures groups[k].lo <= groups[k].hi <= n { TileBounds(groups, |groups|, n, k); }
  }

  /** The pieces of the groups but the last, which is still open. */
  ghost predicate PiecesSoFar(units: seq<Unit>, line: Line, groups: seq<Group>)
    requires line.Traces?
  {
    groups != [] && Within(groups, |line.spans|) && units == Pieces(line, groups[..|groups| - 1])
  }

  /** The pieces done, and the open one with its bytes. */
  datatype Splitting = Splitting(units: seq<Unit>, spans: seq<string>, bytes: nat)

  /** The first `i` spans are placed; the open piece holds those from `lo` on. */
  ghost predicate SplitTo(line: Line, envelopeBytes: nat, maxBytes: int, s: Splitting, lo: nat, i: nat)
    requires line.Traces?
  {
    && lo < i <= |line.spans| && s.spans == line.spans[lo..i] && s.bytes == Bytes(line.scope.EmptyBytes(), Sizes(line.spans), lo, i)
    && var groups := Greedy(envelopeBytes + line.scope.EmptyBytes(), Sizes(line.spans), i, maxBytes);
       groups[|groups| - 1] == Group(lo, i) && PiecesSoFar(s.units, line, groups)
  }

  /** The first `i` spans are placed; before the first, the open piece is empty. */
  ghost predicate SplitAt(line: Line, envelopeBytes: nat, maxBytes: int, s: Splitting, lo: nat, i: nat)
    requires line.Traces?
  {
    if i == 0 then lo == 0 && s == Splitting([], [], line.scope.EmptyBytes()) else SplitTo(line, envelopeBytes, maxBytes, s, lo, i)
  }

  method SplitTracesLine(line: Line, maxBytes: int, envelopeBytes: nat) returns (units: seq<Unit>)
    requires line.Traces?
    ensures Within(SpanGroups(line, envelopeBytes, maxBytes), |line.spans|)
    ensures units == Pieces(line, SpanGroups(line, envelopeBytes, maxBytes))
  {
    SpanGroupsAreWithin(line, envelopeBytes, maxBytes);
    var s, lo := PlaceSpans(line, maxBytes, envelopeBytes);
    LastPiece(line, envelopeBytes, maxBytes, s, lo);
    units := s.units + [Unit(line.scope.Text(s.spans), |s.spans|, s.bytes)];
  }

  method PlaceSpans(line: Line, maxBytes: int, envelopeBytes: nat) returns (s: Splitting, ghost lo: nat)
    requires line.Traces?
    ensures SplitAt(line, envelopeBytes, maxBytes, s, lo, |line.spans|)
  {
    s, lo := Splitting([], [], line.scope.EmptyBytes()), 0;
    for i := 0 to |line.spans|
      invariant SplitAt(line, envelopeBytes, maxBytes, s, lo, i)
    {
      s, lo := PlaceSpan(line, envelopeBytes, maxBytes, s, lo, i);
    }
  }

  /** Closing the open piece gives all pieces. */
  lemma LastPiece(line: Line, envelopeBytes: nat, maxBytes: int, s: Splitting, lo: nat)
    requires line.Traces? && SplitAt(line, envelopeBytes, maxBytes, s, lo, |line.spans|)
    requires Within(SpanGroups(line, envelopeBytes, maxBytes), |line.spans|)
    ensures s.units + [Unit(line.scope.Text(s.spans), |s.spans|, s.bytes)] == Pieces(line, SpanGroups(line, envelopeBytes, maxBytes))
  {
    if line.spans != [] { LastPieceFrom(line, envelopeBytes, maxBytes, s, lo); }
  }

  lemma LastPieceFrom(line: Line, envelopeBytes: nat, maxBytes: int, s: Splitting, lo: nat)
    requires line.Traces? && line.spans != [] && SplitTo(line, envelopeBytes, maxBytes, s, lo, |line.spans|)
    requires Within(SpanGroups(line, envelopeBytes, maxBytes), |line.spans|)
    ensures s.units + [Unit(line.scope.Text(s.spans), |s.spans|, s.bytes)] == Pieces(line, SpanGroups(line, envelopeBytes, maxBytes))
  {
    var groups := SpanGroups(line, envelopeBytes, maxBytes);
    TextBytes(line.scope, line.spans, lo, |line.spans|);
    assert groups == groups[..|groups| - 1] + [groups[|groups| - 1]];
  }

  lemma FirstSpan(line: Line, envelopeBytes: nat, maxBytes: int)
    requires line.Traces? && line.spans != []
    ensures SplitTo(line, envelopeBytes, maxBytes, Splitting([], [line.spans[0]], line.scope.EmptyBytes() + |line.spans[0]|), 0, 1)
  {
    assert Sizes(line.spans)[0] == |line.spans[0]|;
    assert Prefix(Sizes(line.spans), 1) == Prefix(Sizes(line.spans), 0) + Sizes(line.spans)[0];
    assert Greedy(envelopeBytes + line.scope.EmptyBytes(), Sizes(line.spans), 1, maxBytes) == [Group(0, 1)];
  }

  method PlaceSpan(line: Line, envelopeBytes: nat, maxBytes: int, s: Splitting, ghost lo: nat, i: nat) returns (s': Splitting, ghost lo': nat)
    requires line.Traces? && i < |line.spans| && SplitAt(line, envelopeBytes, maxBytes, s, lo, i)
    ensures SplitAt(line, envelopeBytes, maxBytes, s', lo', i + 1)
  {
    var span := line.spans[i];
    var grown := s.bytes + |span| + (if |s.spans| > 0 then 1 else 0);
    if |s.spans| > 0 && envelopeBytes + grown > maxBytes {
      PieceCloses(line, envelopeBytes, maxBytes, s, lo, i);
      s', lo' := Splitting(s.units + [Unit(line.scope.Text(s.spans), |s.spans|, s.bytes)], [span], line.scope.EmptyBytes() + |span|), i;
    } else {
      SpanJoinsPiece(line, envelopeBytes, maxBytes, s, lo, i);
      s', lo' := Splitting(s.units, s.spans + [span], grown), lo;
    }
  }

  lemma SpanJoinsPiece(line: Line, envelopeBytes: nat, maxBytes: int, s: Splitting, lo: nat, i: nat)
    requires line.Traces? && i < |line.spans| && SplitAt(line, envelopeBytes, maxBytes, s, lo, i)
    requires |s.spans| > 0 ==> envelopeBytes + s.bytes + |line.spans[i]| + 1 <= maxBytes
    ensures var next := Splitting(s.units, s.spans + [line.spans[i]], s.bytes + |line.spans[i]| + (if |s.spans| > 0 then 1 else 0));
      SplitTo(line, envelopeBytes, maxBytes, next, lo, i + 1)
  {
    if i == 0 {
      FirstSpan(line, envelopeBytes, maxBytes);
      assert [] + [line.spans[0]] == [line.spans[0]];
    } else {
      PieceGrows(line, envelopeBytes, maxBytes, s, lo, i);
    }
  }

  /** The bytes of the open piece with one more span and its comma. */
  lemma BytesWithSpan(line: Line, s: Splitting, lo: nat, i: nat)
    requires line.Traces? && lo < i < |line.spans| && s.bytes == Bytes(line.scope.EmptyBytes(), Sizes(line.spans), lo, i)
    ensures Bytes(line.scope.EmptyBytes(), Sizes(line.spans), lo, i + 1) == s.bytes + |line.spans[i]| + 1
  {
  }

  lemma PieceCloses(line: Line, envelopeBytes: nat, maxBytes: int, s: Splitting, lo: nat, i: nat)
    requires line.Traces? && i < |line.spans| && SplitTo(line, envelopeBytes, maxBytes, s, lo, i)
    requires envelopeBytes + s.bytes + |line.spans[i]| + 1 > maxBytes
    ensures var next := Splitting(s.units + [Unit(line.scope.Text(s.spans), |s.spans|, s.bytes)], [line.spans[i]],
                                  line.scope.EmptyBytes() + |line.spans[i]|);
      SplitTo(line, envelopeBytes, maxBytes, next, i, i + 1)
  {
    var groups := Greedy(envelopeBytes + line.scope.EmptyBytes(), Sizes(line.spans), i, maxBytes);
    BytesWithSpan(line, s, lo, i);
    TextBytes(line.scope, line.spans, lo, i);
    BytesOfOne(line.scope.EmptyBytes(), Sizes(line.spans), i);
    assert line.spans[i..i + 1] == [line.spans[i]];
    OpenPieceCloses(s.units, line, groups, Group(i, i + 1));
  }

  lemma PieceGrows(line: Line, envelopeBytes: nat, maxBytes: int, s: Splitting, lo: nat, i: nat)
    requires line.Traces? && i < |line.spans| && SplitTo(line, envelopeBytes, maxBytes, s, lo, i)
    requires envelopeBytes + s.bytes + |line.spans[i]| + 1 <= maxBytes
    ensures var next := Splitting(s.units, s.spans + [line.spans[i]], s.bytes + |line.spans[i]| + 1);
      SplitTo(line, envelopeBytes, maxBytes, next, lo, i + 1)
  {
    var groups := Greedy(envelopeBytes + line.scope.EmptyBytes(), Sizes(line.spans), i, maxBytes);
    BytesWithSpan(line, s, lo, i);
    assert line.spans[lo..i + 1] == line.spans[lo..i] + [line.spans[i]];
    OpenPieceGrows(s.units, line, groups, Group(lo, i + 1));
  }

  lemma OpenPieceCloses(units: seq<Unit>, line: Line, groups: seq<Group>, next: Group)
    requires line.Traces? && PiecesSoFar(units, line, groups) && next.lo <= next.hi <= |line.spans|
    ensures PiecesSoFar(units + [Piece(line, groups[|groups| - 1])], line, groups + [next])
  {
    assert (groups + [next])[..|groups|] == groups;
  }

  lemma OpenPieceGrows(units: seq<Unit>, line: Line, groups: seq<Group>, grown: Group)
    requires line.Traces? && PiecesSoFar(units, line, groups) && grown.lo <= grown.hi <= |line.spans|
    ensures PiecesSoFar(units, line, groups[|groups| - 1 := grown])
  {
    assert groups[|groups| - 1 := grown][..|groups| - 1] == groups[..|groups| - 1];
  }

  function LineUnits(line: Line, envelopeBytes: nat, maxBytes: int): seq<Unit> {
    var resource := Resource(line);
    if line.Traces? && envelopeBytes + |resource| > maxBytes then
      SpanGroupsAreWithin(line, envelopeBytes, maxBytes);
      Pieces(line, SpanGroups(line, envelopeBytes, maxBytes))
    else [Unit(resource, Items(line), |resource|)]
  }

  function AllUnits(lines: seq<Line>, n: nat, envelopeBytes: nat, maxBytes: int): seq<Unit>
    requires n <= |lines|
  {
    if n == 0 then [] else AllUnits(lines, n - 1, envelopeBytes, maxBytes) + LineUnits(lines[n - 1], envelopeBytes, maxBytes)
  }

  method ToBatchUnits(lines: seq<Line>, maxBytes: int, envelopeBytes: nat) returns (units: seq<Unit>)
    ensures units == AllUnits(lines, |lines|, envelopeBytes, maxBytes)
  {
    units := [];
    for i := 0 to |lines|
      invariant units == AllUnits(lines, i, envelopeBytes, maxBytes)
    {
      var lineUnits := ToLineUnits(lines[i], maxBytes, envelopeBytes);
      units := units + lineUnits;
    }
  }

  method ToLineUnits(line: Line, maxBytes: int, envelopeBytes: nat) returns (units: seq<Unit>)
    ensures units == LineUnits(line, envelopeBytes, maxBytes)
  {
    var resource := Resource(line);
    if line.Traces? && envelopeBytes + |resource| > maxBytes {
      units := SplitTracesLine(line, maxBytes, envelopeBytes);
    } else {
      units := [Unit(resource, Items(line), |resource|)];
    }
  }

  // ----- batches

  datatype Batch = Batch(body: string, items: nat)

  function Texts(units: seq<Unit>): (r: seq<string>)
    ensures |r| == |units| && forall i :: 0 <= i < |r| ==> r[i] == units[i].resource
  {
    seq(|units|, i requires 0 <= i < |units| => units[i].resource)
  }

  function Counts(units: seq<Unit>): (r: seq<nat>)
    ensures |r| == |units| && forall i :: 0 <= i < |r| ==> r[i] == units[i].items
  {
    seq(|units|, i requires 0 <= i < |units| => units[i].items)
  }

  /** Every unit's bytes are those of its text. */
  ghost predicate Measured(units: seq<Unit>) {
    forall i :: 0 <= i < |units| ==> units[i].bytes == |units[i].resource|
  }

  function BatchOf(envelope: Frame, units: seq<Unit>, g: Group): Batch
    requires g.lo <= g.hi <= |units|
  {
    PrefixGrows(Counts(units), g.lo, g.hi);
    Batch(envelope.Text(Texts(units)[g.lo..g.hi]), Prefix(Counts(units), g.hi) - Prefix(Counts(units), g.lo))
  }

  function Batches(envelope: Frame, units: seq<Unit>, groups: seq<Group>): (batches: seq<Batch>)
    requires Within(groups, |units|)
    ensures |batches| == |groups|
  {
    seq(|groups|, k requires 0 <= k < |groups| => BatchOf(envelope, units, groups[k]))
  }

  function UnitGroups(envelope: Frame, units: seq<Unit>, maxBytes: int): (groups: seq<Group>) {
    Greedy(envelope.EmptyBytes(), Sizes(Texts(units)), |units|, maxBytes)
  }

  /** The batches done, and the open one with its items and its resources' bytes. */
  datatype Packing = Packing(batches: seq<Batch>, resources: seq<string>, items: nat, bytes: nat)

  /** The batches of the groups but the last, which is still open. */
  ghost predicate BatchesSoFar(batches: seq<Batch>, envelope: Frame, units: seq<Unit>, groups: seq<Group>) {
    groups != [] && Within(groups, |units|) && batches == Batches(envelope, units, groups[..|groups| - 1])
  }

  /** The first `i` units are placed; the open batch holds those from `lo` on. */
  ghost predicate PackedTo(envelope: Frame, units: seq<Unit>, maxBytes: int, p: Packing, lo: nat, i: nat) {
    && lo < i <= |units| && p.resources == Texts(units)[lo..i]
    && p.items == Prefix(Counts(units), i) - Prefix(Counts(units), lo)
    && p.bytes == Prefix(Sizes(Texts(units)), i) - Prefix(Sizes(Texts(units)), lo)
    && var groups := Greedy(envelope.EmptyBytes(), Sizes(Texts(units)), i, maxBytes);
       groups[|groups| - 1] == Group(lo, i) && BatchesSoFar(p.batches, envelope, units, groups)
  }

  ghost predicate PackedSoFar(envelope: Frame, units: seq<Unit>, maxBytes: int, p: Packing, lo: nat, i: nat) {
    if i == 0 then lo == 0 && p == Packing([], [], 0, 0) else PackedTo(envelope, units, maxBytes, p, lo, i)
  }

  method BuildBatches(lines: seq<Line>, envelope: Frame, maxBytes: int) returns (batches: seq<Batch>)
    ensures var units := AllUnits(lines, |lines|, envelope.EmptyBytes(), maxBytes);
      Within(UnitGroups(envelope, units, maxBytes), |units|) && batches == Batches(envelope, units, UnitGroups(envelope, units, maxBytes))
  {
    var units := ToBatchUnits(lines, maxBytes, envelope.EmptyBytes());
    AllUnitsAreMeasured(lines, |lines|, envelope.EmptyBytes(), maxBytes);
    GreedyIsWithin(envelope.EmptyBytes(), Sizes(Texts(units)), |units|, maxBytes);
    batches := PackUnits(envelope, units, maxBytes);
  }

  method PackUnits(envelope: Frame, units: seq<Unit>, maxBytes: int) returns (batches: seq<Batch>)
    requires Measured(units) && Within(UnitGroups(envelope, units, maxBytes), |units|)
    ensures batches == Batches(envelope, units, UnitGroups(envelope, units, maxBytes))
  {
    var p := Packing([], [], 0, 0);
    ghost var lo := 0;
    for i := 0 to |units|
      invariant PackedSoFar(envelope, units, maxBytes, p, lo, i)
    {
      p, lo := PlaceUnit(envelope, units, maxBytes, p, lo, i);
    }
    batches := p.batches;
    if p.resources != [] {
      batches := batches + [Batch(envelope.Text(p.resources), p.items)];
      LastBatch(envelope, units, maxBytes, p, lo);
    }
  }

  lemma FirstUnit(envelope: Frame, units: seq<Unit>, maxBytes: int)
    requires units != [] && Measured(units)
    ensures PackedTo(envelope, units, maxBytes, Packing([], [units[0].resource], units[0].items, units[0].bytes), 0, 1)
  {
    var sizes := Sizes(Texts(units));
    assert Prefix(sizes, 1) == Prefix(sizes, 0) + sizes[0] && Prefix(Counts(units), 1) == Prefix(Counts(units), 0) + Counts(units)[0];
    assert Greedy(envelope.EmptyBytes(), sizes, 1, maxBytes) == Extend(Greedy(envelope.EmptyBytes(), sizes, 0, maxBytes), envelope.EmptyBytes(), sizes, 0, maxBytes);
  }

  method PlaceUnit(envelope: Frame, units: seq<Unit>, maxBytes: int, p: Packing, ghost lo: nat, i: nat) returns (p': Packing, ghost lo': nat)
    requires i < |units| && Measured(units) && PackedSoFar(envelope, units, maxBytes, p, lo, i)
    ensures PackedSoFar(envelope, units, maxBytes, p', lo', i + 1)
  {
    var unit := units[i];
    p', lo' := p, lo;
    if |p.resources| > 0 && envelope.EmptyBytes() + (p.bytes + unit.bytes) + |p.resources| > maxBytes {
      BatchCloses(envelope, units, maxBytes, p, lo, i);
      p', lo' := Packing(p.batches + [Batch(envelope.Text(p.resources), p.items)], [], 0, 0), i;
    } else if i > 0 {
      BatchGrows(envelope, units, maxBytes, p, lo, i);
    } else {
      FirstUnit(envelope, units, maxBytes);
    }
    p' := Packing(p'.batches, p'.resources + [unit.resource], p'.items + unit.items, p'.bytes + unit.bytes);
  }

  lemma BatchCloses(envelope: Frame, units: seq<Unit>, maxBytes: int, p: Packing, lo: nat, i: nat)
    requires i < |units| && Measured(units) && PackedTo(envelope, units, maxBytes, p, lo, i)
    requires envelope.EmptyBytes() + (p.bytes + units[i].bytes) + |p.resources| > maxBytes
    ensures PackedTo(envelope, units, maxBytes,
                     Packing(p.batches + [Batch(envelope.Text(p.resources), p.items)], [units[i].resource], units[i].items, units[i].bytes), i, i + 1)
  {
    var groups := Greedy(envelope.EmptyBytes(), Sizes(Texts(units)), i, maxBytes);
    assert Texts(units)[i..i + 1] == [units[i].resource];
    assert (groups + [Group(i, i + 1)])[..|groups|] == groups;
  }

  lemma BatchGrows(envelope: Frame, units: seq<Unit>, maxBytes: int, p: Packing, lo: nat, i: nat)
    requires i < |units| && Measured(units) && PackedTo(envelope, units, maxBytes, p, lo, i)
    requires envelope.EmptyBytes() + (p.bytes + units[i].bytes) + |p.resources| <= maxBytes
    ensures PackedTo(envelope, units, maxBytes,
                     Packing(p.batches, p.resources + [units[i].resource], p.items + units[i].items, p.bytes + units[i].bytes), lo, i + 1)
  {
    var groups := Greedy(envelope.EmptyBytes(), Sizes(Texts(units)), i, maxBytes);
    assert groups[|groups| - 1 := Group(lo, i + 1)][..|groups| - 1] == groups[..|groups| - 1];
  }

  lemma LastBatch(envelope: Frame, units: seq<Unit>, maxBytes: int, p: Packing, lo: nat)
    requires PackedTo(envelope, units, maxBytes, p, lo, |units|) && Within(UnitGroups(envelope, units, maxBytes), |units|)
    ensures p.batches + [Batch(envelope.Text(p.resources), p.items)] == Batches(envelope, units, UnitGroups(envelope, units, maxBytes))
  {
    var groups := UnitGroups(envelope, units, maxBytes);
    assert groups == groups[..|groups| - 1] + [groups[|groups| - 1]];
  }

  lemma LineUnitsAreMeasured(line: Line, envelopeBytes: nat, maxBytes: int)
    ensures Measured(LineUnits(line, envelopeBytes, maxBytes))
  {
  }

  lemma MeasuredWithLine(units: seq<Unit>, line: Line, envelopeBytes: nat, maxBytes: int)
    requires Measured(units)
    ensures Measured(units + LineUnits(line, envelopeBytes, maxBytes))
  {
    LineUnitsAreMeasured(line, envelopeBytes, maxBytes);
  }

  lemma {:induction false} AllUnitsAreMeasured(lines: seq<Line>, n: nat, envelopeBytes: nat, maxBytes: int)
    requires n <= |lines|
    ensures Measured(AllUnits(lines, n, envelopeBytes, maxBytes))
  {
    if n > 0 {
      AllUnitsAreMeasured(lines, n - 1, envelopeBytes, maxBytes);
      MeasuredWithLine(AllUnits(lines, n - 1, envelopeBytes, maxBytes), lines[n - 1], envelopeBytes, maxBytes);
    }
  }

  // ----- the bound

  /** A batch's body is within the bound, or holds a single unit. */
  lemma BatchesFit(envelope: Frame, units: seq<Unit>, maxBytes: int, k: nat)
    requires k < |UnitGroups(envelope, units, maxBytes)|
    ensures var g := UnitGroups(envelope, units, maxBytes)[k];
      g.lo < g.hi <= |units| && (|BatchOf(envelope, units, g).body| <= maxBytes || g.hi == g.lo + 1)
  {
    var groups := UnitGroups(envelope, units, maxBytes);
    GreedyFits(envelope.EmptyBytes(), Sizes(Texts(units)), |units|, maxBytes);
    assert GroupFits(groups[k], envelope.EmptyBytes(), Sizes(Texts(units)), maxBytes);
    TextBytes(envelope, Texts(units), groups[k].lo, groups[k].hi);
  }

  /** The batches hold every unit once, in export order, in as few bodies as any grouping in that order that fits. */
  lemma BatchesAreCompleteAndFewest(envelope: Frame, units: seq<Unit>, maxBytes: int)
    ensures var groups := UnitGroups(envelope, units, maxBytes);
      && Within(groups, |units|) && Flatten(Texts(units), groups, |groups|) == Texts(units)
      && forall others :: Packs(others, envelope.EmptyBytes(), Sizes(Texts(units)), |units|, maxBytes) ==> |groups| <= |others|
  {
    var groups := UnitGroups(envelope, units, maxBytes);
    var sizes := Sizes(Texts(units));
    GreedyFits(envelope.EmptyBytes(), sizes, |units|, maxBytes);
    GreedyIsWithin(envelope.EmptyBytes(), sizes, |units|, maxBytes);
    GroupsAreTheList(Texts(units), groups, |groups|, |units|);
    assert Texts(units)[..|units|] == Texts(units);
    forall others | Packs(others, envelope.EmptyBytes(), sizes, |units|, maxBytes) ensures |groups| <= |others| {
      GreedyIsFewest(envelope.EmptyBytes(), sizes, maxBytes, others);
    }
  }

  /** The pieces of a split line hold its spans once, in order. */
  lemma PiecesAreTheLine(line: Line, envelopeBytes: nat, maxBytes: int)
    requires line.Traces?
    ensures var groups := SpanGroups(line, envelopeBytes, maxBytes);
      Within(groups, |line.spans|) && Flatten(line.spans, groups, |groups|) == line.spans
  {
    var groups := SpanGroups(line, envelopeBytes, maxBytes);
    SpanGroupsAreWithin(line, envelopeBytes, maxBytes);
    if line.spans == [] {
      assert Flatten(line.spans, groups, 1) == Flatten(line.spans, groups, 0) + line.spans[0..0];
    } else {
      GreedyFits(envelopeBytes + line.scope.EmptyBytes(), Sizes(line.spans), |line.spans|, maxBytes);
      GroupsAreTheList(line.spans, groups, |groups|, |line.spans|);
      assert line.spans[..|line.spans|] == line.spans;
    }
  }

  /** A piece whose body alone is too large is a single span. */
  lemma OversizedPieceIsOneSpan(envelope: Frame, line: Line, maxBytes: int, k: nat)
    requires line.Traces? && line.spans != [] && k < |SpanGroups(line, envelope.EmptyBytes(), maxBytes)|
    ensures var g := SpanGroups(line, envelope.EmptyBytes(), maxBytes)[k];
      g.lo < g.hi <= |line.spans| && (|envelope.Text([Piece(line, g).resource])| <= maxBytes || g.hi == g.lo + 1)
  {
    var empty, sizes := envelope.EmptyBytes() + line.scope.EmptyBytes(), Sizes(line.spans);
    var g := Greedy(empty, sizes, |line.spans|, maxBytes)[k];
    GreedyFits(empty, sizes, |line.spans|, maxBytes);
    assert GroupFits(g, empty, sizes, maxBytes);
    TextBytes(line.scope, line.spans, g.lo, g.hi);
  }

  // ----- lists of lists

  /** What each element gives, one after the other. */
  function Flat<A, B>(of: A -> seq<B>, xs: seq<A>): seq<B> {
    if xs == [] then [] else Flat(of, xs[..|xs| - 1]) + of(xs[|xs| - 1])
  }

  lemma FlatOneMore<A, B>(of: A -> seq<B>, xs: seq<A>, x: A)
    ensures Flat(of, xs + [x]) == Flat(of, xs) + of(x)
  {
    assert (xs + [x])[..|xs|] == xs;
  }

  lemma {:induction false} FlatBoth<A, B>(of: A -> seq<B>, a: seq<A>, b: seq<A>)
    ensures Flat(of, a + b) == Flat(of, a) + Flat(of, b)
  {
    if b == [] {
      assert a + b == a;
    } else {
      var before, last := b[..|b| - 1], b[|b| - 1];
      FlatBoth(of, a, before);
      FlatOneMore(of, a + before, last);
      Associates(a, before, [last]);
      Associates(Flat(of, a), Flat(of, before), of(last));
      assert before + [last] == b;
    }
  }

  lemma Associates<T>(a: seq<T>, b: seq<T>, c: seq<T>)
    ensures a + b + c == a + (b + c)
  {
  }

  // ----- what a body says

  /** A list's JSON holds its elements in order, with a comma between any two. */
  lemma {:induction false} JoinInOrder(a: seq<string>, b: seq<string>)
    requires a != [] && b != []
    ensures Join(a + b) == Join(a) + "," + Join(b)
    ensures |a| == 1 ==> Join(a) == a[0]
  {
    var last := |b| - 1;
    assert (a + b)[..|a + b| - 1] == a + b[..last];
    if last == 0 {
      assert a + b[..last] == a;
    } else {
      JoinInOrder(a, b[..last]);
      assert Join(a) + "," + Join(b[..last]) + "," + b[last] == Join(a) + "," + (Join(b[..last]) + "," + b[last]);
    }
  }

  /** A line whose body alone fits, or that is no traces line, is one unit; one that does not fit is cut unless it has a single span. */
  lemma SplitsOnlyWhatIsTooLarge(envelope: Frame, line: Line, maxBytes: int)
    ensures var units := LineUnits(line, envelope.EmptyBytes(), maxBytes);
      if line.Metrics? || |envelope.Text([Resource(line)])| <= maxBytes
      then units == [Unit(Resource(line), Items(line), |Resource(line)|)]
      else |line.spans| >= 2 ==> |units| >= 2
  {
    if line.Traces? && line.spans != [] {
      var empty, sizes := envelope.EmptyBytes() + line.scope.EmptyBytes(), Sizes(line.spans);
      GreedyFits(empty, sizes, |line.spans|, maxBytes);
      OneGroupFits(Greedy(empty, sizes, |line.spans|, maxBytes), empty, sizes, maxBytes);
      TextBytes(line.scope, line.spans, 0, |line.spans|);
      assert line.spans[0..|line.spans|] == line.spans;
    }
  }

  lemma OneGroupFits(groups: seq<Group>, empty: nat, sizes: seq<nat>, maxBytes: int)
    requires Packs(groups, empty, sizes, |sizes|, maxBytes) && sizes != []
    ensures groups != [] && (|groups| == 1 && |sizes| >= 2 ==> Bytes(empty, sizes, 0, |sizes|) <= maxBytes)
  {
    if |groups| == 1 {
      assert Tiles(groups, 0, groups[0].lo) && GroupFits(groups[0], empty, sizes, maxBytes);
    }
  }

  /** No other cut of a line's spans, in order and within the bound, has fewer pieces. */
  lemma PiecesAreFewest(line: Line, envelopeBytes: nat, maxBytes: int, others: seq<Group>)
    requires line.Traces? && line.spans != []
    requires Packs(others, envelopeBytes + line.scope.EmptyBytes(), Sizes(line.spans), |line.spans|, maxBytes)
    ensures |SpanGroups(line, envelopeBytes, maxBytes)| <= |others|
  {
    GreedyIsFewest(envelopeBytes + line.scope.EmptyBytes(), Sizes(line.spans), maxBytes, others);
  }

  function SumItems(units: seq<Unit>): nat {
    if units == [] then 0 else SumItems(units[..|units| - 1]) + units[|units| - 1].items
  }

  lemma {:induction false} PrefixIsSum(units: seq<Unit>, n: nat)
    requires n <= |units|
    ensures Prefix(Counts(units), n) == SumItems(units[..n])
  {
    if n > 0 {
      PrefixIsSum(units, n - 1);
      assert units[..n][..n - 1] == units[..n - 1];
    }
  }

  lemma {:induction false} SumOfBoth(a: seq<Unit>, b: seq<Unit>)
    ensures SumItems(a + b) == SumItems(a) + SumItems(b)
  {
    if b == [] {
      assert a + b == a;
    } else {
      SumOfBoth(a, b[..|b| - 1]);
      assert (a + b)[..|a + b| - 1] == a + b[..|b| - 1];
    }
  }

  /** A body counts the items of its units. */
  lemma BatchCountsItems(envelope: Frame, units: seq<Unit>, g: Group)
    requires g.lo <= g.hi <= |units|
    ensures BatchOf(envelope, units, g).items == SumItems(units[g.lo..g.hi])
  {
    PrefixIsSum(units, g.lo);
    PrefixIsSum(units, g.hi);
    SumOfBoth(units[..g.lo], units[g.lo..g.hi]);
    assert units[..g.lo] + units[g.lo..g.hi] == units[..g.hi];
  }

  function SumBatches(batches: seq<Batch>): nat {
    if batches == [] then 0 else SumBatches(batches[..|batches| - 1]) + batches[|batches| - 1].items
  }

  lemma BatchesOneMore(envelope: Frame, units: seq<Unit>, before: seq<Group>, last: Group)
    requires Within(before, |units|) && last.lo <= last.hi <= |units|
    ensures Batches(envelope, units, before + [last]) == Batches(envelope, units, before) + [BatchOf(envelope, units, last)]
  {
  }

  lemma SumOneMore(batches: seq<Batch>, batch: Batch)
    ensures SumBatches(batches + [batch]) == SumBatches(batches) + batch.items
  {
    assert (batches + [batch])[..|batches|] == batches;
  }

  lemma NextBatchCounts(envelope: Frame, units: seq<Unit>, before: seq<Group>, last: Group)
    requires Within(before, |units|) && last.lo <= last.hi <= |units|
    requires SumBatches(Batches(envelope, units, before)) == SumItems(units[..last.lo])
    ensures SumBatches(Batches(envelope, units, before + [last])) == SumItems(units[..last.hi])
  {
    BatchCountsItems(envelope, units, last);
    SumOfBoth(units[..last.lo], units[last.lo..last.hi]);
    assert units[..last.lo] + units[last.lo..last.hi] == units[..last.hi];
    BatchesOneMore(envelope, units, before, last);
    SumOneMore(Batches(envelope, units, before), BatchOf(envelope, units, last));
  }

  lemma {:induction false} BatchesCountUnits(envelope: Frame, units: seq<Unit>, groups: seq<Group>, n: nat)
    requires n <= |units| && Within(groups, |units|) && Tiles(groups, |groups|, n)
    ensures SumBatches(Batches(envelope, units, groups)) == SumItems(units[..n])
  {
    if groups != [] {
      var last, before := groups[|groups| - 1], groups[..|groups| - 1];
      TilesOfPrefix(groups, |before|, |before|, last.lo);
      BatchesCountUnits(envelope, units, before, last.lo);
      assert before + [last] == groups;
      NextBatchCounts(envelope, units, before, last);
    }
  }

  /** What a line holds: a traces line its spans, a metrics line its own count. */
  function LineCount(line: Line): int {
    if line.Traces? then |line.spans| else line.items
  }

  function SumOver(count: Line -> int, lines: seq<Line>): int {
    if lines == [] then 0 else SumOver(count, lines[..|lines| - 1]) + count(lines[|lines| - 1])
  }

  lemma {:induction false} PiecesCountSpans(line: Line, groups: seq<Group>, n: nat)
    requires line.Traces? && Within(groups, |line.spans|) && Tiles(groups, |groups|, n)
    ensures SumItems(Pieces(line, groups)) == n
  {
    if groups != [] {
      var last, before := groups[|groups| - 1], groups[..|groups| - 1];
      TilesOfPrefix(groups, |before|, |before|, last.lo);
      PiecesCountSpans(line, before, last.lo);
      assert Pieces(line, groups)[..|before|] == Pieces(line, before);
    }
  }

  lemma LineUnitsCount(line: Line, envelopeBytes: nat, maxBytes: int)
    ensures SumItems(LineUnits(line, envelopeBytes, maxBytes)) == if line.Traces? then |line.spans| else line.items
  {
    var units := LineUnits(line, envelopeBytes, maxBytes);
    if line.Traces? && envelopeBytes + |Resource(line)| > maxBytes && line.spans != [] {
      GreedyFits(envelopeBytes + line.scope.EmptyBytes(), Sizes(line.spans), |line.spans|, maxBytes);
      SpanGroupsAreWithin(line, envelopeBytes, maxBytes);
      PiecesCountSpans(line, SpanGroups(line, envelopeBytes, maxBytes), |line.spans|);
    } else {
      assert units[..0] == [] && SumItems(units) == SumItems([]) + units[0].items;
    }
  }

  lemma {:induction false} FlatCounts(of: Line -> seq<Unit>, count: Line -> int, lines: seq<Line>)
    requires forall line :: SumItems(of(line)) == count(line)
    ensures SumItems(Flat(of, lines)) == SumOver(count, lines)
  {
    if lines != [] {
      FlatCounts(of, count, lines[..|lines| - 1]);
      SumOfBoth(Flat(of, lines[..|lines| - 1]), of(lines[|lines| - 1]));
    }
  }

  lemma {:induction false} BuiltUpIsFlat(of: Line -> seq<Unit>, lines: seq<Line>, units: nat -> seq<Unit>, n: nat)
    requires n <= |lines| && units(0) == [] && forall k: nat :: k < |lines| ==> units(k + 1) == units(k) + of(lines[k])
    ensures units(n) == Flat(of, lines[..n])
  {
    if n > 0 {
      BuiltUpIsFlat(of, lines, units, n - 1);
      FlatOneMore(of, lines[..n - 1], lines[n - 1]);
      assert lines[..n - 1] + [lines[n - 1]] == lines[..n];
    }
  }

  lemma AllUnitsAreFlat(lines: seq<Line>, envelopeBytes: nat, maxBytes: int)
    ensures AllUnits(lines, |lines|, envelopeBytes, maxBytes) == Flat((line: Line) => LineUnits(line, envelopeBytes, maxBytes), lines)
  {
    var of := (line: Line) => LineUnits(line, envelopeBytes, maxBytes);
    var units := (n: nat) => if n <= |lines| then AllUnits(lines, n, envelopeBytes, maxBytes) else [];
    BuiltUpIsFlat(of, lines, units, |lines|);
    assert lines[..|lines|] == lines;
  }

  lemma UnitsCountLines(lines: seq<Line>, envelopeBytes: nat, maxBytes: int)
    ensures SumItems(AllUnits(lines, |lines|, envelopeBytes, maxBytes)) == SumOver(LineCount, lines)
  {
    var of := (line: Line) => LineUnits(line, envelopeBytes, maxBytes);
    forall line ensures SumItems(of(line)) == LineCount(line) { LineUnitsCount(line, envelopeBytes, maxBytes); }
    AllUnitsAreFlat(lines, envelopeBytes, maxBytes);
    FlatCounts(of, LineCount, lines);
  }

  /** The bodies' item counts add up to what the lines hold. */
  lemma BodiesCountEveryItem(lines: seq<Line>, envelope: Frame, maxBytes: int)
    ensures var units := AllUnits(lines, |lines|, envelope.EmptyBytes(), maxBytes);
      && Within(UnitGroups(envelope, units, maxBytes), |units|)
      && SumBatches(Batches(envelope, units, UnitGroups(envelope, units, maxBytes))) == SumOver(LineCount, lines)
  {
    var units := AllUnits(lines, |lines|, envelope.EmptyBytes(), maxBytes);
    GreedyFits(envelope.EmptyBytes(), Sizes(Texts(units)), |units|, maxBytes);
    GreedyIsWithin(envelope.EmptyBytes(), Sizes(Texts(units)), |units|, maxBytes);
    BatchesCountUnits(envelope, units, UnitGroups(envelope, units, maxBytes), |units|);
    UnitsCountLines(lines, envelope.EmptyBytes(), maxBytes);
    assert units[..|units|] == units;
  }

  // ----- what is sent, over all lines and bodies

  /** A span of a traces line, or a metrics line as a whole. */
  datatype Item = Span(line: nat, index: nat) | Whole(line: nat)

  /** What a unit sends: some spans of a traces line in a row, or a metrics line. */
  datatype Part = Spans(line: nat, g: Group) | All(line: nat)

  function SpanRange(line: nat, lo: nat, hi: nat): seq<Item> {
    if hi <= lo then [] else seq(hi - lo, i requires 0 <= i => Span(line, lo + i))
  }

  function PartItems(part: Part): seq<Item> {
    match part
    case Spans(line, g) => SpanRange(line, g.lo, g.hi)
    case All(line) => [Whole(line)]
  }

  /** The items of all parts. */
  function ItemsOf(parts: seq<Part>): seq<Item> {
    Flat(PartItems, parts)
  }

  function LineItems(l: nat, line: Line): seq<Item> {
    if line.Traces? then SpanRange(l, 0, |line.spans|) else [Whole(l)]
  }

  function Concat<T>(lists: seq<seq<T>>): seq<T> {
    if lists == [] then [] else Concat(lists[..|lists| - 1]) + lists[|lists| - 1]
  }

  /** Every item of the lines once, in export order. */
  function AllItems(lines: seq<Line>): seq<Item> {
    Concat(seq(|lines|, l requires 0 <= l < |lines| => LineItems(l, lines[l])))
  }

  /** The unit sends the part: its text is that of the part's spans, or of the metrics line, and it counts them. */
  ghost predicate Sends(lines: seq<Line>, u: Unit, part: Part) {
    && part.line < |lines|
    && var line := lines[part.line];
       match part
       case Spans(_, g) => line.Traces? && g.lo <= g.hi <= |line.spans| && u == Piece(line, g)
       case All(_) => line.Metrics? && u == Unit(line.resource, line.items, |line.resource|)
  }

  ghost predicate SendAll(lines: seq<Line>, units: seq<Unit>, parts: seq<Part>) {
    |units| == |parts| && forall k :: 0 <= k < |units| ==> Sends(lines, units[k], parts[k])
  }

  function SpanParts(l: nat, groups: seq<Group>): seq<Part> {
    seq(|groups|, k requires 0 <= k < |groups| => Spans(l, groups[k]))
  }

  function LineParts(l: nat, line: Line, envelopeBytes: nat, maxBytes: int): seq<Part> {
    if line.Metrics? then [All(l)]
    else if envelopeBytes + |Resource(line)| > maxBytes then
      SpanParts(l, SpanGroups(line, envelopeBytes, maxBytes))
    else [Spans(l, Group(0, |line.spans|))]
  }

  function PartsByLine(lines: seq<Line>, n: nat, envelopeBytes: nat, maxBytes: int): seq<seq<Part>>
    requires n <= |lines|
  {
    seq(n, l requires 0 <= l < n => LineParts(l, lines[l], envelopeBytes, maxBytes))
  }

  function AllParts(lines: seq<Line>, envelopeBytes: nat, maxBytes: int): seq<Part> {
    Concat(PartsByLine(lines, |lines|, envelopeBytes, maxBytes))
  }

  lemma LineUnitsSendParts(lines: seq<Line>, l: nat, envelopeBytes: nat, maxBytes: int)
    requires l < |lines|
    ensures SendAll(lines, LineUnits(lines[l], envelopeBytes, maxBytes), LineParts(l, lines[l], envelopeBytes, maxBytes))
  {
    var line := lines[l];
    if line.Traces? {
      SpanGroupsAreWithin(line, envelopeBytes, maxBytes);
      assert line.spans[0..|line.spans|] == line.spans;
    }
  }

  lemma SendBoth(lines: seq<Line>, a: seq<Unit>, x: seq<Part>, b: seq<Unit>, y: seq<Part>)
    requires SendAll(lines, a, x) && SendAll(lines, b, y)
    ensures SendAll(lines, a + b, x + y)
  {
  }

  lemma {:induction false} UnitsSendParts(lines: seq<Line>, n: nat, envelopeBytes: nat, maxBytes: int)
    requires n <= |lines|
    ensures SendAll(lines, AllUnits(lines, n, envelopeBytes, maxBytes), Concat(PartsByLine(lines, n, envelopeBytes, maxBytes)))
  {
    if n > 0 {
      var before := PartsByLine(lines, n - 1, envelopeBytes, maxBytes);
      UnitsSendParts(lines, n - 1, envelopeBytes, maxBytes);
      SendLine(lines, AllUnits(lines, n - 1, envelopeBytes, maxBytes), Concat(before), n - 1, envelopeBytes, maxBytes);
      assert PartsByLine(lines, n, envelopeBytes, maxBytes)[..n - 1] == before;
    }
  }

  lemma SendLine(lines: seq<Line>, units: seq<Unit>, parts: seq<Part>, l: nat, envelopeBytes: nat, maxBytes: int)
    requires l < |lines| && SendAll(lines, units, parts)
    ensures SendAll(lines, units + LineUnits(lines[l], envelopeBytes, maxBytes), parts + LineParts(l, lines[l], envelopeBytes, maxBytes))
  {
    LineUnitsSendParts(lines, l, envelopeBytes, maxBytes);
    SendBoth(lines, units, parts, LineUnits(lines[l], envelopeBytes, maxBytes), LineParts(l, lines[l], envelopeBytes, maxBytes));
  }

  lemma {:induction false} GroupItemsAreTheSpans(l: nat, groups: seq<Group>, n: nat)
    requires Tiles(groups, |groups|, n)
    ensures ItemsOf(SpanParts(l, groups)) == SpanRange(l, 0, n)
  {
    if groups != [] {
      var last, before := groups[|groups| - 1], groups[..|groups| - 1];
      TilesOfPrefix(groups, |before|, |before|, last.lo);
      GroupItemsAreTheSpans(l, before, last.lo);
      FlatOneMore(PartItems, SpanParts(l, before), Spans(l, last));
      assert SpanParts(l, before) + [Spans(l, last)] == SpanParts(l, groups);
      assert SpanRange(l, 0, n) == SpanRange(l, 0, last.lo) + SpanRange(l, last.lo, n);
    }
  }

  lemma {:induction false} TilesOfPrefix(groups: seq<Group>, m: nat, count: nat, n: nat)
    requires count <= m <= |groups| && Tiles(groups, count, n)
    ensures Tiles(groups[..m], count, n)
  {
    if count > 0 { TilesOfPrefix(groups, m, count - 1, groups[count - 1].lo); }
  }

  /** The parts of a line hold its items once, in order. */
  lemma LinePartsAreItems(l: nat, line: Line, envelopeBytes: nat, maxBytes: int)
    ensures ItemsOf(LineParts(l, line, envelopeBytes, maxBytes)) == LineItems(l, line)
  {
    if line.Traces? && envelopeBytes + |Resource(line)| > maxBytes && line.spans != [] {
      GreedyFits(envelopeBytes + line.scope.EmptyBytes(), Sizes(line.spans), |line.spans|, maxBytes);
      GroupItemsAreTheSpans(l, SpanGroups(line, envelopeBytes, maxBytes), |line.spans|);
    } else {
      var parts := LineParts(l, line, envelopeBytes, maxBytes);
      FlatOneMore(PartItems, [], parts[0]);
      assert [] + [parts[0]] == parts && [] + PartItems(parts[0]) == LineItems(l, line);
    }
  }

  lemma {:induction false} ConcatHolds(parts: seq<seq<Part>>, items: seq<seq<Item>>)
    requires |parts| == |items| && forall l :: 0 <= l < |parts| ==> ItemsOf(parts[l]) == items[l]
    ensures ItemsOf(Concat(parts)) == Concat(items)
  {
    if parts != [] {
      var n := |parts| - 1;
      ConcatHolds(parts[..n], items[..n]);
      FlatBoth(PartItems, Concat(parts[..n]), parts[n]);
    }
  }

  lemma PartsAreItems(lines: seq<Line>, envelopeBytes: nat, maxBytes: int)
    ensures ItemsOf(AllParts(lines, envelopeBytes, maxBytes)) == AllItems(lines)
  {
    var parts := PartsByLine(lines, |lines|, envelopeBytes, maxBytes);
    var items := seq(|lines|, l requires 0 <= l < |lines| => LineItems(l, lines[l]));
    forall l | 0 <= l < |lines| ensures ItemsOf(parts[l]) == items[l] { LinePartsAreItems(l, lines[l], envelopeBytes, maxBytes); }
    ConcatHolds(parts, items);
  }

  /** The items of the first `count` bodies, one body after the other. */
  ghost function SentItems(parts: seq<Part>, groups: seq<Group>, count: nat): seq<Item>
    requires Within(groups, |parts|) && count <= |groups|
  {
    if count == 0 then []
    else SentItems(parts, groups, count - 1) + ItemsOf(parts[groups[count - 1].lo..groups[count - 1].hi])
  }

  lemma NextBodySends(parts: seq<Part>, groups: seq<Group>, count: nat, n: nat)
    requires Within(groups, |parts|) && 0 < count <= |groups| && n == groups[count - 1].hi
    requires SentItems(parts, groups, count - 1) == ItemsOf(parts[..groups[count - 1].lo])
    ensures SentItems(parts, groups, count) == ItemsOf(parts[..n])
  {
    var lo := groups[count - 1].lo;
    FlatBoth(PartItems, parts[..lo], parts[lo..n]);
    assert parts[..lo] + parts[lo..n] == parts[..n];
  }

  lemma {:induction false} BodiesSendTheParts(parts: seq<Part>, groups: seq<Group>, count: nat, n: nat)
    requires Within(groups, |parts|) && count <= |groups| && n <= |parts| && Tiles(groups, count, n)
    ensures SentItems(parts, groups, count) == ItemsOf(parts[..n])
  {
    if count > 0 {
      BodiesSendTheParts(parts, groups, count - 1, groups[count - 1].lo);
      NextBodySends(parts, groups, count, n);
    }
  }

  /** Over all lines and bodies: every span and every metrics line is sent once, in export order. */
  lemma EveryItemIsSentOnce(lines: seq<Line>, envelope: Frame, maxBytes: int)
    ensures var units := AllUnits(lines, |lines|, envelope.EmptyBytes(), maxBytes);
      var parts := AllParts(lines, envelope.EmptyBytes(), maxBytes);
      var groups := UnitGroups(envelope, units, maxBytes);
      && SendAll(lines, units, parts) && Within(groups, |parts|)
      && SentItems(parts, groups, |groups|) == AllItems(lines)
  {
    var units := AllUnits(lines, |lines|, envelope.EmptyBytes(), maxBytes);
    var parts := AllParts(lines, envelope.EmptyBytes(), maxBytes);
    var groups := UnitGroups(envelope, units, maxBytes);
    UnitsSendParts(lines, |lines|, envelope.EmptyBytes(), maxBytes);
    PartsAreItems(lines, envelope.EmptyBytes(), maxBytes);
    GreedyFits(envelope.EmptyBytes(), Sizes(Texts(units)), |units|, maxBytes);
    GreedyIsWithin(envelope.EmptyBytes(), Sizes(Texts(units)), |units|, maxBytes);
    BodiesSendTheParts(parts, groups, |groups|, |parts|);
    assert parts[..|parts|] == parts;
  }
}
