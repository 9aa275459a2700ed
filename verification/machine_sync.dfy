/**
 Syncing another machine's usage (src/machines/machine-export-bundle.ts,
 src/machines/machine-cache.ts): the export leaves out files the cache already holds, the reader
 rejects incomplete bundles, and applying one makes the cache the exporter's mirror.
 */
module MachineSync {
  import opened Common

  /** A file by its source and path. */
  datatype FileKey = FileKey(source: string, filePath: string)

  /** A counted file: a snapshot on the exporter, or a `file` line of the bundle. */
  datatype File<E, S> = File(key: FileKey, revision: string, events: seq<E>, sessionEvents: seq<S>)

  datatype Listed = Listed(key: FileKey, revision: string)

  datatype Line<H, E, S> =
    | HeaderLine(header: H)
    | FileLine(file: File<E, S>)
    | EndLine(files: seq<Listed>, eventCount: nat)

  /** `Other` is JSON that is no bundle line this version accepts. */
  datatype Content<H, E, S> = Blank | NotJson | Other | Bundle(line: Line<H, E, S>)

  /** A line of the command's output; `namesFormat` is whether it holds the quoted format name. */
  datatype Input<H, E, S> = Input(namesFormat: bool, content: Content<H, E, S>)

  datatype Export<H, E, S> = Export(header: H, sentFiles: seq<File<E, S>>, files: seq<Listed>, eventCount: nat)

  // ----- the export

  predicate Counted<E, S>(f: File<E, S>) {
    f.events != []
  }

  /** The files to keep among the first `n`, in order. */
  function Filter<E, S>(files: seq<File<E, S>>, keep: File<E, S> -> bool, n: nat): seq<File<E, S>>
    requires n <= |files|
  {
    if n == 0 then [] else Filter(files, keep, n - 1) + (if keep(files[n - 1]) then [files[n - 1]] else [])
  }

  function CountedFiles<E, S>(snapshots: seq<File<E, S>>, n: nat): seq<File<E, S>>
    requires n <= |snapshots|
  {
    Filter(snapshots, (f: File<E, S>) => Counted(f), n)
  }

  predicate IsKnown<E, S>(known: map<FileKey, string>, f: File<E, S>) {
    f.key in known && known[f.key] == f.revision
  }

  function Unknown<E, S>(files: seq<File<E, S>>, known: map<FileKey, string>, n: nat): seq<File<E, S>>
    requires n <= |files|
  {
    Filter(files, (f: File<E, S>) => !IsKnown(known, f), n)
  }

  function ListedOf<E, S>(files: seq<File<E, S>>): (r: seq<Listed>)
    ensures |r| == |files| && forall i :: 0 <= i < |r| ==> r[i] == Listed(files[i].key, files[i].revision)
  {
    seq(|files|, i requires 0 <= i < |files| => Listed(files[i].key, files[i].revision))
  }

  function EventsIn<E, S>(files: seq<File<E, S>>, n: nat): nat
    requires n <= |files|
  {
    if n == 0 then 0 else EventsIn(files, n - 1) + |files[n - 1].events|
  }

  /** Every counted file is listed; those the reader does not hold at that revision are sent. */
  function ExportOf<H, E, S>(header: H, snapshots: seq<File<E, S>>, known: map<FileKey, string>): Export<H, E, S> {
    var files := CountedFiles(snapshots, |snapshots|);
    Export(header, Unknown(files, known, |files|), ListedOf(files), EventsIn(files, |files|))
  }

  function FileLines<H, E, S>(files: seq<File<E, S>>): (r: seq<Line<H, E, S>>)
    ensures |r| == |files| && forall i :: 0 <= i < |r| ==> r[i] == FileLine(files[i])
  {
    seq(|files|, i requires 0 <= i < |files| => FileLine(files[i]))
  }

  function LinesOf<H, E, S>(e: Export<H, E, S>): seq<Line<H, E, S>> {
    [HeaderLine(e.header)] + FileLines(e.sentFiles) + [EndLine(e.files, e.eventCount)]
  }

  method BuildMachineExportLines<H, E, S>(header: H, snapshots: seq<File<E, S>>, known: map<FileKey, string>)
    returns (lines: seq<Line<H, E, S>>)
    ensures lines == LinesOf(ExportOf(header, snapshots, known))
  {
    lines := [HeaderLine(header)];
    var files: seq<Listed>, eventCount := [], 0;
    ghost var counted: seq<File<E, S>>, sent: seq<File<E, S>> := [], [];
    for i := 0 to |snapshots|
      invariant counted == CountedFiles(snapshots, i) && sent == Unknown(counted, known, |counted|)
      invariant files == ListedOf(counted) && eventCount == EventsIn(counted, |counted|)
      invariant lines == [HeaderLine(header)] + FileLines(sent)
    {
      var snapshot := snapshots[i];
      if snapshot.events != [] {
        files, eventCount := files + [Listed(snapshot.key, snapshot.revision)], eventCount + |snapshot.events|;
        CountOneMore(counted, snapshot, known);
        counted := counted + [snapshot];
        if !(snapshot.key in known && known[snapshot.key] == snapshot.revision) {
          lines, sent := lines + [FileLine(snapshot)], sent + [snapshot];
        }
      }
    }
    lines := lines + [EndLine(files, eventCount)];
  }

  lemma CountOneMore<E, S>(files: seq<File<E, S>>, f: File<E, S>, known: map<FileKey, string>)
    ensures EventsIn(files + [f], |files| + 1) == EventsIn(files, |files|) + |f.events|
    ensures Unknown(files + [f], known, |files| + 1) == Unknown(files, known, |files|) + (if IsKnown(known, f) then [] else [f])
  {
    var more := files + [f];
    assert more[|files|] == f;
    PrefixEvents(files, more, |files|);
    PrefixFilter(files, more, (f: File<E, S>) => !IsKnown(known, f), |files|);
  }

  lemma {:induction false} PrefixEvents<E, S>(a: seq<File<E, S>>, b: seq<File<E, S>>, n: nat)
    requires n <= |a| <= |b| && forall i :: 0 <= i < |a| ==> a[i] == b[i]
    ensures EventsIn(a, n) == EventsIn(b, n)
  {
    if n > 0 { PrefixEvents(a, b, n - 1); }
  }

  lemma {:induction false} PrefixFilter<E, S>(a: seq<File<E, S>>, b: seq<File<E, S>>, keep: File<E, S> -> bool, n: nat)
    requires n <= |a| <= |b| && forall i :: 0 <= i < |a| ==> a[i] == b[i]
    ensures Filter(a, keep, n) == Filter(b, keep, n)
  {
    if n > 0 { PrefixFilter(a, b, keep, n - 1); }
  }

  /**
     One more snapshot: without events it changes nothing; with some it is listed at its revision and
     its events are counted, and it is sent unless the reader holds that very revision.
   */
  lemma NextSnapshotIsExported<H, E, S>(header: H, snapshots: seq<File<E, S>>, f: File<E, S>, known: map<FileKey, string>)
    ensures ExportOf<H, E, S>(header, [], known) == Export(header, [], [], 0)
    ensures var before, after := ExportOf(header, snapshots, known), ExportOf(header, snapshots + [f], known);
      after ==
      if f.events == [] then before
      else Export(header,
                  before.sentFiles + (if f.key in known && known[f.key] == f.revision then [] else [f]),
                  before.files + [Listed(f.key, f.revision)],
                  before.eventCount + |f.events|)
  {
    var more := snapshots + [f];
    var files := CountedFiles(snapshots, |snapshots|);
    PrefixFilter(snapshots, more, (f: File<E, S>) => Counted(f), |snapshots|);
    assert more[|snapshots|] == f;
    CountOneMore(files, f, known);
    var counted := files + if Counted(f) then [f] else [];
    assert CountedFiles(more, |more|) == counted;
    assert Counted(f) ==> ListedOf(counted) == ListedOf(files) + [Listed(f.key, f.revision)];
    assert !Counted(f) ==> counted == files;
  }

  // ----- reading a bundle

  datatype Scan<H, E, S> =
    | Failed
    | Reading(header: Option<H>, sentFiles: seq<File<E, S>>, end: Option<(seq<Listed>, nat)>)

  predicate ValidKey(key: FileKey) {
    key.source != "" && key.filePath != ""
  }

  predicate ValidFile<E, S>(f: File<E, S>) {
    ValidKey(f.key) && f.revision != "" && f.events != []
  }

  predicate ValidEnd(files: seq<Listed>) {
    forall i :: 0 <= i < |files| ==> ValidKey(files[i].key) && files[i].revision != ""
  }

  function ScanLine<H, E, S>(s: Scan<H, E, S>, input: Input<H, E, S>): Scan<H, E, S> {
    if s.Failed? || input.content.Blank? then s
    else if s.end.Some? then (if input.content.NotJson? then s else Failed)
    else if s.header.None? then
      if !input.namesFormat then s
      else if input.content.Bundle? && input.content.line.HeaderLine? then s.(header := Some(input.content.line.header))
      else Failed
    else if !input.content.Bundle? then Failed
    else
      match input.content.line
      case HeaderLine(_) => Failed
      case FileLine(file) => if ValidFile(file) then s.(sentFiles := s.sentFiles + [file]) else Failed
      case EndLine(files, eventCount) => if ValidEnd(files) then s.(end := Some((files, eventCount))) else Failed
  }

  /** The scan of the first `n` lines. */
  function ScanTo<H, E, S>(lines: seq<Input<H, E, S>>, n: nat): Scan<H, E, S>
    requires n <= |lines|
  {
    if n == 0 then Reading(None, [], None) else ScanLine(ScanTo(lines, n - 1), lines[n - 1])
  }

  ghost predicate ListedOnce(files: seq<Listed>) {
    forall i, j :: 0 <= i < j < |files| ==> files[i].key != files[j].key
  }

  ghost predicate SentOnce<E, S>(files: seq<File<E, S>>) {
    forall i, j :: 0 <= i < j < |files| ==> files[i].key != files[j].key
  }

  /** Every sent file is listed once, at the sent revision. */
  ghost predicate Consistent<H, E, S>(e: Export<H, E, S>) {
    && ListedOnce(e.files) && SentOnce(e.sentFiles)
    && forall i :: 0 <= i < |e.sentFiles| ==> Listed(e.sentFiles[i].key, e.sentFiles[i].revision) in e.files
  }

  ghost function ReadExport<H, E, S>(lines: seq<Input<H, E, S>>): Option<Export<H, E, S>> {
    match ScanTo(lines, |lines|)
    case Failed => None
    case Reading(header, sentFiles, end) =>
      if header.None? || end.None? then None
      else
        var e := Export(header.value, sentFiles, end.value.0, end.value.1);
        if Consistent(e) then Some(e) else None
  }

  method ReadMachineExport<H, E, S>(lines: seq<Input<H, E, S>>) returns (r: Option<Export<H, E, S>>)
    ensures r == ReadExport(lines)
  {
    var s: Scan<H, E, S> := Reading(None, [], None);
    for i := 0 to |lines|
      invariant s == ScanTo(lines, i) && s.Reading?
    {
      s := ScanLine(s, lines[i]);
      if s.Failed? {
        FailureStays(lines, i + 1, |lines|);
        return None;
      }
    }
    if s.header.None? || s.end.None? { return None; }
    var e := Export(s.header.value, s.sentFiles, s.end.value.0, s.end.value.1);
    var consistent := CheckFiles(e);
    r := if consistent then Some(e) else None;
  }

  lemma {:induction false} FailureStays<H, E, S>(lines: seq<Input<H, E, S>>, n: nat, m: nat)
    requires n <= m <= |lines| && ScanTo(lines, n).Failed?
    ensures ScanTo(lines, m).Failed?
    decreases m - n
  {
    if n < m { FailureStays(lines, n, m - 1); }
  }

  method CheckFiles<H, E, S>(e: Export<H, E, S>) returns (consistent: bool)
    ensures consistent == Consistent(e)
  {
    var revisions := ReadListed(e.files);
    if revisions.None? { return false; }
    consistent := CheckSent(e.sentFiles, revisions.value, e.files);
  }

  /** The revisions of a list, by file. */
  ghost predicate Lists(revisions: map<FileKey, string>, files: seq<Listed>) {
    forall key, revision :: Listed(key, revision) in files <==> key in revisions && revisions[key] == revision
  }

  method ReadListed(files: seq<Listed>) returns (revisions: Option<map<FileKey, string>>)
    ensures revisions.Some? <==> ListedOnce(files)
    ensures revisions.Some? ==> Lists(revisions.value, files)
  {
    var listed: map<FileKey, string> := map[];
    for i := 0 to |files|
      invariant ListedOnce(files[..i]) && Lists(listed, files[..i])
    {
      assert files[..i + 1] == files[..i] + [files[i]];
      if files[i].key in listed {
        assert Listed(files[i].key, listed[files[i].key]) in files[..i];
        return None;
      }
      listed := listed[files[i].key := files[i].revision];
    }
    assert files[..|files|] == files;
    revisions := Some(listed);
  }

  method CheckSent<E, S>(sentFiles: seq<File<E, S>>, revisions: map<FileKey, string>, ghost files: seq<Listed>)
    returns (consistent: bool)
    requires Lists(revisions, files)
    ensures consistent <==> SentOnce(sentFiles) && forall i :: 0 <= i < |sentFiles| ==> Listed(sentFiles[i].key, sentFiles[i].revision) in files
  {
    var sentKeys: set<FileKey> := {};
    for i := 0 to |sentFiles|
      invariant sentKeys == set j | 0 <= j < i :: sentFiles[j].key
      invariant forall j, k :: 0 <= j < k < i ==> sentFiles[j].key != sentFiles[k].key
      invariant forall j :: 0 <= j < i ==> Listed(sentFiles[j].key, sentFiles[j].revision) in files
    {
      var f := sentFiles[i];
      if f.key in sentKeys || f.key !in revisions || revisions[f.key] != f.revision { return false; }
      sentKeys := sentKeys + {f.key};
    }
    consistent := true;
  }

  // ----- a built bundle is read back

  /** `before` lines of shell noise, then the bundle's lines, then noise that is not JSON. */
  ghost predicate Carries<H, E, S>(lines: seq<Input<H, E, S>>, before: nat, bundle: seq<Line<H, E, S>>, count: nat) {
    && count <= |bundle| && before + count <= |lines| && bundle != [] && bundle[0].HeaderLine?
    && (forall i :: 0 <= i < before ==> !lines[i].namesFormat || lines[i].content.Blank?)
    && (forall i :: 0 <= i < count ==> lines[before + i].content == Bundle(bundle[i]))
    && (count > 0 ==> lines[before].namesFormat)
    && (forall i :: before + count <= i < |lines| ==> lines[i].content.Blank? || lines[i].content.NotJson?)
  }

  lemma {:induction false} NoiseBeforeIsSkipped<H, E, S>(lines: seq<Input<H, E, S>>, n: nat)
    requires n <= |lines| && forall i :: 0 <= i < n ==> !lines[i].namesFormat || lines[i].content.Blank?
    ensures ScanTo(lines, n) == Reading(None, [], None)
  {
    if n > 0 { NoiseBeforeIsSkipped(lines, n - 1); }
  }

  predicate Sendable<H, E, S>(e: Export<H, E, S>) {
    (forall i :: 0 <= i < |e.sentFiles| ==> ValidFile(e.sentFiles[i])) && ValidEnd(e.files)
  }

  /** The scan after the header and `n` file lines. */
  lemma {:induction false} FilesAreRead<H, E, S>(lines: seq<Input<H, E, S>>, before: nat, e: Export<H, E, S>, count: nat, n: nat)
    requires Carries(lines, before, LinesOf(e), count) && Sendable(e) && n <= |e.sentFiles| && n + 1 <= count
    ensures ScanTo(lines, before + n + 1) == Reading(Some(e.header), e.sentFiles[..n], None)
  {
    if n == 0 {
      NoiseBeforeIsSkipped(lines, before);
      assert lines[before].content == Bundle(LinesOf(e)[0]);
    } else {
      FilesAreRead(lines, before, e, count, n - 1);
      assert lines[before + n].content == Bundle(LinesOf(e)[n]);
      assert e.sentFiles[..n] == e.sentFiles[..n - 1] + [e.sentFiles[n - 1]];
    }
  }

  lemma {:induction false} NoiseAfterIsSkipped<H, E, S>(lines: seq<Input<H, E, S>>, from: nat, n: nat)
    requires from <= n <= |lines| && ScanTo(lines, from).Reading? && ScanTo(lines, from).end.Some?
    requires forall i :: from <= i < |lines| ==> lines[i].content.Blank? || lines[i].content.NotJson?
    ensures ScanTo(lines, n) == ScanTo(lines, from)
    decreases n
  {
    if from < n { NoiseAfterIsSkipped(lines, from, n - 1); }
  }

  /** A bundle is read back as it was built, whatever a shell prints before and after it. */
  lemma BuiltBundleIsReadBack<H, E, S>(lines: seq<Input<H, E, S>>, before: nat, e: Export<H, E, S>)
    requires Sendable(e) && Consistent(e) && Carries(lines, before, LinesOf(e), |LinesOf(e)|)
    ensures ReadExport(lines) == Some(e)
  {
    var sent := |e.sentFiles|;
    FilesAreRead(lines, before, e, |LinesOf(e)|, sent);
    assert e.sentFiles[..sent] == e.sentFiles;
    assert lines[before + sent + 1].content == Bundle(LinesOf(e)[sent + 1]);
    NoiseAfterIsSkipped(lines, before + sent + 2, |lines|);
  }

  lemma {:induction false} EndNeverComes<H, E, S>(lines: seq<Input<H, E, S>>, n: nat)
    requires n <= |lines|
    requires forall i :: 0 <= i < |lines| ==> !(lines[i].content.Bundle? && lines[i].content.line.EndLine?)
    ensures ScanTo(lines, n).Failed? || ScanTo(lines, n).end.None?
  {
    if n > 0 { EndNeverComes(lines, n - 1); }
  }

  /** A bundle cut off after fewer lines than it has is rejected. */
  lemma CutOffBundleIsRejected<H, E, S>(lines: seq<Input<H, E, S>>, before: nat, e: Export<H, E, S>, count: nat)
    requires count < |LinesOf(e)| && Carries(lines, before, LinesOf(e), count)
    ensures ReadExport(lines).None?
  {
    if count == 0 {
      HeaderNeverComes(lines, before, |lines|);
    } else {
      forall i | before <= i < |lines| ensures !(lines[i].content.Bundle? && lines[i].content.line.EndLine?) {
        if i < before + count { assert lines[before + (i - before)].content == Bundle(LinesOf(e)[i - before]); }
      }
      CutOffNeverEnds(lines, before, |lines|);
    }
  }

  lemma {:induction false} HeaderNeverComes<H, E, S>(lines: seq<Input<H, E, S>>, before: nat, n: nat)
    requires before <= |lines| && n <= |lines|
    requires forall i :: 0 <= i < before ==> !lines[i].namesFormat || lines[i].content.Blank?
    requires forall i :: before <= i < |lines| ==> lines[i].content.Blank? || lines[i].content.NotJson?
    ensures ScanTo(lines, n).Failed? || ScanTo(lines, n) == Reading(None, [], None)
  {
    if n > 0 { HeaderNeverComes(lines, before, n - 1); }
  }

  lemma {:induction false} CutOffNeverEnds<H, E, S>(lines: seq<Input<H, E, S>>, before: nat, n: nat)
    requires before <= |lines| && n <= |lines|
    requires forall i :: 0 <= i < before ==> !lines[i].namesFormat || lines[i].content.Blank?
    requires forall i :: before <= i < |lines| ==> !(lines[i].content.Bundle? && lines[i].content.line.EndLine?)
    ensures ScanTo(lines, n).Failed? || (ScanTo(lines, n).end.None? && (n <= before ==> ScanTo(lines, n).header.None?))
  {
    if n > 0 { CutOffNeverEnds(lines, before, n - 1); }
  }

  lemma {:induction false} ScannedFilesAreValid<H, E, S>(lines: seq<Input<H, E, S>>, n: nat)
    requires n <= |lines| && ScanTo(lines, n).Reading?
    ensures forall i :: 0 <= i < |ScanTo(lines, n).sentFiles| ==> ValidFile(ScanTo(lines, n).sentFiles[i])
    ensures ScanTo(lines, n).end.Some? ==> ValidEnd(ScanTo(lines, n).end.value.0)
  {
    if n > 0 { ScannedFilesAreValid(lines, n - 1); }
  }

  /** Whatever the output, what the reader accepts is an export that passes every check. */
  lemma AcceptedExportIsValid<H, E, S>(lines: seq<Input<H, E, S>>)
    requires ReadExport(lines).Some?
    ensures Sendable(ReadExport(lines).value) && Consistent(ReadExport(lines).value)
  {
    ScannedFilesAreValid(lines, |lines|);
  }

  /** A line the reader skips before the header. */
  predicate IsNoise<H, E, S>(input: Input<H, E, S>) {
    input.content.Blank? || !input.namesFormat
  }

  /** Among the first `n` lines: noise, the header at `h`, and then but for blank lines the sent files, at `at`. */
  ghost predicate Opened<H, E, S>(lines: seq<Input<H, E, S>>, n: nat, h: nat, at: seq<nat>, header: H, sent: seq<File<E, S>>) {
    && h < n <= |lines| && |at| == |sent|
    && (forall i :: 0 <= i < h ==> IsNoise(lines[i]))
    && lines[h].namesFormat && lines[h].content == Bundle(HeaderLine(header))
    && (forall i, j :: 0 <= i < j < |at| ==> at[i] < at[j])
    && (forall j :: 0 <= j < |at| ==> h < at[j] < n && lines[at[j]].content == Bundle(FileLine(sent[j])))
    && (forall i :: h < i < n ==> lines[i].content.Blank? || i in at)
  }

  /** And then the end line at `z`, and after it only blank lines and lines that are not JSON. */
  ghost predicate Closed<H, E, S>(lines: seq<Input<H, E, S>>, n: nat, z: nat, files: seq<Listed>, eventCount: nat) {
    && z < n <= |lines| && lines[z].content == Bundle(EndLine(files, eventCount))
    && forall i :: z < i < n ==> lines[i].content.Blank? || lines[i].content.NotJson?
  }

  /** Every sent file has a source, a path, a revision and events. */
  ghost predicate AllSendable<E, S>(sent: seq<File<E, S>>) {
    forall i :: 0 <= i < |sent| ==> sent[i].key.source != "" && sent[i].key.filePath != "" && sent[i].revision != "" && sent[i].events != []
  }

  /** Every listed file has a source, a path and a revision. */
  ghost predicate AllListable(files: seq<Listed>) {
    forall i :: 0 <= i < |files| ==> files[i].key.source != "" && files[i].key.filePath != "" && files[i].revision != ""
  }

  /** What the lines read so far are, by the state of the scan. */
  ghost predicate ScanIs<H, E, S>(lines: seq<Input<H, E, S>>, n: nat, s: Scan<H, E, S>, h: nat, at: seq<nat>, z: nat) {
    && n <= |lines| && s.Reading? && AllSendable(s.sentFiles)
    && if s.header.None? then s == Reading(None, [], None) && forall i :: 0 <= i < n ==> IsNoise(lines[i])
       else if s.end.None? then Opened(lines, n, h, at, s.header.value, s.sentFiles)
       else && AllListable(s.end.value.0) && Opened(lines, z, h, at, s.header.value, s.sentFiles)
            && Closed(lines, n, z, s.end.value.0, s.end.value.1)
  }

  lemma NextIsScanned<H, E, S>(lines: seq<Input<H, E, S>>, n: nat, s: Scan<H, E, S>, h: nat, at: seq<nat>, z: nat)
    returns (h': nat, at': seq<nat>, z': nat)
    requires n < |lines| && ScanIs(lines, n, s, h, at, z) && ScanLine(s, lines[n]).Reading?
    ensures ScanIs(lines, n + 1, ScanLine(s, lines[n]), h', at', z')
  {
    var s' := ScanLine(s, lines[n]);
    h', at', z' := h, at, z;
    if s'.header.Some? && s.header.None? {
      h', at' := n, [];
    } else if s'.end.Some? && s.end.None? {
      z' := n;
    } else if s'.sentFiles != s.sentFiles {
      at' := at + [n];
      assert at'[|at|] == n;
    }
  }

  lemma {:induction false} ScanFinds<H, E, S>(lines: seq<Input<H, E, S>>, n: nat) returns (h: nat, at: seq<nat>, z: nat)
    requires n <= |lines| && ScanTo(lines, n).Reading?
    ensures ScanIs(lines, n, ScanTo(lines, n), h, at, z)
  {
    h, at, z := 0, [], 0;
    if n > 0 {
      h, at, z := ScanFinds(lines, n - 1);
      h, at, z := NextIsScanned(lines, n - 1, ScanTo(lines, n - 1), h, at, z);
    }
  }

  lemma LastOfAscending(at: seq<nat>, h: nat, n: nat)
    requires (forall i, j :: 0 <= i < j < |at| ==> at[i] < at[j]) && forall j :: 0 <= j < |at| ==> h < at[j] < n
    ensures n == h + 1 ==> at == []
    ensures n > 0 && n - 1 in at ==> at[|at| - 1] == n - 1
  {
    assert |at| > 0 ==> h < at[|at| - 1] < n;
    assert forall i, j :: 0 <= i <= j < |at| ==> at[i] <= at[j];
  }

  lemma LastFileWasRead<H, E, S>(lines: seq<Input<H, E, S>>, n: nat, h: nat, at: seq<nat>, header: H, sent: seq<File<E, S>>)
    returns (at': seq<nat>, sent': seq<File<E, S>>, f: File<E, S>)
    requires Opened(lines, n, h, at, header, sent) && n - 1 in at && AllSendable(sent)
    ensures Opened(lines, n - 1, h, at', header, sent') && AllSendable(sent')
    ensures lines[n - 1].content == Bundle(FileLine(f)) && ValidFile(f) && sent == sent' + [f]
  {
    var last := |at| - 1;
    LastOfAscending(at, h, n);
    at', sent', f := at[..last], sent[..last], sent[last];
    assert at == at' + [n - 1];
  }

  lemma HeaderWasRead<H, E, S>(lines: seq<Input<H, E, S>>, h: nat, at: seq<nat>, header: H, sent: seq<File<E, S>>)
    requires Opened(lines, h + 1, h, at, header, sent)
    ensures at == [] && sent == [] && ScanIs(lines, h, Reading(None, [], None), h, [], 0)
    ensures ScanLine(Reading(None, [], None), lines[h]) == Reading(Some(header), sent, None)
  {
    LastOfAscending(at, h, h + 1);
  }

  lemma BlankWasRead<H, E, S>(lines: seq<Input<H, E, S>>, n: nat, h: nat, at: seq<nat>, header: H, sent: seq<File<E, S>>)
    requires Opened(lines, n, h, at, header, sent) && n - 1 > h && n - 1 !in at
    ensures Opened(lines, n - 1, h, at, header, sent) && lines[n - 1].content.Blank?
  {
  }

  /** The scan before the last line. */
  lemma LastWasScanned<H, E, S>(lines: seq<Input<H, E, S>>, n: nat, s: Scan<H, E, S>, h: nat, at: seq<nat>, z: nat)
    returns (s': Scan<H, E, S>, at': seq<nat>)
    requires n > 0 && ScanIs(lines, n, s, h, at, z)
    ensures ScanIs(lines, n - 1, s', h, at', z) && ScanLine(s', lines[n - 1]) == s
  {
    s', at' := s, at;
    if s.header.Some? {
      if s.end.Some? {
        if n - 1 == z { s' := s.(end := None); }
      } else {
        s', at' := LastWasOpened(lines, n, s, h, at, z);
      }
    }
  }

  lemma LastWasOpened<H, E, S>(lines: seq<Input<H, E, S>>, n: nat, s: Scan<H, E, S>, h: nat, at: seq<nat>, z: nat)
    returns (s': Scan<H, E, S>, at': seq<nat>)
    requires n > 0 && s.Reading? && s.header.Some? && s.end.None? && ScanIs(lines, n, s, h, at, z)
    ensures ScanIs(lines, n - 1, s', h, at', z) && ScanLine(s', lines[n - 1]) == s
  {
    s', at' := s, at;
    if n - 1 == h {
      s', at' := Reading(None, [], None), [];
      HeaderWasRead(lines, h, at, s.header.value, s.sentFiles);
    } else if n - 1 in at {
      var sent', f;
      at', sent', f := LastFileWasRead(lines, n, h, at, s.header.value, s.sentFiles);
      s' := s.(sentFiles := sent');
    } else {
      BlankWasRead(lines, n, h, at, s.header.value, s.sentFiles);
    }
  }

  lemma {:induction false} ScanReaches<H, E, S>(lines: seq<Input<H, E, S>>, n: nat, s: Scan<H, E, S>, h: nat, at: seq<nat>, z: nat)
    requires ScanIs(lines, n, s, h, at, z)
    ensures ScanTo(lines, n) == s
  {
    if n > 0 {
      var s', at' := LastWasScanned(lines, n, s, h, at, z);
      ScanReaches(lines, n - 1, s', h, at', z);
    }
  }

  /** No file is listed or sent twice, and every sent file is listed at the revision it is sent at. */
  ghost predicate PassesChecks<H, E, S>(e: Export<H, E, S>) {
    && AllSendable(e.sentFiles) && AllListable(e.files)
    && (forall i, j :: 0 <= i < j < |e.files| ==> e.files[i].key != e.files[j].key)
    && (forall i, j :: 0 <= i < j < |e.sentFiles| ==> e.sentFiles[i].key != e.sentFiles[j].key)
    && (forall i :: 0 <= i < |e.sentFiles| ==> IsListedAt(e.files, e.sentFiles[i].key, e.sentFiles[i].revision))
  }

  ghost predicate IsListedAt(files: seq<Listed>, key: FileKey, revision: string) {
    exists j :: 0 <= j < |files| && files[j].key == key && files[j].revision == revision
  }

  lemma ChecksAreConsistency<H, E, S>(e: Export<H, E, S>)
    ensures PassesChecks(e) <==> AllSendable(e.sentFiles) && AllListable(e.files) && Consistent(e)
  {
    forall i | 0 <= i < |e.sentFiles|
      ensures Listed(e.sentFiles[i].key, e.sentFiles[i].revision) in e.files <==>
        IsListedAt(e.files, e.sentFiles[i].key, e.sentFiles[i].revision)
    {
      ListedAt(e.files, e.sentFiles[i].key, e.sentFiles[i].revision);
    }
  }

  lemma ListedAt(files: seq<Listed>, key: FileKey, revision: string)
    ensures Listed(key, revision) in files <==> IsListedAt(files, key, revision)
  {
    if j :| 0 <= j < |files| && files[j].key == key && files[j].revision == revision {
      assert files[j] == Listed(key, revision);
    }
  }

  lemma ScannedIsRead<H, E, S>(lines: seq<Input<H, E, S>>, e: Export<H, E, S>, h: nat, at: seq<nat>, z: nat)
    requires Opened(lines, z, h, at, e.header, e.sentFiles) && Closed(lines, |lines|, z, e.files, e.eventCount)
    requires AllSendable(e.sentFiles) && AllListable(e.files) && Consistent(e)
    ensures ReadExport(lines) == Some(e)
  {
    ScanReaches(lines, |lines|, Reading(Some(e.header), e.sentFiles, Some((e.files, e.eventCount))), h, at, z);
  }

  /**
     The reader accepts exactly this, and gives what its lines hold: noise, a header, file lines, an
     end line and then nothing but text, where the files pass the checks.
   */
  lemma AcceptedIffWellFormed<H, E, S>(lines: seq<Input<H, E, S>>, e: Export<H, E, S>)
    ensures ReadExport(lines) == Some(e) <==>
      && PassesChecks(e)
      && exists h: nat, at: seq<nat>, z: nat ::
           Opened(lines, z, h, at, e.header, e.sentFiles) && Closed(lines, |lines|, z, e.files, e.eventCount)
  {
    ChecksAreConsistency(e);
    if ReadExport(lines) == Some(e) {
      var h, at, z := ScanFinds(lines, |lines|);
    }
    if PassesChecks(e) {
      if h: nat, at: seq<nat>, z: nat :|
        (Opened(lines, z, h, at, e.header, e.sentFiles) && Closed(lines, |lines|, z, e.files, e.eventCount))
      {
        ScannedIsRead(lines, e, h, at, z);
      }
    }
  }

  // ----- the cache

  /** `revision` is missing when the stored fingerprint is not one a sync wrote. */
  datatype Cached<E, S> = Cached(revision: Option<string>, events: seq<E>, sessionEvents: seq<S>)

  /** `kept` is whether the last sync was one that keeps tool calls, messages and ids. */
  datatype Cache<E, S> = Cache(files: map<FileKey, Cached<E, S>>, kept: bool)

  predicate HasRevision<E, S>(c: Cached<E, S>) {
    c.revision.Some? && c.revision.value != ""
  }

  function Synced<E, S>(files: map<FileKey, Cached<E, S>>): map<FileKey, Cached<E, S>> {
    map key | key in files && HasRevision(files[key]) :: files[key]
  }

  function CachedRevisions<E, S>(files: map<FileKey, Cached<E, S>>): map<FileKey, string> {
    map key | key in files && HasRevision(files[key]) :: files[key].revision.value
  }

  /** The files to leave out of the next export: none when an older version last synced. */
  function KnownFiles<E, S>(cache: Cache<E, S>): map<FileKey, string> {
    if cache.kept then CachedRevisions(cache.files) else map[]
  }

  function ToCached<E, S>(f: File<E, S>): Cached<E, S> {
    Cached(Some(f.revision), f.events, f.sessionEvents)
  }

  function ListedKeys(files: seq<Listed>): set<FileKey> {
    set i | 0 <= i < |files| :: files[i].key
  }

  function StaleKeys<E, S>(files: map<FileKey, Cached<E, S>>, listed: seq<Listed>): set<FileKey> {
    CachedRevisions(files).Keys - ListedKeys(listed)
  }

  /** The first `n` sent files stored, in order. */
  function StoreSent<E, S>(files: map<FileKey, Cached<E, S>>, sent: seq<File<E, S>>, n: nat): map<FileKey, Cached<E, S>>
    requires n <= |sent|
  {
    if n == 0 then files else StoreSent(files, sent, n - 1)[sent[n - 1].key := ToCached(sent[n - 1])]
  }

  function EventTotal<E, S>(files: map<FileKey, Cached<E, S>>, listed: seq<Listed>, n: nat): nat
    requires n <= |listed|
  {
    if n == 0 then 0
    else
      var key := listed[n - 1].key;
      EventTotal(files, listed, n - 1) + (if key in files then |files[key].events| else 0)
  }

  function Replaced<H, E, S>(cache: Cache<E, S>, e: Export<H, E, S>): map<FileKey, Cached<E, S>> {
    StoreSent(cache.files - StaleKeys(cache.files, e.files), e.sentFiles, |e.sentFiles|)
  }

  /** The cache holds the listed files, at their revisions, and as many events as the export counts. */
  predicate Matches<H, E, S>(files: map<FileKey, Cached<E, S>>, e: Export<H, E, S>) {
    var revisions := CachedRevisions(files);
    && (forall i :: 0 <= i < |e.files| ==> e.files[i].key in revisions && revisions[e.files[i].key] == e.files[i].revision)
    && |revisions| == |e.files| && EventTotal(files, e.files, |e.files|) == e.eventCount
  }

  /** The cache once the export is applied; a rejected export changes nothing. */
  function Applied<H, E, S>(cache: Cache<E, S>, e: Export<H, E, S>): (Cache<E, S>, bool) {
    var files := Replaced(cache, e);
    if Matches(files, e) then (Cache(files, true), true) else (cache, false)
  }

  class MachineCache<E, S> {
    var files: map<FileKey, Cached<E, S>>
    var kept: bool

    function Now(): Cache<E, S>
      reads this
    {
      Cache(files, kept)
    }

    constructor ()
      ensures Now() == Cache(map[], false)
    {
      files, kept := map[], false;
    }

    /** One transaction: a mismatch rolls every change back. */
    method ApplyMachineExport<H>(e: Export<H, E, S>) returns (accepted: bool)
      modifies this
      ensures (Now(), accepted) == Applied(old(Now()), e)
    {
      var before := files;
      files := files - StaleKeys(files, e.files);
      for i := 0 to |e.sentFiles|
        invariant files == StoreSent(before - StaleKeys(before, e.files), e.sentFiles, i) && kept == old(kept)
      {
        files := files[e.sentFiles[i].key := ToCached(e.sentFiles[i])];
      }
      var cachedRevisions, eventCount := CachedRevisions(files), 0;
      for i := 0 to |e.files|
        invariant eventCount == EventTotal(files, e.files, i)
        invariant files == Replaced(old(Now()), e) && cachedRevisions == CachedRevisions(files) && kept == old(kept)
        invariant forall j :: 0 <= j < i ==> e.files[j].key in cachedRevisions && cachedRevisions[e.files[j].key] == e.files[j].revision
      {
        var key := e.files[i].key;
        if key !in cachedRevisions || cachedRevisions[key] != e.files[i].revision {
          files := before;
          return false;
        }
        eventCount := eventCount + if key in files then |files[key].events| else 0;
      }
      if |cachedRevisions| != |e.files| || eventCount != e.eventCount {
        files := before;
        return false;
      }
      kept := true;
      accepted := true;
    }
  }

  // ----- an accepted export leaves exactly the listed files

  lemma {:induction false} ListedKeysCount(files: seq<Listed>)
    requires ListedOnce(files)
    ensures |ListedKeys(files)| == |files|
  {
    if files != [] {
      var last := |files| - 1;
      ListedKeysCount(files[..last]);
      assert ListedKeys(files) == ListedKeys(files[..last]) + {files[last].key} by { assert files == files[..last] + [files[last]]; }
      assert files[last].key !in ListedKeys(files[..last]);
    }
  }

  /** A validated export that is accepted leaves the listed files at their revisions, and no others; a rejected one changes nothing. */
  lemma AcceptedCacheIsTheList<H, E, S>(cache: Cache<E, S>, e: Export<H, E, S>)
    requires Consistent(e)
    ensures var (after, accepted) := Applied(cache, e);
      if accepted then Lists(CachedRevisions(after.files), e.files) && after.kept else after == cache
  {
    var revisions := CachedRevisions(Replaced(cache, e));
    if Matches(Replaced(cache, e), e) {
      ListedKeysCount(e.files);
      assert ListedKeys(e.files) <= revisions.Keys;
      if ListedKeys(e.files) != revisions.Keys { SubsetIsSmaller(ListedKeys(e.files), revisions.Keys); }
      forall key, revision ensures Listed(key, revision) in e.files <==> key in revisions && revisions[key] == revision {
        if key in revisions {
          var i :| 0 <= i < |e.files| && e.files[i].key == key;
          assert e.files[i] == Listed(key, revisions[key]);
        }
      }
    }
  }

  // ----- a delta sync equals a full one

  ghost predicate KeysOnce<E, S>(files: seq<File<E, S>>) {
    forall i, j :: 0 <= i < j < |files| ==> files[i].key != files[j].key
  }

  /** What the exporter's store gives: each file once, with a key and a revision. */
  ghost predicate Exportable<E, S>(snapshots: seq<File<E, S>>) {
    && KeysOnce(snapshots)
    && forall i :: 0 <= i < |snapshots| ==> ValidKey(snapshots[i].key) && snapshots[i].revision != ""
  }

  ghost predicate IsFiltered<E, S>(kept: seq<File<E, S>>, files: seq<File<E, S>>, keep: File<E, S> -> bool) {
    && KeysOnce(kept)
    && (forall i :: 0 <= i < |kept| ==> kept[i] in files && keep(kept[i]))
    && (forall i :: 0 <= i < |files| && keep(files[i]) ==> files[i] in kept)
  }

  lemma FilterOne<E, S>(kept: seq<File<E, S>>, files: seq<File<E, S>>, keep: File<E, S> -> bool, f: File<E, S>)
    requires IsFiltered(kept, files, keep) && KeysOnce(files + [f])
    ensures IsFiltered(kept + (if keep(f) then [f] else []), files + [f], keep)
  {
    forall i | 0 <= i < |kept| ensures kept[i].key != f.key {
      var j :| 0 <= j < |files| && files[j] == kept[i];
      assert (files + [f])[j] == kept[i] && (files + [f])[|files|] == f;
    }
  }

  lemma {:induction false} FilterFacts<E, S>(files: seq<File<E, S>>, keep: File<E, S> -> bool, n: nat)
    requires n <= |files| && KeysOnce(files)
    ensures IsFiltered(Filter(files, keep, n), files[..n], keep)
  {
    if n > 0 {
      FilterFacts(files, keep, n - 1);
      assert files[..n] == files[..n - 1] + [files[n - 1]];
      FilterOne(Filter(files, keep, n - 1), files[..n - 1], keep, files[n - 1]);
    }
  }

  lemma CountedAreSnapshots<E, S>(snapshots: seq<File<E, S>>)
    requires Exportable(snapshots)
    ensures var files := CountedFiles(snapshots, |snapshots|);
      && IsFiltered(files, snapshots, (f: File<E, S>) => Counted(f))
      && forall i :: 0 <= i < |files| ==> ValidFile(files[i])
  {
    FilterFacts(snapshots, (f: File<E, S>) => Counted(f), |snapshots|);
    assert snapshots[..|snapshots|] == snapshots;
    var files := CountedFiles(snapshots, |snapshots|);
    forall i | 0 <= i < |files| ensures ValidFile(files[i]) {
      var j :| 0 <= j < |snapshots| && snapshots[j] == files[i];
    }
  }

  lemma UnknownAreFiles<E, S>(files: seq<File<E, S>>, known: map<FileKey, string>)
    requires KeysOnce(files)
    ensures IsFiltered(Unknown(files, known, |files|), files, (f: File<E, S>) => !IsKnown(known, f))
  {
    FilterFacts(files, (f: File<E, S>) => !IsKnown(known, f), |files|);
    assert files[..|files|] == files;
  }

  /** An export can be sent, and passes the reader's checks. */
  lemma ExportIsConsistent<H, E, S>(header: H, snapshots: seq<File<E, S>>, known: map<FileKey, string>)
    requires Exportable(snapshots)
    ensures Sendable(ExportOf(header, snapshots, known)) && Consistent(ExportOf(header, snapshots, known))
  {
    var files := CountedFiles(snapshots, |snapshots|);
    CountedAreSnapshots(snapshots);
    UnknownAreFiles(files, known);
    var e := ExportOf(header, snapshots, known);
    forall i | 0 <= i < |e.sentFiles| ensures Listed(e.sentFiles[i].key, e.sentFiles[i].revision) in e.files && ValidFile(e.sentFiles[i]) {
      var j :| 0 <= j < |files| && files[j] == e.sentFiles[i];
      assert e.files[j] == Listed(files[j].key, files[j].revision);
    }
  }

  lemma {:induction false} StoreSentAt<E, S>(files: map<FileKey, Cached<E, S>>, sent: seq<File<E, S>>, n: nat)
    requires n <= |sent| && KeysOnce(sent)
    ensures var after := StoreSent(files, sent, n);
      && (forall i :: 0 <= i < n ==> sent[i].key in after && after[sent[i].key] == ToCached(sent[i]))
      && (forall key :: (forall i :: 0 <= i < n ==> sent[i].key != key) ==>
            (key in after <==> key in files) && (key in files ==> after[key] == files[key]))
  {
    if n > 0 { StoreSentAt(files, sent, n - 1); }
  }

  ghost predicate IsSent<H, E, S>(e: Export<H, E, S>, key: FileKey) {
    exists j :: 0 <= j < |e.sentFiles| && e.sentFiles[j].key == key
  }

  ghost predicate IsListed<H, E, S>(e: Export<H, E, S>, key: FileKey) {
    exists i :: 0 <= i < |e.files| && e.files[i].key == key
  }

  function SumOf(events: FileKey -> nat, listed: seq<Listed>): nat {
    if listed == [] then 0 else SumOf(events, listed[..|listed| - 1]) + events(listed[|listed| - 1].key)
  }

  lemma ReplacedAt<H, E, S>(cache: Cache<E, S>, e: Export<H, E, S>)
    requires KeysOnce(e.sentFiles)
    ensures var files := Replaced(cache, e);
      && (forall j :: 0 <= j < |e.sentFiles| ==> e.sentFiles[j].key in files && files[e.sentFiles[j].key] == ToCached(e.sentFiles[j]))
      && (forall key :: !IsSent(e, key) ==>
            (key in files <==> key in cache.files && (HasRevision(cache.files[key]) ==> IsListed(e, key)))
            && (key in files ==> files[key] == cache.files[key]))
  {
    StoreSentAt(cache.files - StaleKeys(cache.files, e.files), e.sentFiles, |e.sentFiles|);
    forall key ensures key in ListedKeys(e.files) <==> IsListed(e, key) {
    }
  }

  /**
     What an accepted export leaves under each key: a sent file as it was sent, and any other file as
     it was cached, gone only if it had a revision and is not listed.
   */
  lemma AcceptedCacheByKey<H, E, S>(cache: Cache<E, S>, e: Export<H, E, S>, key: FileKey)
    requires Consistent(e) && Applied(cache, e).1
    ensures var files := Applied(cache, e).0.files;
      && (forall j :: 0 <= j < |e.sentFiles| && e.sentFiles[j].key == key ==>
            key in files && files[key] == Cached(Some(e.sentFiles[j].revision), e.sentFiles[j].events, e.sentFiles[j].sessionEvents))
      && ((forall j :: 0 <= j < |e.sentFiles| ==> e.sentFiles[j].key != key) ==>
            && (key in files <==> key in cache.files && (cache.files[key].revision in {None, Some("")} || exists i :: 0 <= i < |e.files| && e.files[i].key == key))
            && (key in files ==> files[key] == cache.files[key]))
  {
    ReplacedAt(cache, e);
    if key in cache.files { assert HasRevision(cache.files[key]) <==> cache.files[key].revision !in {None, Some("")}; }
  }

  lemma ListedIsHeldIff<H, E, S>(cache: Cache<E, S>, e: Export<H, E, S>, i: nat)
    requires Consistent(e) && Sendable(e) && i < |e.files|
    ensures var (key, revision, revisions) := (e.files[i].key, e.files[i].revision, CachedRevisions(Replaced(cache, e)));
      (key in revisions && revisions[key] == revision) <==> IsSent(e, key) || (key in cache.files && cache.files[key].revision == Some(revision))
  {
    ReplacedAt(cache, e);
    var key := e.files[i].key;
    if j :| 0 <= j < |e.sentFiles| && e.sentFiles[j].key == key {
      assert Listed(key, e.sentFiles[j].revision) in e.files;
      var k :| 0 <= k < |e.files| && e.files[k] == Listed(key, e.sentFiles[j].revision);
      assert k == i;
    } else {
      assert !IsSent(e, key) && IsListed(e, key);
    }
  }

  lemma ReplacedKeysAreListed<H, E, S>(cache: Cache<E, S>, e: Export<H, E, S>)
    requires Consistent(e)
    ensures CachedRevisions(Replaced(cache, e)).Keys <= ListedKeys(e.files)
  {
    ReplacedAt(cache, e);
    forall key | key in CachedRevisions(Replaced(cache, e)) ensures IsListed(e, key) {
      if j :| 0 <= j < |e.sentFiles| && e.sentFiles[j].key == key {
        assert Listed(key, e.sentFiles[j].revision) in e.files;
        var k :| 0 <= k < |e.files| && e.files[k] == Listed(key, e.sentFiles[j].revision);
      }
    }
  }

  lemma {:induction false} TotalIsSum<E, S>(files: map<FileKey, Cached<E, S>>, listed: seq<Listed>, n: nat, events: FileKey -> nat)
    requires n <= |listed|
    requires forall i :: 0 <= i < |listed| ==> listed[i].key in files && |files[listed[i].key].events| == events(listed[i].key)
    ensures EventTotal(files, listed, n) == SumOf(events, listed[..n])
  {
    if n > 0 {
      TotalIsSum(files, listed, n - 1, events);
      assert listed[..n][..n - 1] == listed[..n - 1];
    }
  }

  /** By key, how many events the sent file has, or else the cached one. */
  ghost predicate CountsEvents<H, E, S>(cache: Cache<E, S>, e: Export<H, E, S>, events: FileKey -> nat) {
    && (forall j :: 0 <= j < |e.sentFiles| ==> events(e.sentFiles[j].key) == |e.sentFiles[j].events|)
    && (forall key :: key in cache.files && !IsSent(e, key) ==> events(key) == |cache.files[key].events|)
  }

  /** Every listed file is sent, or cached at the listed revision. */
  ghost predicate AllHeld<H, E, S>(cache: Cache<E, S>, e: Export<H, E, S>) {
    forall i :: 0 <= i < |e.files| ==>
      || IsSent(e, e.files[i].key)
      || (e.files[i].key in cache.files && cache.files[e.files[i].key].revision == Some(e.files[i].revision))
  }

  lemma AllHeldIff<H, E, S>(cache: Cache<E, S>, e: Export<H, E, S>, revisions: map<FileKey, string>)
    requires Consistent(e) && Sendable(e) && revisions == CachedRevisions(Replaced(cache, e))
    ensures AllHeld(cache, e) <==>
      forall i :: 0 <= i < |e.files| ==> e.files[i].key in revisions && revisions[e.files[i].key] == e.files[i].revision
  {
    forall i: nat | i < |e.files|
      ensures (e.files[i].key in revisions && revisions[e.files[i].key] == e.files[i].revision) <==>
        IsSent(e, e.files[i].key) || (e.files[i].key in cache.files && cache.files[e.files[i].key].revision == Some(e.files[i].revision))
    {
      ListedIsHeldIff(cache, e, i);
    }
  }

  /**
     An export the reader accepted is applied exactly when every listed file is sent or cached at the
     listed revision, and together they have as many events as the export counts.
   */
  lemma AppliedIff<H, E, S>(cache: Cache<E, S>, e: Export<H, E, S>, events: FileKey -> nat)
    requires Consistent(e) && Sendable(e) && CountsEvents(cache, e, events)
    ensures Applied(cache, e).1 <==> AllHeld(cache, e) && SumOf(events, e.files) == e.eventCount
  {
    AllHeldIff(cache, e, CachedRevisions(Replaced(cache, e)));
    if AllHeld(cache, e) {
      HeldAddsUp(cache, e, events);
      HeldAreAsMany(cache, e);
    }
  }

  lemma HeldEvents<H, E, S>(cache: Cache<E, S>, e: Export<H, E, S>, events: FileKey -> nat, key: FileKey)
    requires Consistent(e) && CountsEvents(cache, e, events) && key in Replaced(cache, e)
    ensures |Replaced(cache, e)[key].events| == events(key)
  {
    ReplacedAt(cache, e);
    if j :| 0 <= j < |e.sentFiles| && e.sentFiles[j].key == key {
    } else {
      assert !IsSent(e, key);
    }
  }

  lemma HeldAddsUp<H, E, S>(cache: Cache<E, S>, e: Export<H, E, S>, events: FileKey -> nat)
    requires Consistent(e) && CountsEvents(cache, e, events)
    requires forall i :: 0 <= i < |e.files| ==> e.files[i].key in CachedRevisions(Replaced(cache, e))
    ensures EventTotal(Replaced(cache, e), e.files, |e.files|) == SumOf(events, e.files)
  {
    var files := Replaced(cache, e);
    forall i | 0 <= i < |e.files| ensures e.files[i].key in files && |files[e.files[i].key].events| == events(e.files[i].key) {
      HeldEvents(cache, e, events, e.files[i].key);
    }
    TotalIsSum(files, e.files, |e.files|, events);
    assert e.files[..|e.files|] == e.files;
  }

  lemma HeldAreAsMany<H, E, S>(cache: Cache<E, S>, e: Export<H, E, S>)
    requires Consistent(e) && forall i :: 0 <= i < |e.files| ==> e.files[i].key in CachedRevisions(Replaced(cache, e))
    ensures |CachedRevisions(Replaced(cache, e))| == |e.files|
  {
    ReplacedKeysAreListed(cache, e);
    ListedKeysCount(e.files);
    assert CachedRevisions(Replaced(cache, e)).Keys == ListedKeys(e.files);
  }

  /** The synced files of a cache are exactly these, with their content. */
  ghost predicate Mirrors<E, S>(files: map<FileKey, Cached<E, S>>, counted: seq<File<E, S>>) {
    && (forall i :: 0 <= i < |counted| ==> counted[i].key in files && files[counted[i].key] == ToCached(counted[i]))
    && (forall key :: key in files && HasRevision(files[key]) ==> exists i :: 0 <= i < |counted| && counted[i].key == key)
  }

  /** What the cache holds at a revision the exporter has too is what the exporter holds. */
  ghost predicate Trusted<E, S>(known: map<FileKey, string>, files: map<FileKey, Cached<E, S>>, counted: seq<File<E, S>>) {
    forall i :: 0 <= i < |counted| && IsKnown(known, counted[i]) ==>
                  counted[i].key in files && files[counted[i].key] == ToCached(counted[i])
  }

  /** The counted files, what is sent of them, and what is kept of the cache before it is stored. */
  datatype Delta<E, S> = Delta(counted: seq<File<E, S>>, sent: seq<File<E, S>>, left: map<FileKey, Cached<E, S>>)

  function DeltaOf<H, E, S>(header: H, cache: Cache<E, S>, snapshots: seq<File<E, S>>, known: map<FileKey, string>): Delta<E, S> {
    var e := ExportOf(header, snapshots, known);
    Delta(CountedFiles(snapshots, |snapshots|), e.sentFiles, cache.files - StaleKeys(cache.files, e.files))
  }

  /** Counted files are sent, unless they are known and then kept as they are; nothing else with a revision is kept. */
  ghost predicate Splits<E, S>(d: Delta<E, S>, known: map<FileKey, string>) {
    && KeysOnce(d.counted) && KeysOnce(d.sent)
    && (forall i :: 0 <= i < |d.sent| ==> d.sent[i] in d.counted && !IsKnown(known, d.sent[i]))
    && (forall i :: 0 <= i < |d.counted| && !IsKnown(known, d.counted[i]) ==> d.counted[i] in d.sent)
    && (forall i :: 0 <= i < |d.counted| && IsKnown(known, d.counted[i]) ==>
                      d.counted[i].key in d.left && d.left[d.counted[i].key] == ToCached(d.counted[i]))
    && (forall key :: key in d.left && HasRevision(d.left[key]) ==> exists i :: 0 <= i < |d.counted| && d.counted[i].key == key)
  }

  /** A counted file the cache knows is kept as it is. */
  lemma KnownIsLeft<H, E, S>(header: H, cache: Cache<E, S>, snapshots: seq<File<E, S>>, known: map<FileKey, string>, i: nat)
    requires i < |CountedFiles(snapshots, |snapshots|)| && IsKnown(known, CountedFiles(snapshots, |snapshots|)[i])
    requires Trusted(known, cache.files, CountedFiles(snapshots, |snapshots|))
    ensures var d := DeltaOf(header, cache, snapshots, known);
      d.counted[i].key in d.left && d.left[d.counted[i].key] == ToCached(d.counted[i])
  {
    var listed := ExportOf(header, snapshots, known).files;
    assert listed[i].key in ListedKeys(listed);
  }

  /** What is kept with a revision is a counted file. */
  lemma LeftIsCounted<H, E, S>(header: H, cache: Cache<E, S>, snapshots: seq<File<E, S>>, known: map<FileKey, string>, key: FileKey)
    requires var d := DeltaOf(header, cache, snapshots, known); key in d.left && HasRevision(d.left[key])
    ensures var d := DeltaOf(header, cache, snapshots, known); exists i :: 0 <= i < |d.counted| && d.counted[i].key == key
  {
    var listed := ExportOf(header, snapshots, known).files;
    assert key in ListedKeys(listed);
    var i :| 0 <= i < |listed| && listed[i].key == key;
    assert DeltaOf(header, cache, snapshots, known).counted[i].key == key;
  }

  lemma DeltaSplits<H, E, S>(header: H, cache: Cache<E, S>, snapshots: seq<File<E, S>>, known: map<FileKey, string>)
    requires Exportable(snapshots)
    requires Trusted(known, cache.files, CountedFiles(snapshots, |snapshots|))
    ensures Splits(DeltaOf(header, cache, snapshots, known), known)
  {
    var d := DeltaOf(header, cache, snapshots, known);
    CountedAreSnapshots(snapshots);
    UnknownAreFiles(d.counted, known);
    forall i | 0 <= i < |d.counted| && IsKnown(known, d.counted[i])
      ensures d.counted[i].key in d.left && d.left[d.counted[i].key] == ToCached(d.counted[i])
    {
      KnownIsLeft(header, cache, snapshots, known, i);
    }
    forall key | key in d.left && HasRevision(d.left[key]) ensures exists i :: 0 <= i < |d.counted| && d.counted[i].key == key {
      LeftIsCounted(header, cache, snapshots, known, key);
    }
  }

  lemma StoredMirrors<E, S>(d: Delta<E, S>, known: map<FileKey, string>)
    requires Splits(d, known)
    ensures Mirrors(StoreSent(d.left, d.sent, |d.sent|), d.counted)
  {
    var after := StoreSent(d.left, d.sent, |d.sent|);
    forall i | 0 <= i < |d.counted| ensures d.counted[i].key in after && after[d.counted[i].key] == ToCached(d.counted[i]) {
      CountedIsStored(d, known, i);
    }
    forall key | key in after && HasRevision(after[key]) ensures exists i :: 0 <= i < |d.counted| && d.counted[i].key == key {
      StoredIsCounted(d, known, key);
    }
  }

  lemma CountedIsStored<E, S>(d: Delta<E, S>, known: map<FileKey, string>, i: nat)
    requires Splits(d, known) && i < |d.counted|
    ensures var after := StoreSent(d.left, d.sent, |d.sent|);
      d.counted[i].key in after && after[d.counted[i].key] == ToCached(d.counted[i])
  {
    StoreSentAt(d.left, d.sent, |d.sent|);
    if IsKnown(known, d.counted[i]) {
      NotSent(d.counted, known, d.sent, i);
    } else {
      assert d.counted[i] in d.sent;
    }
  }

  lemma StoredIsCounted<E, S>(d: Delta<E, S>, known: map<FileKey, string>, key: FileKey)
    requires var after := StoreSent(d.left, d.sent, |d.sent|); Splits(d, known) && key in after && HasRevision(after[key])
    ensures exists i :: 0 <= i < |d.counted| && d.counted[i].key == key
  {
    StoreSentAt(d.left, d.sent, |d.sent|);
    if j :| 0 <= j < |d.sent| && d.sent[j].key == key {
      var i :| 0 <= i < |d.counted| && d.counted[i] == d.sent[j];
    }
  }

  lemma NotSent<E, S>(files: seq<File<E, S>>, known: map<FileKey, string>, sent: seq<File<E, S>>, i: nat)
    requires KeysOnce(files) && i < |files| && IsKnown(known, files[i])
    requires forall j :: 0 <= j < |sent| ==> sent[j] in files && !IsKnown(known, sent[j])
    ensures forall j :: 0 <= j < |sent| ==> sent[j].key != files[i].key
  {
    forall j | 0 <= j < |sent| ensures sent[j].key != files[i].key {
      var k :| 0 <= k < |files| && files[k] == sent[j];
    }
  }

  lemma {:induction false} MirrorTotals<E, S>(files: map<FileKey, Cached<E, S>>, counted: seq<File<E, S>>, n: nat)
    requires n <= |counted| && Mirrors(files, counted)
    ensures EventTotal(files, ListedOf(counted), n) == EventsIn(counted, n)
  {
    if n > 0 { MirrorTotals(files, counted, n - 1); }
  }

  lemma MirrorMatches<H, E, S>(header: H, files: map<FileKey, Cached<E, S>>, snapshots: seq<File<E, S>>, known: map<FileKey, string>)
    requires Exportable(snapshots) && Mirrors(files, CountedFiles(snapshots, |snapshots|))
    ensures Matches(files, ExportOf(header, snapshots, known))
  {
    var counted := CountedFiles(snapshots, |snapshots|);
    var e := ExportOf(header, snapshots, known);
    CountedAreSnapshots(snapshots);
    MirrorTotals(files, counted, |counted|);
    ListedKeysCount(e.files);
    MirrorKeys(files, counted);
  }

  lemma MirrorKeys<E, S>(files: map<FileKey, Cached<E, S>>, counted: seq<File<E, S>>)
    requires Mirrors(files, counted) && forall i :: 0 <= i < |counted| ==> ValidFile(counted[i])
    ensures CachedRevisions(files).Keys == ListedKeys(ListedOf(counted))
  {
    var listed := ListedOf(counted);
    forall key | key in CachedRevisions(files) ensures key in ListedKeys(listed) {
      var i :| 0 <= i < |counted| && counted[i].key == key;
      assert listed[i].key == key;
    }
    forall key | key in ListedKeys(listed) ensures key in CachedRevisions(files) {
      var i :| 0 <= i < |listed| && listed[i].key == key;
      assert counted[i].key == key;
    }
  }

  /** Exporting against what the cache holds, and applying it, mirrors the exporter. */
  lemma DeltaSyncMirrors<H, E, S>(header: H, cache: Cache<E, S>, snapshots: seq<File<E, S>>)
    requires Exportable(snapshots)
    requires Trusted(KnownFiles(cache), cache.files, CountedFiles(snapshots, |snapshots|))
    ensures var (after, accepted) := Applied(cache, ExportOf(header, snapshots, KnownFiles(cache)));
      accepted && after.kept && Mirrors(after.files, CountedFiles(snapshots, |snapshots|))
  {
    var known := KnownFiles(cache);
    DeltaSplits(header, cache, snapshots, known);
    StoredMirrors(DeltaOf(header, cache, snapshots, known), known);
    MirrorMatches(header, Replaced(cache, ExportOf(header, snapshots, known)), snapshots, known);
  }

  /** So a delta sync leaves what a full export applied to an empty cache leaves. */
  lemma DeltaSyncEqualsFullSync<H, E, S>(header: H, cache: Cache<E, S>, snapshots: seq<File<E, S>>)
    requires Exportable(snapshots)
    requires Trusted(KnownFiles(cache), cache.files, CountedFiles(snapshots, |snapshots|))
    ensures Synced(Applied(cache, ExportOf(header, snapshots, KnownFiles(cache))).0.files) ==
      Synced(Applied(Cache(map[], false), ExportOf(header, snapshots, map[])).0.files)
  {
    var empty: Cache<E, S> := Cache(map[], false);
    DeltaSyncMirrors(header, cache, snapshots);
    DeltaSyncMirrors(header, empty, snapshots);
    CountedAreSnapshots(snapshots);
    MirrorsAgree(Applied(cache, ExportOf(header, snapshots, KnownFiles(cache))).0.files,
                 Applied(empty, ExportOf(header, snapshots, map[])).0.files, CountedFiles(snapshots, |snapshots|));
  }

  lemma MirrorsAgree<E, S>(a: map<FileKey, Cached<E, S>>, b: map<FileKey, Cached<E, S>>, counted: seq<File<E, S>>)
    requires Mirrors(a, counted) && Mirrors(b, counted)
    requires forall i :: 0 <= i < |counted| ==> ValidFile(counted[i])
    ensures Synced(a) == Synced(b)
  {
    forall key ensures key in Synced(a) <==> key in Synced(b) {
    }
    forall key | key in Synced(a) ensures Synced(a)[key] == Synced(b)[key] {
    }
  }

  /**
     After a sync only changes are sent: the next export sends exactly the files with events whose
     revision the last snapshot did not have, or had without events.
   */
  lemma OnlyChangesAreSent<H, E, S>(header: H, cache: Cache<E, S>, snapshots: seq<File<E, S>>, next: seq<File<E, S>>, f: File<E, S>)
    requires Exportable(snapshots) && Exportable(next)
    requires Trusted(KnownFiles(cache), cache.files, CountedFiles(snapshots, |snapshots|))
    ensures var after := Applied(cache, ExportOf(header, snapshots, KnownFiles(cache))).0;
      f in ExportOf(header, next, KnownFiles(after)).sentFiles <==>
      && f in next && f.events != []
      && !exists i :: 0 <= i < |snapshots| && snapshots[i].key == f.key && snapshots[i].revision == f.revision && snapshots[i].events != []
  {
    var after := Applied(cache, ExportOf(header, snapshots, KnownFiles(cache))).0;
    DeltaSyncMirrors(header, cache, snapshots);
    CountedAreSnapshots(snapshots);
    CountedAreSnapshots(next);
    UnknownAreFiles(CountedFiles(next, |next|), KnownFiles(after));
    MirrorKnows(after, snapshots, f);
  }

  lemma MirrorKnows<E, S>(cache: Cache<E, S>, snapshots: seq<File<E, S>>, f: File<E, S>)
    requires Exportable(snapshots) && cache.kept && Mirrors(cache.files, CountedFiles(snapshots, |snapshots|))
    ensures IsKnown(KnownFiles(cache), f) <==>
      exists i :: 0 <= i < |snapshots| && snapshots[i].key == f.key && snapshots[i].revision == f.revision && snapshots[i].events != []
  {
    if IsKnown(KnownFiles(cache), f) { KnownIsSnapshot(cache, snapshots, f); }
    if i :| 0 <= i < |snapshots| && snapshots[i].key == f.key && snapshots[i].revision == f.revision && snapshots[i].events != [] {
      SnapshotIsKnown(cache, snapshots, f, i);
    }
  }

  lemma KnownIsSnapshot<E, S>(cache: Cache<E, S>, snapshots: seq<File<E, S>>, f: File<E, S>)
    requires Exportable(snapshots) && Mirrors(cache.files, CountedFiles(snapshots, |snapshots|)) && IsKnown(KnownFiles(cache), f)
    ensures exists i :: 0 <= i < |snapshots| && snapshots[i].key == f.key && snapshots[i].revision == f.revision && snapshots[i].events != []
  {
    CountedAreSnapshots(snapshots);
    var counted := CountedFiles(snapshots, |snapshots|);
    var k :| 0 <= k < |counted| && counted[k].key == f.key;
    var i :| 0 <= i < |snapshots| && snapshots[i] == counted[k];
  }

  lemma SnapshotIsKnown<E, S>(cache: Cache<E, S>, snapshots: seq<File<E, S>>, f: File<E, S>, i: nat)
    requires Exportable(snapshots) && cache.kept && Mirrors(cache.files, CountedFiles(snapshots, |snapshots|))
    requires i < |snapshots| && snapshots[i].key == f.key && snapshots[i].revision == f.revision && snapshots[i].events != []
    ensures IsKnown(KnownFiles(cache), f)
  {
    CountedAreSnapshots(snapshots);
    var counted := CountedFiles(snapshots, |snapshots|);
    var k :| 0 <= k < |counted| && counted[k] == snapshots[i];
  }

  /** The same export is what the reader gets from the other machine's shell. */
  lemma ExportSurvivesTheShell<H, E, S>(header: H, snapshots: seq<File<E, S>>, known: map<FileKey, string>, lines: seq<Input<H, E, S>>, before: nat)
    requires Exportable(snapshots)
    requires Carries(lines, before, LinesOf(ExportOf(header, snapshots, known)), |LinesOf(ExportOf(header, snapshots, known))|)
    ensures ReadExport(lines) == Some(ExportOf(header, snapshots, known))
  {
    ExportIsConsistent(header, snapshots, known);
    BuiltBundleIsReadBack(lines, before, ExportOf(header, snapshots, known));
  }

  // ----- any history of syncs

  /** Revisions determine content: every file of every snapshot holds what `content` gives. */
  ghost predicate Determined<E, S>(content: (FileKey, string) -> (seq<E>, seq<S>), snapshots: seq<File<E, S>>) {
    forall i :: 0 <= i < |snapshots| ==>
                  content(snapshots[i].key, snapshots[i].revision) == (snapshots[i].events, snapshots[i].sessionEvents)
  }

  ghost predicate CacheDetermined<E, S>(content: (FileKey, string) -> (seq<E>, seq<S>), cache: Cache<E, S>) {
    cache.kept ==> forall key :: key in cache.files && HasRevision(cache.files[key]) ==>
                                   content(key, cache.files[key].revision.value) == (cache.files[key].events, cache.files[key].sessionEvents)
  }

  function SyncAll<H, E, S>(cache: Cache<E, S>, header: H, history: seq<seq<File<E, S>>>): Cache<E, S> {
    if history == [] then cache
    else
      var before := SyncAll(cache, header, history[..|history| - 1]);
      Applied(before, ExportOf(header, history[|history| - 1], KnownFiles(before))).0
  }

  /**
     Whatever was added, changed, emptied or removed between syncs, the cache mirrors the last
     snapshot. A cache an older version last synced is sent every file, so nothing is asked of it.
   */
  lemma {:induction false} EverySyncMirrors<H, E, S>(content: (FileKey, string) -> (seq<E>, seq<S>), cache: Cache<E, S>, header: H,
                                                     history: seq<seq<File<E, S>>>)
    requires CacheDetermined(content, cache)
    requires forall i :: 0 <= i < |history| ==> Exportable(history[i]) && Determined(content, history[i])
    ensures CacheDetermined(content, SyncAll(cache, header, history))
    ensures history != [] ==> var last := history[|history| - 1];
      Mirrors(SyncAll(cache, header, history).files, CountedFiles(last, |last|))
  {
    if history != [] {
      var last := history[|history| - 1];
      var before := SyncAll(cache, header, history[..|history| - 1]);
      EverySyncMirrors(content, cache, header, history[..|history| - 1]);
      DeterminedIsTrusted(content, before, last);
      DeltaSyncMirrors(header, before, last);
      MirrorIsDetermined(content, SyncAll(cache, header, history), last);
    }
  }

  lemma DeterminedIsTrusted<E, S>(content: (FileKey, string) -> (seq<E>, seq<S>), cache: Cache<E, S>, snapshots: seq<File<E, S>>)
    requires CacheDetermined(content, cache) && Exportable(snapshots) && Determined(content, snapshots)
    ensures Trusted(KnownFiles(cache), cache.files, CountedFiles(snapshots, |snapshots|))
  {
    CountedAreSnapshots(snapshots);
    var counted := CountedFiles(snapshots, |snapshots|);
    assert snapshots[..|snapshots|] == snapshots;
    forall i | 0 <= i < |counted| && IsKnown(KnownFiles(cache), counted[i])
      ensures counted[i].key in cache.files && cache.files[counted[i].key] == ToCached(counted[i])
    {
      assert counted[i] in snapshots;
    }
  }

  lemma MirrorIsDetermined<E, S>(content: (FileKey, string) -> (seq<E>, seq<S>), cache: Cache<E, S>, snapshots: seq<File<E, S>>)
    requires Exportable(snapshots) && Determined(content, snapshots) && Mirrors(cache.files, CountedFiles(snapshots, |snapshots|))
    ensures CacheDetermined(content, cache)
  {
    CountedAreSnapshots(snapshots);
    var counted := CountedFiles(snapshots, |snapshots|);
    assert snapshots[..|snapshots|] == snapshots;
    forall key | key in cache.files && HasRevision(cache.files[key])
      ensures content(key, cache.files[key].revision.value) == (cache.files[key].events, cache.files[key].sessionEvents)
    {
      var i :| 0 <= i < |counted| && counted[i].key == key;
      assert counted[i] in snapshots;
    }
  }
}
