/**
 Estimated 5-hour blocks of one source (src/blocks/aggregate-blocks.ts).

 `Places` is the plain definition: from the first event on, a block starts at the hour of the
 first event past the previous block's end. The methods compute it with the source's shortcut
 start, counted and context events, and the hour-stepping lookup.
 */
module UsageBlocks {
  import opened Common

  const HOUR_MS: int := 60 * 60 * 1000
  const BLOCK_MS: int := 5 * HOUR_MS

  /** `counted` is false for a context event, which only places blocks. */
  datatype TimedEvent<E> = TimedEvent(event: E, timeMs: int, counted: bool)

  datatype Block<E> = Block(startMs: int, startUncertain: bool, events: seq<TimedEvent<E>>)

  datatype Options = Options(sinceMs: Option<int>, rangeStartMs: Option<int>)

  predicate OnHour(timeMs: int) {
    timeMs % HOUR_MS == 0
  }

  /** The hour the time lies in, rounding down before the epoch too. */
  function HourOf(timeMs: int): (hour: int)
    ensures OnHour(hour) && hour <= timeMs < hour + HOUR_MS
  {
    timeMs - timeMs % HOUR_MS
  }

  /** Two hours are the same or a whole hour apart. */
  lemma HoursApart(a: int, b: int)
    requires OnHour(a) && OnHour(b) && a < b
    ensures a + HOUR_MS <= b
  {
  }

  lemma BlockEndOnHour(a: int)
    requires OnHour(a)
    ensures OnHour(a + BLOCK_MS)
  {
  }

  /** No hour lies between a time and its hour. */
  lemma HourIsLatest(a: int, timeMs: int)
    requires OnHour(a) && a <= timeMs
    ensures a <= HourOf(timeMs)
  {
    if HourOf(timeMs) < a { HoursApart(HourOf(timeMs), a); }
  }

  ghost predicate Sorted<E>(s: seq<TimedEvent<E>>) {
    forall i, j :: 0 <= i < j < |s| ==> s[i].timeMs <= s[j].timeMs
  }

  /** Event `i` follows a gap of 5 h or more, which ends whatever block came before. */
  predicate Gap<E>(s: seq<TimedEvent<E>>, i: nat)
    requires 0 < i < |s|
  {
    s[i].timeMs - s[i - 1].timeMs >= BLOCK_MS
  }

  // ----- the plain definition

  /** Where the block of event `i` starts when the chain starts at event `from`. */
  function StartOf<E>(s: seq<TimedEvent<E>>, from: nat, i: nat): int
    requires from <= i < |s|
  {
    if i == from then HourOf(s[i].timeMs)
    else
      var start := StartOf(s, from, i - 1);
      if s[i].timeMs >= start + BLOCK_MS then HourOf(s[i].timeMs) else start
  }

  /** Whether earlier usage may have started the chain that reaches event `i`. */
  predicate UncertainAt<E>(s: seq<TimedEvent<E>>, from: nat, i: nat, uncertain: bool)
    requires from <= i < |s|
  {
    if i == from then uncertain else UncertainAt(s, from, i - 1, uncertain) && !Gap(s, i)
  }

  predicate BeginsBlock<E>(s: seq<TimedEvent<E>>, from: nat, i: nat)
    requires from <= i < |s|
  {
    i == from || s[i].timeMs >= StartOf(s, from, i - 1) + BLOCK_MS
  }

  datatype Place = Place(startMs: int, startUncertain: bool)

  /** Where events `from` to `n` place blocks. */
  function Places<E>(s: seq<TimedEvent<E>>, from: nat, n: nat, uncertain: bool): seq<Place>
    requires from <= n <= |s|
    decreases n - from
  {
    if n == from then []
    else Places(s, from, n - 1, uncertain) +
         (if BeginsBlock(s, from, n - 1) then [Place(StartOf(s, from, n - 1), UncertainAt(s, from, n - 1, uncertain))] else [])
  }

  predicate InBlock(timeMs: int, startMs: int) {
    startMs <= timeMs < startMs + BLOCK_MS
  }

  /** The counted events of the first `n` in the block starting at `startMs`, in order. */
  function Within<E>(s: seq<TimedEvent<E>>, n: nat, startMs: int): seq<TimedEvent<E>>
    requires n <= |s|
  {
    if n == 0 then []
    else Within(s, n - 1, startMs) + (if InBlock(s[n - 1].timeMs, startMs) && s[n - 1].counted then [s[n - 1]] else [])
  }

  function Fill<E>(places: seq<Place>, s: seq<TimedEvent<E>>): (r: seq<Block<E>>)
    ensures |r| == |places|
  {
    seq(|places|, k requires 0 <= k < |places| =>
      Block(places[k].startMs, places[k].startUncertain, Within(s, |s|, places[k].startMs)))
  }

  /** Anything before the range start has ended by the first event when 5 h lie between. */
  predicate StartsUncertain<E>(s: seq<TimedEvent<E>>, options: Options)
    requires s != []
  {
    options.rangeStartMs.Some? && s[0].timeMs - options.rangeStartMs.value < BLOCK_MS
  }

  predicate IsKept<E>(b: Block<E>, sinceMs: Option<int>) {
    b.events != [] && (sinceMs.Some? ==> b.startMs + BLOCK_MS > sinceMs.value)
  }

  function Kept<E>(blocks: seq<Block<E>>, sinceMs: Option<int>): seq<Block<E>> {
    if blocks == [] then []
    else
      var last := |blocks| - 1;
      Kept(blocks[..last], sinceMs) + (if IsKept(blocks[last], sinceMs) then [blocks[last]] else [])
  }

  function WholePlaces<E>(s: seq<TimedEvent<E>>, options: Options): seq<Place>
    requires s != []
  {
    Places(s, 0, |s|, StartsUncertain(s, options))
  }

  /** The blocks chained from the first event, then filtered. */
  function SourceBlocks<E>(s: seq<TimedEvent<E>>, options: Options): seq<Block<E>>
    requires s != []
  {
    Kept(Fill(WholePlaces(s, options), s), options.sinceMs)
  }

  // ----- alignment and order

  lemma {:induction false} StartFacts<E>(s: seq<TimedEvent<E>>, from: nat, i: nat)
    requires Sorted(s) && from <= i < |s|
    ensures OnHour(StartOf(s, from, i)) && InBlock(s[i].timeMs, StartOf(s, from, i))
    ensures from < i ==> if BeginsBlock(s, from, i) then StartOf(s, from, i - 1) + BLOCK_MS <= StartOf(s, from, i)
                         else StartOf(s, from, i) == StartOf(s, from, i - 1)
  {
    if from < i {
      StartFacts(s, from, i - 1);
      var end := StartOf(s, from, i - 1) + BLOCK_MS;
      BlockEndOnHour(StartOf(s, from, i - 1));
      if end <= s[i].timeMs { HourIsLatest(end, s[i].timeMs); }
    }
  }

  /** Places are on the hour, 5 h apart, and the last is the last event's. */
  ghost predicate Apart(places: seq<Place>) {
    && (forall k :: 0 <= k < |places| ==> OnHour(places[k].startMs))
    && (forall k, l :: 0 <= k < l < |places| ==> places[k].startMs + BLOCK_MS <= places[l].startMs)
  }

  lemma {:induction false} PlacesApart<E>(s: seq<TimedEvent<E>>, from: nat, n: nat, uncertain: bool)
    requires Sorted(s) && from < n <= |s|
    ensures var places := Places(s, from, n, uncertain);
      Apart(places) && places != [] && places[|places| - 1].startMs == StartOf(s, from, n - 1)
    decreases n
  {
    StartFacts(s, from, n - 1);
    if from < n - 1 {
      PlacesApart(s, from, n - 1, uncertain);
      if BeginsBlock(s, from, n - 1) {
        AppendApart(Places(s, from, n - 1, uncertain), Place(StartOf(s, from, n - 1), UncertainAt(s, from, n - 1, uncertain)));
      }
    }
  }

  lemma AppendApart(places: seq<Place>, place: Place)
    requires Apart(places) && OnHour(place.startMs)
    requires places != [] ==> places[|places| - 1].startMs + BLOCK_MS <= place.startMs
    ensures Apart(places + [place])
  {
  }

  // ----- the shortcut start

  lemma {:induction false} AfterGap<E>(s: seq<TimedEvent<E>>, g: nat, i: nat, uncertain: bool)
    requires Sorted(s) && 0 < g <= i < |s| && Gap(s, g)
    ensures StartOf(s, 0, i) == StartOf(s, g, i) && BeginsBlock(s, 0, i) == BeginsBlock(s, g, i)
    ensures !UncertainAt(s, 0, i, uncertain) && !UncertainAt(s, g, i, false)
  {
    if g < i {
      AfterGap(s, g, i - 1, uncertain);
    } else {
      StartFacts(s, 0, i - 1);
    }
  }

  lemma {:induction false} PlacesSplitAtGap<E>(s: seq<TimedEvent<E>>, g: nat, n: nat, uncertain: bool)
    requires Sorted(s) && 0 < g <= n <= |s| && g < |s| && Gap(s, g)
    ensures Places(s, 0, n, uncertain) == Places(s, 0, g, uncertain) + Places(s, g, n, false)
    decreases n
  {
    if g < n {
      PlacesSplitAtGap(s, g, n - 1, uncertain);
      AfterGap(s, g, n - 1, uncertain);
    }
  }

  lemma {:induction false} EndedBlocksAreDropped<E>(blocks: seq<Block<E>>, more: seq<Block<E>>, sinceMs: int)
    requires forall k :: 0 <= k < |blocks| ==> blocks[k].startMs + BLOCK_MS <= sinceMs
    ensures Kept(blocks + more, Some(sinceMs)) == Kept(more, Some(sinceMs))
  {
    if more != [] {
      assert (blocks + more)[..|blocks + more| - 1] == blocks + more[..|more| - 1];
      EndedBlocksAreDropped(blocks, more[..|more| - 1], sinceMs);
    } else {
      assert blocks + more == blocks;
      if blocks != [] {
        assert blocks[..|blocks| - 1] + [] == blocks[..|blocks| - 1];
        EndedBlocksAreDropped(blocks[..|blocks| - 1], [], sinceMs);
      }
    }
  }

  lemma FillConcat<E>(before: seq<Place>, after: seq<Place>, s: seq<TimedEvent<E>>)
    ensures Fill(before + after, s) == Fill(before, s) + Fill(after, s)
  {
  }

  /** Blocks placed before a gap have ended by the event after it. */
  lemma PlacesBeforeGapEnd<E>(s: seq<TimedEvent<E>>, g: nat, uncertain: bool)
    requires Sorted(s) && 0 < g < |s| && Gap(s, g)
    ensures var places := Places(s, 0, g, uncertain);
      forall k :: 0 <= k < |places| ==> places[k].startMs + BLOCK_MS <= s[g].timeMs
  {
    var places := Places(s, 0, g, uncertain);
    PlacesApart(s, 0, g, uncertain);
    StartFacts(s, 0, g - 1);
    assert forall k :: 0 <= k < |places| ==> places[k].startMs <= places[|places| - 1].startMs;
  }

  /** Chaining from a gap at or before `sinceMs` gives the same kept blocks as chaining from the first event. */
  lemma ShortcutKeepsBlocks<E>(s: seq<TimedEvent<E>>, g: nat, sinceMs: int, uncertain: bool)
    requires Sorted(s) && 0 < g < |s| && Gap(s, g) && s[g].timeMs <= sinceMs
    ensures Kept(Fill(Places(s, g, |s|, false), s), Some(sinceMs)) == Kept(Fill(Places(s, 0, |s|, uncertain), s), Some(sinceMs))
  {
    var before, after := Places(s, 0, g, uncertain), Places(s, g, |s|, false);
    PlacesSplitAtGap(s, g, |s|, uncertain);
    PlacesBeforeGapEnd(s, g, uncertain);
    FillConcat(before, after, s);
    EndedBlocksAreDropped(Fill(before, s), Fill(after, s), sinceMs);
  }

  // ----- the methods

  /** The last event the chain can start from: after a gap of 5 h or more, at or before `sinceMs`. */
  method FindChainStart<E>(s: seq<TimedEvent<E>>, options: Options) returns (index: nat, certain: bool)
    requires s != []
    ensures index < |s|
    ensures index > 0 ==> certain && options.sinceMs.Some? && s[index].timeMs <= options.sinceMs.value && Gap(s, index)
    ensures index == 0 ==> certain == !StartsUncertain(s, options)
    ensures options.sinceMs.Some? ==> forall i :: index < i < |s| && Gap(s, i) ==> s[i].timeMs > options.sinceMs.value
  {
    if options.sinceMs.Some? {
      var i := |s| - 1;
      while i > 0
        invariant 0 <= i < |s|
        invariant forall j :: i < j < |s| && Gap(s, j) ==> s[j].timeMs > options.sinceMs.value
      {
        if s[i].timeMs <= options.sinceMs.value && s[i].timeMs - s[i - 1].timeMs >= BLOCK_MS {
          return i, true;
        }
        i := i - 1;
      }
    }
    index, certain := 0, options.rangeStartMs.None? || s[0].timeMs - options.rangeStartMs.value >= BLOCK_MS;
  }

  /** The blocks at `places`, each holding the counted events of its hours among the first `n`. */
  ghost predicate Filled<E>(blocks: seq<Block<E>>, places: seq<Place>, s: seq<TimedEvent<E>>, n: nat)
    requires n <= |s|
  {
    && |blocks| == |places|
    && forall k :: 0 <= k < |places| ==>
         blocks[k] == Block(places[k].startMs, places[k].startUncertain, Within(s, n, places[k].startMs))
  }

  lemma {:induction false} WithinNone<E>(s: seq<TimedEvent<E>>, n: nat, startMs: int)
    requires n <= |s| && forall i :: 0 <= i < n ==> s[i].timeMs < startMs
    ensures Within(s, n, startMs) == []
  {
    if n > 0 { WithinNone(s, n - 1, startMs); }
  }

  /** The kept blocks, chained from the shortcut start: those of the whole chain. */
  method ChainSourceBlocks<E>(s: seq<TimedEvent<E>>, options: Options) returns (kept: seq<Block<E>>)
    requires s != [] && Sorted(s)
    ensures kept == SourceBlocks(s, options)
  {
    var start, certain := FindChainStart(s, options);
    var blocks := ChainFrom(s, start, certain);
    if start > 0 {
      ShortcutKeepsBlocks(s, start, options.sinceMs.value, StartsUncertain(s, options));
    }
    kept := KeepBlocks(blocks, options.sinceMs);
  }

  /** The chain's state once the events from `from` to `index` are placed. */
  ghost predicate ChainedTo<E>(s: seq<TimedEvent<E>>, from: nat, index: nat, certain: bool, uncertain: bool, places: seq<Place>)
    requires from <= index <= |s|
  {
    && places == Places(s, from, index, !certain)
    && uncertain == (if index == from then !certain else UncertainAt(s, from, index - 1, !certain))
  }

  predicate AfterGapFrom<E>(s: seq<TimedEvent<E>>, from: nat, index: nat)
    requires index < |s|
  {
    index > from && s[index].timeMs - s[index - 1].timeMs >= BLOCK_MS
  }

  lemma ChainStep<E>(s: seq<TimedEvent<E>>, from: nat, index: nat, certain: bool, uncertain: bool, places: seq<Place>)
    requires Sorted(s) && from <= index < |s| && (from == 0 || Gap(s, from))
    requires ChainedTo(s, from, index, certain, uncertain, places)
    ensures Precedes(places, s, index)
    ensures var next := uncertain && !AfterGapFrom(s, from, index);
      ChainedTo(s, from, index + 1, certain, next, PlacesWith(places, s[index].timeMs, next))
  {
    PlaceFacts(s, from, index, !certain);
    PlacesStep(s, from, index, !certain);
  }

  method ChainFrom<E>(s: seq<TimedEvent<E>>, start: nat, certain: bool) returns (blocks: seq<Block<E>>)
    requires Sorted(s) && start < |s| && (start == 0 || Gap(s, start))
    ensures blocks == Fill(Places(s, start, |s|, !certain), s)
  {
    var uncertain := !certain;
    ghost var places: seq<Place> := [];
    blocks := [];
    for index := start to |s|
      invariant ChainedTo(s, start, index, certain, uncertain, places) && Filled(blocks, places, s, index)
    {
      ChainStep(s, start, index, certain, uncertain, places);
      if AfterGapFrom(s, start, index) {
        uncertain := false;
      }
      blocks, places := PlaceEvent(s, index, uncertain, blocks, places);
    }
    FilledIsFill(blocks, places, s);
  }

  lemma FilledIsFill<E>(blocks: seq<Block<E>>, places: seq<Place>, s: seq<TimedEvent<E>>)
    requires Filled(blocks, places, s, |s|)
    ensures blocks == Fill(places, s)
  {
  }

  lemma PlacesStep<E>(s: seq<TimedEvent<E>>, from: nat, index: nat, uncertain: bool)
    requires Sorted(s) && from <= index < |s|
    ensures Places(s, from, index + 1, uncertain) ==
      PlacesWith(Places(s, from, index, uncertain), s[index].timeMs, UncertainAt(s, from, index, uncertain))
  {
    if from < index { PlacesApart(s, from, index, uncertain); }
  }

  /** The places once an event is placed: a new one when it is past the last. */
  ghost function PlacesWith(places: seq<Place>, timeMs: int, uncertain: bool): seq<Place> {
    if places == [] || timeMs >= places[|places| - 1].startMs + BLOCK_MS
    then places + [Place(HourOf(timeMs), uncertain)] else places
  }

  /** What `PlaceEvent` needs to know of event `index` and the places before it. */
  lemma PlaceFacts<E>(s: seq<TimedEvent<E>>, from: nat, index: nat, uncertain: bool)
    requires Sorted(s) && from <= index < |s| && (from == 0 || Gap(s, from))
    ensures Precedes(Places(s, from, index, uncertain), s, index)
  {
    if index > from {
      PlacesApart(s, from, index, uncertain);
      StartFacts(s, from, index - 1);
      StartFacts(s, from, index);
    }
  }

  /** Event `index` comes after the last place's start; if it is past it, so are all events before. */
  ghost predicate Precedes<E>(places: seq<Place>, s: seq<TimedEvent<E>>, index: nat)
    requires index < |s|
  {
    && Apart(places)
    && (places != [] ==> places[|places| - 1].startMs <= s[index].timeMs)
    && (places == [] || s[index].timeMs >= places[|places| - 1].startMs + BLOCK_MS ==>
          forall i :: 0 <= i < index ==> s[i].timeMs < HourOf(s[index].timeMs))
  }

  /** A place for an event past the last one. */
  lemma NewPlaceIsApart<E>(places: seq<Place>, s: seq<TimedEvent<E>>, index: nat, uncertain: bool)
    requires index < |s| && Precedes(places, s, index)
    requires places == [] || s[index].timeMs >= places[|places| - 1].startMs + BLOCK_MS
    ensures Apart(places + [Place(HourOf(s[index].timeMs), uncertain)])
  {
    if places != [] {
      BlockEndOnHour(places[|places| - 1].startMs);
      HourIsLatest(places[|places| - 1].startMs + BLOCK_MS, s[index].timeMs);
    }
    AppendApart(places, Place(HourOf(s[index].timeMs), uncertain));
  }

  lemma NewBlockIsFilled<E>(s: seq<TimedEvent<E>>, index: nat, blocks: seq<Block<E>>, places: seq<Place>, place: Place)
    requires index < |s| && Filled(blocks, places, s, index) && forall i :: 0 <= i < index ==> s[i].timeMs < place.startMs
    ensures Filled(blocks + [Block(place.startMs, place.startUncertain, [])], places + [place], s, index)
  {
    WithinNone(s, index, place.startMs);
  }

  /** The block an event lies in is the last, once it is started when the event is past the current one. */
  lemma BlockIsOpen<E>(s: seq<TimedEvent<E>>, index: nat, uncertain: bool, blocks: seq<Block<E>>, places: seq<Place>, open: seq<Block<E>>)
    requires index < |s| && Filled(blocks, places, s, index) && Precedes(places, s, index)
    requires open == if blocks == [] || s[index].timeMs >= blocks[|blocks| - 1].startMs + BLOCK_MS
                     then blocks + [Block(HourOf(s[index].timeMs), uncertain, [])] else blocks
    ensures var placed := PlacesWith(places, s[index].timeMs, uncertain);
      Filled(open, placed, s, index) && Apart(placed) && placed != [] && InBlock(s[index].timeMs, placed[|placed| - 1].startMs)
  {
    if places == [] || s[index].timeMs >= places[|places| - 1].startMs + BLOCK_MS {
      NewPlaceIsApart(places, s, index, uncertain);
      NewBlockIsFilled(s, index, blocks, places, Place(HourOf(s[index].timeMs), uncertain));
    }
  }

  /** One event: starts a block when it is past the current one, and counts it there. */
  method PlaceEvent<E>(s: seq<TimedEvent<E>>, index: nat, uncertain: bool, blocks: seq<Block<E>>, ghost places: seq<Place>)
    returns (blocks': seq<Block<E>>, ghost places': seq<Place>)
    requires index < |s| && Filled(blocks, places, s, index) && Precedes(places, s, index)
    ensures places' == PlacesWith(places, s[index].timeMs, uncertain)
    ensures Filled(blocks', places', s, index + 1)
  {
    var timed := s[index];
    blocks' := blocks;
    places' := PlacesWith(places, timed.timeMs, uncertain);
    if blocks == [] || timed.timeMs >= blocks[|blocks| - 1].startMs + BLOCK_MS {
      blocks' := blocks + [Block(HourOf(timed.timeMs), uncertain, [])];
    }
    BlockIsOpen(s, index, uncertain, blocks, places, blocks');
    var last := |blocks'| - 1;
    ghost var open := blocks';
    if timed.counted {
      blocks' := blocks'[last := blocks'[last].(events := blocks'[last].events + [timed])];
    }
    LastBlockCounts(s, index, open, places', blocks');
  }

  /** An event in the last block's hours is counted there, and in no block before it. */
  lemma LastBlockCounts<E>(s: seq<TimedEvent<E>>, index: nat, blocks: seq<Block<E>>, places: seq<Place>, blocks': seq<Block<E>>)
    requires index < |s| && Filled(blocks, places, s, index) && Apart(places) && places != []
    requires InBlock(s[index].timeMs, places[|places| - 1].startMs)
    requires var last := |blocks| - 1;
      blocks' == if s[index].counted then blocks[last := blocks[last].(events := blocks[last].events + [s[index]])] else blocks
    ensures Filled(blocks', places, s, index + 1)
  {
    var last := |blocks| - 1;
    forall k | 0 <= k < |places|
      ensures blocks'[k] == Block(places[k].startMs, places[k].startUncertain, Within(s, index + 1, places[k].startMs))
    {
      if k < last { assert places[k].startMs + BLOCK_MS <= places[last].startMs; }
    }
  }

  method KeepBlocks<E>(blocks: seq<Block<E>>, sinceMs: Option<int>) returns (kept: seq<Block<E>>)
    ensures kept == Kept(blocks, sinceMs)
  {
    kept := [];
    for i := 0 to |blocks|
      invariant kept == Kept(blocks[..i], sinceMs)
    {
      assert blocks[..i + 1][..i] == blocks[..i];
      if blocks[i].events != [] && (sinceMs.None? || blocks[i].startMs + BLOCK_MS > sinceMs.value) {
        kept := kept + [blocks[i]];
      }
    }
    assert blocks[..|blocks|] == blocks;
  }

  // ----- certain starts

  /** Usage the range leaves out: `earlier` ends by its start, and `s` follows. */
  ghost predicate LeftOut<E>(earlier: seq<TimedEvent<E>>, s: seq<TimedEvent<E>>, options: Options) {
    && s != [] && Sorted(earlier + s)
    && (earlier != [] ==> options.rangeStartMs.Some?)
    && forall e :: 0 <= e < |earlier| ==> earlier[e].timeMs <= options.rangeStartMs.value
  }

  lemma TailIsSorted<E>(earlier: seq<TimedEvent<E>>, s: seq<TimedEvent<E>>)
    requires Sorted(earlier + s)
    ensures Sorted(s)
  {
    var all, n := earlier + s, |earlier|;
    forall i, j | 0 <= i < j < |s| ensures s[i].timeMs <= s[j].timeMs {
      assert all[n + i] == s[i] && all[n + j] == s[j];
    }
  }

  /** After a gap of 5 h or more a block begins, wherever the chain came from. */
  lemma GapBeginsBlock<E>(s: seq<TimedEvent<E>>, i: nat)
    requires Sorted(s) && 0 < i < |s| && Gap(s, i)
    ensures BeginsBlock(s, 0, i)
  {
    StartFacts(s, 0, i - 1);
  }

  /** From the first certain event on, the chain is the one that the left-out usage would give. */
  lemma {:induction false} CertainStart<E>(earlier: seq<TimedEvent<E>>, s: seq<TimedEvent<E>>, options: Options, i: nat)
    requires LeftOut(earlier, s, options) && i < |s| && !UncertainAt(s, 0, i, StartsUncertain(s, options))
    ensures StartOf(earlier + s, 0, |earlier| + i) == StartOf(s, 0, i)
    ensures BeginsBlock(s, 0, i) ==> BeginsBlock(earlier + s, 0, |earlier| + i)
  {
    var all, at := earlier + s, |earlier| + i;
    TailIsSorted(earlier, s);
    assert all[at] == s[i];
    if i == 0 {
      if earlier != [] {
        assert all[at - 1] == earlier[|earlier| - 1];
        GapBeginsBlock(all, at);
      }
    } else {
      assert all[at - 1] == s[i - 1];
      if Gap(s, i) {
        GapBeginsBlock(all, at);
        GapBeginsBlock(s, i);
      } else {
        CertainStart(earlier, s, options, i - 1);
      }
    }
  }

  /** Which event a place comes from. */
  lemma {:induction false} PlaceComes<E>(s: seq<TimedEvent<E>>, n: nat, uncertain: bool, k: nat) returns (i: nat)
    requires n <= |s| && k < |Places(s, 0, n, uncertain)|
    ensures i < n && BeginsBlock(s, 0, i) && Places(s, 0, n, uncertain)[k] == Place(StartOf(s, 0, i), UncertainAt(s, 0, i, uncertain))
  {
    if k < |Places(s, 0, n - 1, uncertain)| {
      i := PlaceComes(s, n - 1, uncertain, k);
    } else {
      i := n - 1;
    }
  }

  /** Nothing before an event that begins a block lies in that block. */
  lemma EarlierLieBefore<E>(s: seq<TimedEvent<E>>, i: nat)
    requires Sorted(s) && i < |s| && BeginsBlock(s, 0, i)
    ensures forall j :: 0 <= j < i ==> s[j].timeMs < StartOf(s, 0, i)
  {
    StartFacts(s, 0, i);
    if i > 0 {
      StartFacts(s, 0, i - 1);
      forall j | 0 <= j < i ensures s[j].timeMs < StartOf(s, 0, i) {
        assert s[j].timeMs <= s[i - 1].timeMs;
      }
    }
  }

  lemma {:induction false} WithinTail<E>(earlier: seq<TimedEvent<E>>, s: seq<TimedEvent<E>>, n: nat, startMs: int)
    requires n <= |s| && forall e :: 0 <= e < |earlier| ==> earlier[e].timeMs < startMs
    ensures Within(earlier + s, |earlier| + n, startMs) == Within(s, n, startMs)
  {
    if n == 0 {
      WithinNone(earlier + s, |earlier|, startMs);
    } else {
      WithinTail(earlier, s, n - 1, startMs);
      assert (earlier + s)[|earlier| + n - 1] == s[n - 1];
    }
  }

  lemma CertainBlockIsPlaced<E>(earlier: seq<TimedEvent<E>>, s: seq<TimedEvent<E>>, options: Options, i: nat, uncertain: bool)
    requires LeftOut(earlier, s, options) && i < |s| && !UncertainAt(s, 0, i, StartsUncertain(s, options))
    ensures HasStart(Places(earlier + s, 0, |earlier + s|, uncertain), StartOf(s, 0, i))
  {
    CertainStart(earlier, s, options, i);
    StartIsPlaced(earlier + s, |earlier + s|, uncertain, |earlier| + i);
  }

  lemma CertainBlockHolds<E>(earlier: seq<TimedEvent<E>>, s: seq<TimedEvent<E>>, options: Options, i: nat)
    requires LeftOut(earlier, s, options) && i < |s| && !UncertainAt(s, 0, i, StartsUncertain(s, options)) && BeginsBlock(s, 0, i)
    ensures Within(earlier + s, |earlier + s|, StartOf(s, 0, i)) == Within(s, |s|, StartOf(s, 0, i))
  {
    CertainStart(earlier, s, options, i);
    EarlierLieBefore(earlier + s, |earlier| + i);
    forall e | 0 <= e < |earlier| ensures earlier[e].timeMs < StartOf(s, 0, i) {
      assert (earlier + s)[e] == earlier[e];
    }
    WithinTail(earlier, s, |s|, StartOf(s, 0, i));
  }

  ghost predicate HasStart(places: seq<Place>, startMs: int) {
    exists p :: 0 <= p < |places| && places[p].startMs == startMs
  }

  /**
     A block whose start is not marked uncertain is a block of the whole history: with any usage that the
     range leaves out put in front, a block starts there and holds the same counted events.
   */
  lemma CertainBlocksAreTrue<E>(earlier: seq<TimedEvent<E>>, s: seq<TimedEvent<E>>, options: Options, k: nat, uncertain: bool)
    requires LeftOut(earlier, s, options) && k < |WholePlaces(s, options)| && !WholePlaces(s, options)[k].startUncertain
    ensures var all, startMs := earlier + s, WholePlaces(s, options)[k].startMs;
      HasStart(Places(all, 0, |all|, uncertain), startMs) && Within(all, |all|, startMs) == Within(s, |s|, startMs)
  {
    var i := PlaceComes(s, |s|, StartsUncertain(s, options), k);
    CertainBlockIsPlaced(earlier, s, options, i, uncertain);
    CertainBlockHolds(earlier, s, options, i);
  }

  // ----- kept blocks are disjoint, and an event finds its own

  ghost predicate BlocksApart<E>(blocks: seq<Block<E>>) {
    && (forall k :: 0 <= k < |blocks| ==> OnHour(blocks[k].startMs))
    && (forall k, l :: 0 <= k < l < |blocks| ==> blocks[k].startMs + BLOCK_MS <= blocks[l].startMs)
  }

  /** `at` lists where the kept blocks lie. */
  ghost predicate ListsKept<E>(at: seq<nat>, blocks: seq<Block<E>>, sinceMs: Option<int>) {
    && |at| == |Kept(blocks, sinceMs)|
    && (forall k :: 0 <= k < |at| ==> at[k] < |blocks| && Kept(blocks, sinceMs)[k] == blocks[at[k]] && IsKept(blocks[at[k]], sinceMs))
    && (forall k, l :: 0 <= k < l < |at| ==> at[k] < at[l])
  }

  lemma {:induction false} KeptAreSome<E>(blocks: seq<Block<E>>, sinceMs: Option<int>) returns (at: seq<nat>)
    ensures ListsKept(at, blocks, sinceMs)
    ensures forall b :: 0 <= b < |blocks| && IsKept(blocks[b], sinceMs) ==> b in at
  {
    if blocks == [] {
      at := [];
    } else {
      var last := |blocks| - 1;
      var before := KeptAreSome(blocks[..last], sinceMs);
      at := before;
      if IsKept(blocks[last], sinceMs) { at := before + [last]; }
      KeptStep(before, at, blocks, sinceMs);
      forall b | 0 <= b < |blocks| && IsKept(blocks[b], sinceMs) ensures b in at {
        if b < last { assert IsKept(blocks[..last][b], sinceMs); }
      }
    }
  }

  lemma KeptStep<E>(before: seq<nat>, at: seq<nat>, blocks: seq<Block<E>>, sinceMs: Option<int>)
    requires blocks != [] && ListsKept(before, blocks[..|blocks| - 1], sinceMs)
    requires at == if IsKept(blocks[|blocks| - 1], sinceMs) then before + [|blocks| - 1] else before
    ensures ListsKept(at, blocks, sinceMs)
  {
    var last := |blocks| - 1;
    assert Kept(blocks, sinceMs) == Kept(blocks[..last], sinceMs) + (if IsKept(blocks[last], sinceMs) then [blocks[last]] else []);
    forall k | 0 <= k < |at| ensures at[k] < |blocks| && Kept(blocks, sinceMs)[k] == blocks[at[k]] && IsKept(blocks[at[k]], sinceMs) {
      if k < |before| { assert Kept(blocks, sinceMs)[k] == Kept(blocks[..last], sinceMs)[k] == blocks[..last][before[k]]; }
    }
  }

  /** Kept blocks start on the hour, lie 5 h apart, have not ended by `sinceMs`, and hold all counted events of their hours. */
  lemma KeptBlocksAreDisjoint<E>(s: seq<TimedEvent<E>>, options: Options)
    requires s != [] && Sorted(s)
    ensures BlocksApart(SourceBlocks(s, options))
    ensures forall k :: 0 <= k < |SourceBlocks(s, options)| ==>
      var b := SourceBlocks(s, options)[k];
      && IsKept(b, options.sinceMs) && b.events == Within(s, |s|, b.startMs)
      && exists p :: 0 <= p < |WholePlaces(s, options)| && WholePlaces(s, options)[p] == Place(b.startMs, b.startUncertain)
  {
    var places := WholePlaces(s, options);
    PlacesApart(s, 0, |s|, StartsUncertain(s, options));
    var at := KeptAreSome(Fill(places, s), options.sinceMs);
    forall k | 0 <= k < |at|
      ensures places[at[k]] == Place(SourceBlocks(s, options)[k].startMs, SourceBlocks(s, options)[k].startUncertain)
    {
    }
  }

  ghost function Starts<E>(blocks: seq<Block<E>>): set<int> {
    set k | 0 <= k < |blocks| :: blocks[k].startMs
  }

  lemma {:induction false} StartIsPlaced<E>(s: seq<TimedEvent<E>>, n: nat, uncertain: bool, i: nat)
    requires Sorted(s) && i < n <= |s|
    ensures exists p :: 0 <= p < |Places(s, 0, n, uncertain)| && Places(s, 0, n, uncertain)[p].startMs == StartOf(s, 0, i)
  {
    PlacesApart(s, 0, n, uncertain);
    var places := Places(s, 0, n, uncertain);
    if i == n - 1 {
      assert places[|places| - 1].startMs == StartOf(s, 0, i);
    } else {
      StartIsPlaced(s, n - 1, uncertain, i);
      var p :| 0 <= p < |Places(s, 0, n - 1, uncertain)| && Places(s, 0, n - 1, uncertain)[p].startMs == StartOf(s, 0, i);
      assert places[p] == Places(s, 0, n - 1, uncertain)[p];
    }
  }

  /** Of the kept blocks, event `i` lies in its own or in none. */
  lemma {:induction false} OnlyOwnBlockHolds<E>(s: seq<TimedEvent<E>>, options: Options, i: nat, start: int)
    requires s != [] && Sorted(s) && i < |s| && start in Starts(SourceBlocks(s, options))
    ensures InBlock(s[i].timeMs, start) <==> start == StartOf(s, 0, i)
  {
    var uncertain := StartsUncertain(s, options);
    KeptBlocksAreDisjoint(s, options);
    PlacesApart(s, 0, |s|, uncertain);
    StartFacts(s, 0, i);
    StartIsPlaced(s, |s|, uncertain, i);
    var places := WholePlaces(s, options);
    var p :| 0 <= p < |places| && places[p].startMs == StartOf(s, 0, i);
    var k :| 0 <= k < |SourceBlocks(s, options)| && SourceBlocks(s, options)[k].startMs == start;
    var q :| 0 <= q < |places| && places[q].startMs == start;
    assert p != q ==> places[p].startMs + BLOCK_MS <= places[q].startMs || places[q].startMs + BLOCK_MS <= places[p].startMs;
  }

  /** The block an event lies in, stepping back from its hour. */
  method FindEventBlock(timeMs: int, starts: set<int>) returns (found: Option<int>)
    ensures found.Some? ==> found.value in starts && OnHour(found.value) && InBlock(timeMs, found.value)
    ensures found.None? ==> forall start :: start in starts && OnHour(start) ==> !InBlock(timeMs, start)
  {
    var hourMs := HourOf(timeMs);
    var startMs := hourMs;
    while startMs > hourMs - BLOCK_MS
      invariant OnHour(startMs) && hourMs - BLOCK_MS <= startMs <= hourMs
      invariant forall start :: start in starts && OnHour(start) && InBlock(timeMs, start) ==> start <= startMs
    {
      if startMs in starts {
        return Some(startMs);
      }
      forall start | start in starts && OnHour(start) && InBlock(timeMs, start) ensures start <= startMs - HOUR_MS {
        HoursApart(start, startMs);
      }
      startMs := startMs - HOUR_MS;
    }
    found := None;
  }

  /** Looked up among the kept blocks, an event finds its own block exactly when that is kept. */
  method FindOwnBlock<E>(s: seq<TimedEvent<E>>, ghost options: Options, i: nat, starts: set<int>) returns (found: Option<int>)
    requires s != [] && Sorted(s) && i < |s| && starts == Starts(SourceBlocks(s, options))
    ensures found == if StartOf(s, 0, i) in starts then Some(StartOf(s, 0, i)) else None
  {
    found := FindEventBlock(s[i].timeMs, starts);
    KeptBlocksAreDisjoint(s, options);
    StartFacts(s, 0, i);
    if found.Some? { OnlyOwnBlockHolds(s, options, i, found.value); }
  }

  function SumEvents<E>(blocks: seq<Block<E>>): nat {
    if blocks == [] then 0 else SumEvents(blocks[..|blocks| - 1]) + |blocks[|blocks| - 1].events|
  }

  /** The counted events among the first `n` whose own block starts at one of `starts`. */
  function CountKept<E>(s: seq<TimedEvent<E>>, n: nat, starts: set<int>): nat
    requires n <= |s|
  {
    if n == 0 then 0
    else CountKept(s, n - 1, starts) + (if s[n - 1].counted && StartOf(s, 0, n - 1) in starts then 1 else 0)
  }

  /** The counted events of the first `n` in any of the first `k` blocks, block by block. */
  function SumWithin<E>(s: seq<TimedEvent<E>>, n: nat, blocks: seq<Block<E>>, k: nat): nat
    requires n <= |s| && k <= |blocks|
  {
    if k == 0 then 0 else SumWithin(s, n, blocks, k - 1) + |Within(s, n, blocks[k - 1].startMs)|
  }

  lemma {:induction false} SumWithinStep<E>(s: seq<TimedEvent<E>>, n: nat, blocks: seq<Block<E>>, k: nat, own: int)
    requires n < |s| && k <= |blocks| && BlocksApart(blocks)
    requires forall l :: 0 <= l < |blocks| ==> (InBlock(s[n].timeMs, blocks[l].startMs) <==> blocks[l].startMs == own)
    ensures SumWithin(s, n + 1, blocks, k) == SumWithin(s, n, blocks, k) +
      (if s[n].counted && exists l :: 0 <= l < k && blocks[l].startMs == own then 1 else 0)
  {
    if k > 0 {
      SumWithinStep(s, n, blocks, k - 1, own);
      if blocks[k - 1].startMs == own {
        assert forall l :: 0 <= l < k - 1 ==> blocks[l].startMs + BLOCK_MS <= blocks[k - 1].startMs;
      }
    }
  }

  /** Of these blocks, each event lies in its own only. */
  ghost predicate OwnOnly<E>(s: seq<TimedEvent<E>>, blocks: seq<Block<E>>) {
    forall i, l :: 0 <= i < |s| && 0 <= l < |blocks| ==> (InBlock(s[i].timeMs, blocks[l].startMs) <==> blocks[l].startMs == StartOf(s, 0, i))
  }

  lemma KeptAreOwnOnly<E>(s: seq<TimedEvent<E>>, options: Options)
    requires s != [] && Sorted(s)
    ensures OwnOnly(s, SourceBlocks(s, options))
  {
    var blocks := SourceBlocks(s, options);
    forall i, l | 0 <= i < |s| && 0 <= l < |blocks|
      ensures InBlock(s[i].timeMs, blocks[l].startMs) <==> blocks[l].startMs == StartOf(s, 0, i)
    {
      assert blocks[l].startMs in Starts(blocks);
      OnlyOwnBlockHolds(s, options, i, blocks[l].startMs);
    }
  }

  lemma {:induction false} SumWithinCounts<E>(s: seq<TimedEvent<E>>, blocks: seq<Block<E>>, n: nat)
    requires BlocksApart(blocks) && OwnOnly(s, blocks) && n <= |s|
    ensures SumWithin(s, n, blocks, |blocks|) == CountKept(s, n, Starts(blocks))
  {
    if n == 0 {
      SumWithinNone(s, blocks, |blocks|);
    } else {
      SumWithinCounts(s, blocks, n - 1);
      SumWithinStep(s, n - 1, blocks, |blocks|, StartOf(s, 0, n - 1));
    }
  }

  lemma {:induction false} SumWithinNone<E>(s: seq<TimedEvent<E>>, blocks: seq<Block<E>>, k: nat)
    requires k <= |blocks|
    ensures SumWithin(s, 0, blocks, k) == 0
  {
    if k > 0 { SumWithinNone(s, blocks, k - 1); }
  }

  lemma {:induction false} SumEventsIsSumWithin<E>(s: seq<TimedEvent<E>>, blocks: seq<Block<E>>, k: nat)
    requires k <= |blocks| && forall l :: 0 <= l < |blocks| ==> blocks[l].events == Within(s, |s|, blocks[l].startMs)
    ensures SumEvents(blocks[..k]) == SumWithin(s, |s|, blocks, k)
  {
    if k > 0 {
      SumEventsIsSumWithin(s, blocks, k - 1);
      assert blocks[..k][..k - 1] == blocks[..k - 1];
    }
  }

  /** The kept blocks' event counts add up to the counted events whose own block is kept. */
  lemma EventCountsAddUp<E>(s: seq<TimedEvent<E>>, options: Options)
    requires s != [] && Sorted(s)
    ensures SumEvents(SourceBlocks(s, options)) == CountKept(s, |s|, Starts(SourceBlocks(s, options)))
  {
    var blocks := SourceBlocks(s, options);
    KeptBlocksAreDisjoint(s, options);
    SumEventsIsSumWithin(s, blocks, |blocks|);
    assert blocks[..|blocks|] == blocks;
    KeptAreOwnOnly(s, options);
    SumWithinCounts(s, blocks, |s|);
  }

  // ----- when a start is uncertain

  /** Event `f` is the first, counted or not, in the hours of the block. */
  ghost predicate PlacesFirst<E>(s: seq<TimedEvent<E>>, startMs: int, f: nat)
    requires f < |s|
  {
    InBlock(s[f].timeMs, startMs) && forall i :: 0 <= i < f ==> !InBlock(s[i].timeMs, startMs)
  }

  /** A range start is given, less than 5 h before the first event, and no successive events up to event `f` are 5 h or more apart. */
  ghost predicate MayContinue<E>(s: seq<TimedEvent<E>>, rangeStartMs: Option<int>, f: nat)
    requires f < |s|
  {
    && rangeStartMs.Some? && s[0].timeMs < rangeStartMs.value + 5 * 60 * 60 * 1000
    && forall i :: 0 < i <= f ==> s[i].timeMs < s[i - 1].timeMs + 5 * 60 * 60 * 1000
  }

  lemma {:induction false} UncertainAtIff<E>(s: seq<TimedEvent<E>>, options: Options, i: nat)
    requires i < |s|
    ensures UncertainAt(s, 0, i, StartsUncertain(s, options)) <==> MayContinue(s, options.rangeStartMs, i)
  {
    if i > 0 { UncertainAtIff(s, options, i - 1); }
  }

  /**
     A block is marked uncertain exactly when usage the range leaves out may have reached it: the range
     starts less than 5 h before the first event, and no gap of 5 h or more comes before the block.
   */
  lemma UncertainIff<E>(s: seq<TimedEvent<E>>, options: Options, k: nat) returns (f: nat)
    requires s != [] && Sorted(s) && k < |SourceBlocks(s, options)|
    ensures var b := SourceBlocks(s, options)[k];
      f < |s| && PlacesFirst(s, b.startMs, f) && (b.startUncertain <==> MayContinue(s, options.rangeStartMs, f))
  {
    var b, places := SourceBlocks(s, options)[k], WholePlaces(s, options);
    KeptBlocksAreDisjoint(s, options);
    var p :| 0 <= p < |places| && places[p] == Place(b.startMs, b.startUncertain);
    f := PlaceComes(s, |s|, StartsUncertain(s, options), p);
    StartFacts(s, 0, f);
    EarlierLieBefore(s, f);
    UncertainAtIff(s, options, f);
  }

  /** Over the whole history, or when the first event is 5 h or more after the range start, every start is certain. */
  lemma WholeHistoryIsCertain<E>(s: seq<TimedEvent<E>>, options: Options)
    requires s != [] && Sorted(s)
    requires options.rangeStartMs.None? || s[0].timeMs >= options.rangeStartMs.value + 5 * 60 * 60 * 1000
    ensures forall k :: 0 <= k < |SourceBlocks(s, options)| ==> !SourceBlocks(s, options)[k].startUncertain
  {
    forall k | 0 <= k < |SourceBlocks(s, options)| ensures !SourceBlocks(s, options)[k].startUncertain {
      var f := UncertainIff(s, options, k);
    }
  }

  // ----- which blocks are kept

  lemma KeptStartIff<E>(blocks: seq<Block<E>>, sinceMs: Option<int>, p: nat)
    requires BlocksApart(blocks) && p < |blocks|
    ensures blocks[p].startMs in Starts(Kept(blocks, sinceMs)) <==> IsKept(blocks[p], sinceMs)
  {
    var at := KeptAreSome(blocks, sinceMs);
    if p in at {
      var k :| 0 <= k < |at| && at[k] == p;
      assert Kept(blocks, sinceMs)[k].startMs == blocks[p].startMs;
    }
    if blocks[p].startMs in Starts(Kept(blocks, sinceMs)) {
      var k :| 0 <= k < |at| && Kept(blocks, sinceMs)[k].startMs == blocks[p].startMs;
      assert at[k] == p;
    }
  }

  lemma {:induction false} HoldsCountedIff<E>(s: seq<TimedEvent<E>>, n: nat, startMs: int)
    requires n <= |s|
    ensures Within(s, n, startMs) != [] <==> exists c :: 0 <= c < n && s[c].counted && InBlock(s[c].timeMs, startMs)
  {
    if n > 0 { HoldsCountedIff(s, n - 1, startMs); }
  }

  /** A block of the chain is kept exactly when a counted event is in it and it has not ended by `sinceMs`. */
  lemma KeptIff<E>(s: seq<TimedEvent<E>>, options: Options, i: nat)
    requires s != [] && Sorted(s) && i < |s|
    ensures var startMs := StartOf(s, 0, i);
      startMs in Starts(SourceBlocks(s, options)) <==>
        && (exists c :: 0 <= c < |s| && s[c].counted && InBlock(s[c].timeMs, startMs))
        && (options.sinceMs.Some? ==> options.sinceMs.value < startMs + 5 * 60 * 60 * 1000)
  {
    var startMs, places := StartOf(s, 0, i), WholePlaces(s, options);
    StartIsPlaced(s, |s|, StartsUncertain(s, options), i);
    var p :| 0 <= p < |places| && places[p].startMs == startMs;
    PlacesApart(s, 0, |s|, StartsUncertain(s, options));
    HoldsCountedIff(s, |s|, startMs);
    KeptStartIff(Fill(places, s), options.sinceMs, p);
  }

  // ----- narrowing

  ghost function Times<E>(s: seq<TimedEvent<E>>, n: nat): set<int>
    requires n <= |s|
  {
    set i | 0 <= i < n :: s[i].timeMs
  }

  /** Event `n - 1` repeats the time before it: it places nothing. */
  lemma RepeatPlacesNothing<E>(s: seq<TimedEvent<E>>, n: nat, uncertain: bool)
    requires Sorted(s) && 2 <= n <= |s| && s[n - 1].timeMs == s[n - 2].timeMs
    ensures Places(s, 0, n, uncertain) == Places(s, 0, n - 1, uncertain)
    ensures StartOf(s, 0, n - 1) == StartOf(s, 0, n - 2)
    ensures UncertainAt(s, 0, n - 1, uncertain) == UncertainAt(s, 0, n - 2, uncertain)
    ensures Times(s, n) == Times(s, n - 1)
  {
    StartFacts(s, 0, n - 2);
    assert Times(s, n) == Times(s, n - 1) + {s[n - 2].timeMs};
  }

  /** Placement agrees up to event `n - 1` of one stream and `m - 1` of another. */
  ghost predicate SamePlacement<E>(a: seq<TimedEvent<E>>, n: nat, b: seq<TimedEvent<E>>, m: nat, uncertain: bool)
    requires 0 < n <= |a| && 0 < m <= |b|
  {
    && Places(a, 0, n, uncertain) == Places(b, 0, m, uncertain)
    && StartOf(a, 0, n - 1) == StartOf(b, 0, m - 1)
    && UncertainAt(a, 0, n - 1, uncertain) == UncertainAt(b, 0, m - 1, uncertain)
  }

  lemma LastIsGreatest<E>(s: seq<TimedEvent<E>>, n: nat)
    requires Sorted(s) && 0 < n <= |s|
    ensures s[n - 1].timeMs in Times(s, n)
    ensures forall t :: t in Times(s, n) ==> t <= s[n - 1].timeMs
    ensures n > 1 && s[n - 2].timeMs < s[n - 1].timeMs ==> Times(s, n - 1) == Times(s, n) - {s[n - 1].timeMs}
    ensures n == 1 ==> Times(s, n) == {s[0].timeMs}
  {
    if n > 1 && s[n - 2].timeMs < s[n - 1].timeMs {
      assert Times(s, n) == Times(s, n - 1) + {s[n - 1].timeMs};
    }
  }

  /** Where blocks lie depends only on the set of times. */
  lemma {:induction false} TimesFixPlacement<E>(a: seq<TimedEvent<E>>, n: nat, b: seq<TimedEvent<E>>, m: nat, uncertain: bool)
    requires Sorted(a) && Sorted(b) && 0 < n <= |a| && 0 < m <= |b|
    requires Times(a, n) == Times(b, m)
    ensures SamePlacement(a, n, b, m, uncertain)
    decreases n + m
  {
    LastIsGreatest(a, n);
    LastIsGreatest(b, m);
    assert a[n - 1].timeMs == b[m - 1].timeMs;
    if n > 1 && a[n - 1].timeMs == a[n - 2].timeMs {
      RepeatPlacesNothing(a, n, uncertain);
      TimesFixPlacement(a, n - 1, b, m, uncertain);
    } else if m > 1 && b[m - 1].timeMs == b[m - 2].timeMs {
      RepeatPlacesNothing(b, m, uncertain);
      TimesFixPlacement(a, n, b, m - 1, uncertain);
    } else if n == 1 || m == 1 {
      OneTimeOnly(a, n, b, m);
      assert Places(a, 0, 0, uncertain) == [] == Places(b, 0, 0, uncertain);
    } else {
      TimesFixPlacement(a, n - 1, b, m - 1, uncertain);
      LastIsGreatest(a, n - 1);
      LastIsGreatest(b, m - 1);
      assert a[n - 2].timeMs == b[m - 2].timeMs;
    }
  }

  lemma OneTimeOnly<E>(a: seq<TimedEvent<E>>, n: nat, b: seq<TimedEvent<E>>, m: nat)
    requires Sorted(a) && Sorted(b) && 0 < n <= |a| && 0 < m <= |b|
    requires Times(a, n) == Times(b, m) && (n == 1 || m == 1)
    requires n > 1 ==> a[n - 2].timeMs < a[n - 1].timeMs
    requires m > 1 ==> b[m - 2].timeMs < b[m - 1].timeMs
    ensures n == 1 && m == 1
  {
    LastIsGreatest(a, n);
    LastIsGreatest(b, m);
    var i, j := if n > 1 then n - 2 else 0, if m > 1 then m - 2 else 0;
    assert a[i].timeMs in Times(a, n) && b[j].timeMs in Times(b, m);
  }

  // ----- a source's stream

  function Insert<E>(s: seq<TimedEvent<E>>, e: TimedEvent<E>): seq<TimedEvent<E>> {
    if s == [] || s[|s| - 1].timeMs <= e.timeMs then s + [e] else Insert(s[..|s| - 1], e) + [s[|s| - 1]]
  }

  /** The stable sort by time. */
  function SortByTime<E>(s: seq<TimedEvent<E>>): seq<TimedEvent<E>> {
    if s == [] then [] else Insert(SortByTime(s[..|s| - 1]), s[|s| - 1])
  }

  ghost predicate AtMost<E>(s: seq<TimedEvent<E>>, timeMs: int) {
    forall i :: 0 <= i < |s| ==> s[i].timeMs <= timeMs
  }

  lemma AppendSorted<E>(s: seq<TimedEvent<E>>, e: TimedEvent<E>)
    requires Sorted(s) && AtMost(s, e.timeMs)
    ensures Sorted(s + [e]) && AtMost(s + [e], e.timeMs)
  {
  }

  lemma SplitLast<E>(s: seq<TimedEvent<E>>)
    requires s != [] && Sorted(s)
    ensures s == s[..|s| - 1] + [s[|s| - 1]]
    ensures Sorted(s[..|s| - 1]) && AtMost(s[..|s| - 1], s[|s| - 1].timeMs) && AtMost(s, s[|s| - 1].timeMs)
  {
  }

  lemma {:induction false} InsertSorted<E>(s: seq<TimedEvent<E>>, e: TimedEvent<E>, top: int)
    requires Sorted(s) && AtMost(s, top) && e.timeMs <= top
    ensures Sorted(Insert(s, e)) && AtMost(Insert(s, e), top) && |Insert(s, e)| == |s| + 1
  {
    if s != [] {
      var last := |s| - 1;
      SplitLast(s);
      if s[last].timeMs <= e.timeMs {
        AppendSorted(s, e);
      } else {
        InsertSorted(s[..last], e, s[last].timeMs);
        AppendSorted(Insert(s[..last], e), s[last]);
      }
    }
  }

  lemma {:induction false} InsertTimes<E>(s: seq<TimedEvent<E>>, e: TimedEvent<E>)
    ensures |Insert(s, e)| == |s| + 1 && Times(Insert(s, e), |s| + 1) == Times(s, |s|) + {e.timeMs}
  {
    if s == [] || s[|s| - 1].timeMs <= e.timeMs {
      TimesAppend(s, e);
    } else {
      var last := |s| - 1;
      assert s == s[..last] + [s[last]];
      InsertTimes(s[..last], e);
      TimesAppend(s[..last], s[last]);
      TimesAppend(Insert(s[..last], e), s[last]);
    }
  }

  lemma TimesAppend<E>(s: seq<TimedEvent<E>>, e: TimedEvent<E>)
    ensures Times(s + [e], |s| + 1) == Times(s, |s|) + {e.timeMs}
  {
    assert (s + [e])[|s|] == e;
    forall t | t in Times(s, |s|) ensures t in Times(s + [e], |s| + 1) {
      var i :| 0 <= i < |s| && s[i].timeMs == t;
      assert (s + [e])[i].timeMs == t;
    }
  }

  lemma {:induction false} SortFacts<E>(s: seq<TimedEvent<E>>)
    ensures Sorted(SortByTime(s)) && |SortByTime(s)| == |s| && Times(SortByTime(s), |s|) == Times(s, |s|)
  {
    if s != [] {
      var last := |s| - 1;
      var sorted := SortByTime(s[..last]);
      SortFacts(s[..last]);
      TopOfSorted(sorted, s[last]);
      InsertTimes(sorted, s[last]);
      TimesAppend(s[..last], s[last]);
      assert s == s[..last] + [s[last]];
    }
  }

  lemma TopOfSorted<E>(s: seq<TimedEvent<E>>, e: TimedEvent<E>)
    requires Sorted(s)
    ensures Sorted(Insert(s, e))
  {
    if s != [] {
      SplitLast(s);
      InsertSorted(s, e, if s[|s| - 1].timeMs <= e.timeMs then e.timeMs else s[|s| - 1].timeMs);
    }
  }

  /** The events at one time, in order. */
  function AtTime<E>(s: seq<TimedEvent<E>>, timeMs: int): seq<TimedEvent<E>> {
    if s == [] then []
    else AtTime(s[..|s| - 1], timeMs) + (if s[|s| - 1].timeMs == timeMs then [s[|s| - 1]] else [])
  }

  lemma AtTimeAppend<E>(s: seq<TimedEvent<E>>, e: TimedEvent<E>, timeMs: int)
    ensures AtTime(s + [e], timeMs) == AtTime(s, timeMs) + if e.timeMs == timeMs then [e] else []
  {
    assert (s + [e])[..|s|] == s;
  }

  /** Of two events at different times at most one is at the time, so their order does not matter. */
  lemma AtTimeSwap<E>(s: seq<TimedEvent<E>>, a: TimedEvent<E>, b: TimedEvent<E>, timeMs: int)
    requires a.timeMs != b.timeMs
    ensures AtTime(s + [a] + [b], timeMs) == AtTime(s + [b], timeMs) + if a.timeMs == timeMs then [a] else []
  {
    AtTimeAppend(s + [a], b, timeMs);
    AtTimeAppend(s, a, timeMs);
    AtTimeAppend(s, b, timeMs);
  }

  lemma AppendSame<E>(s: seq<TimedEvent<E>>, r: seq<TimedEvent<E>>, e: TimedEvent<E>, timeMs: int)
    requires AtTime(s, timeMs) == AtTime(r, timeMs)
    ensures AtTime(s + [e], timeMs) == AtTime(r + [e], timeMs)
  {
    AtTimeAppend(s, e, timeMs);
    AtTimeAppend(r, e, timeMs);
  }

  lemma {:induction false} InsertAtTime<E>(s: seq<TimedEvent<E>>, e: TimedEvent<E>, timeMs: int)
    ensures AtTime(Insert(s, e), timeMs) == AtTime(s + [e], timeMs)
  {
    if s != [] && s[|s| - 1].timeMs > e.timeMs {
      var before, last := s[..|s| - 1], s[|s| - 1];
      InsertAtTime(before, e, timeMs);
      AppendSame(Insert(before, e), before + [e], last, timeMs);
      AtTimeSwap(before, e, last, timeMs);
      AtTimeAppend(s, e, timeMs);
      assert before + [last] == s;
    }
  }

  /** Sorting orders the events by time and keeps those of each time as they came, none added or lost. */
  lemma {:induction false} SortIsStable<E>(s: seq<TimedEvent<E>>, timeMs: int)
    ensures AtTime(SortByTime(s), timeMs) == AtTime(s, timeMs)
    ensures forall i, j :: 0 <= i < j < |SortByTime(s)| ==> SortByTime(s)[i].timeMs <= SortByTime(s)[j].timeMs
  {
    SortFacts(s);
    if s != [] {
      var before, last := s[..|s| - 1], s[|s| - 1];
      SortIsStable(before, timeMs);
      InsertAtTime(SortByTime(before), last, timeMs);
      AppendSame(SortByTime(before), before, last, timeMs);
      assert before + [last] == s;
    }
  }

  function CountedOnly<E>(s: seq<TimedEvent<E>>): seq<TimedEvent<E>> {
    if s == [] then []
    else CountedOnly(s[..|s| - 1]) + (if s[|s| - 1].counted then [s[|s| - 1]] else [])
  }

  lemma CountedOnlyAppend<E>(s: seq<TimedEvent<E>>, e: TimedEvent<E>)
    ensures CountedOnly(s + [e]) == CountedOnly(s) + if e.counted then [e] else []
  {
    assert (s + [e])[..|s|] == s;
  }

  lemma {:induction false} CountedOnlyBound<E>(s: seq<TimedEvent<E>>, timeMs: int)
    requires AtMost(s, timeMs)
    ensures AtMost(CountedOnly(s), timeMs)
  {
    if s != [] { CountedOnlyBound(s[..|s| - 1], timeMs); }
  }

  lemma InsertBeforeLast<E>(s: seq<TimedEvent<E>>, last: TimedEvent<E>, e: TimedEvent<E>)
    requires last.timeMs > e.timeMs
    ensures Insert(s + [last], e) == Insert(s, e) + [last]
  {
    assert (s + [last])[..|s|] == s;
  }

  /** Sorting keeps the counted events in the order sorting them alone gives. */
  lemma {:induction false} InsertCounted<E>(s: seq<TimedEvent<E>>, e: TimedEvent<E>)
    requires Sorted(s)
    ensures CountedOnly(Insert(s, e)) == if e.counted then Insert(CountedOnly(s), e) else CountedOnly(s)
  {
    if s == [] {
      CountedOnlyAppend(s, e);
    } else {
      var last := |s| - 1;
      SplitLast(s);
      if s[last].timeMs <= e.timeMs {
        CountedOnlyAppend(s, e);
        CountedOnlyBound(s, e.timeMs);
      } else {
        var before := CountedOnly(s[..last]);
        InsertCounted(s[..last], e);
        CountedOnlyAppend(Insert(s[..last], e), s[last]);
        InsertBeforeLast(before, s[last], e);
        assert CountedOnly(s) == if s[last].counted then before + [s[last]] else before;
      }
    }
  }

  lemma SortAppend<E>(s: seq<TimedEvent<E>>, e: TimedEvent<E>)
    ensures SortByTime(s + [e]) == Insert(SortByTime(s), e)
  {
    assert (s + [e])[..|s|] == s;
  }

  lemma {:induction false} SortCounted<E>(s: seq<TimedEvent<E>>)
    ensures CountedOnly(SortByTime(s)) == SortByTime(CountedOnly(s))
  {
    if s != [] {
      var last := |s| - 1;
      SortCounted(s[..last]);
      SortFacts(s[..last]);
      InsertCounted(SortByTime(s[..last]), s[last]);
      SortAppend(CountedOnly(s[..last]), s[last]);
      assert CountedOnly(s) == if s[last].counted then CountedOnly(s[..last]) + [s[last]] else CountedOnly(s[..last]);
    }
  }

  lemma {:induction false} WithinIsOfCounted<E>(s: seq<TimedEvent<E>>, n: nat, startMs: int)
    requires n <= |s|
    ensures Within(s, n, startMs) == Within(CountedOnly(s[..n]), |CountedOnly(s[..n])|, startMs)
  {
    if n > 0 {
      WithinIsOfCounted(s, n - 1, startMs);
      assert s[..n] == s[..n - 1] + [s[n - 1]];
      CountedOnlyAppend(s[..n - 1], s[n - 1]);
      WithinPrefix(CountedOnly(s[..n - 1]), CountedOnly(s[..n]), |CountedOnly(s[..n - 1])|, startMs);
    }
  }

  lemma {:induction false} WithinPrefix<E>(a: seq<TimedEvent<E>>, b: seq<TimedEvent<E>>, n: nat, startMs: int)
    requires n <= |a| && a <= b
    ensures Within(a, n, startMs) == Within(b, n, startMs)
  {
    if n > 0 { WithinPrefix(a, b, n - 1, startMs); }
  }

  function Flagged<E>(events: seq<(E, int)>, counted: bool): (r: seq<TimedEvent<E>>)
    ensures |r| == |events|
  {
    seq(|events|, i requires 0 <= i < |events| => TimedEvent(events[i].0, events[i].1, counted))
  }

  /** A source's events, counted, with its context events, which only place blocks, in time order. */
  function Stream<E>(events: seq<(E, int)>, context: seq<(E, int)>): seq<TimedEvent<E>> {
    SortByTime(Flagged(events, true) + Flagged(context, false))
  }

  ghost function EventTimes<E>(events: seq<(E, int)>): set<int> {
    set i | 0 <= i < |events| :: events[i].1
  }

  lemma FlaggedTimes<E>(events: seq<(E, int)>, context: seq<(E, int)>)
    ensures var all := Flagged(events, true) + Flagged(context, false);
      Times(all, |all|) == EventTimes(events) + EventTimes(context)
  {
    var all := Flagged(events, true) + Flagged(context, false);
    var times := Times(all, |all|);
    forall i | 0 <= i < |events| ensures events[i].1 in times { assert all[i].timeMs == events[i].1; }
    forall i | 0 <= i < |context| ensures context[i].1 in times { assert all[|events| + i].timeMs == context[i].1; }
  }

  lemma StreamTimes<E>(events: seq<(E, int)>, context: seq<(E, int)>)
    ensures var s := Stream(events, context);
      Sorted(s) && |s| == |events| + |context| && Times(s, |s|) == EventTimes(events) + EventTimes(context)
  {
    SortFacts(Flagged(events, true) + Flagged(context, false));
    FlaggedTimes(events, context);
  }

  lemma StreamCounted<E>(events: seq<(E, int)>, context: seq<(E, int)>)
    ensures CountedOnly(Stream(events, context)) == Stream(events, [])
  {
    SortCounted(Flagged(events, true) + Flagged(context, false));
    CountedOfFlagged(events, context, |context|);
    assert context[..|context|] == context;
    assert Flagged(events, true) + Flagged([], false) == Flagged(events, true);
  }

  lemma {:induction false} CountedOfFlagged<E>(events: seq<(E, int)>, context: seq<(E, int)>, n: nat)
    requires n <= |context|
    ensures CountedOnly(Flagged(events, true) + Flagged(context[..n], false)) == Flagged(events, true)
  {
    var all := Flagged(events, true) + Flagged(context[..n], false);
    if n > 0 {
      CountedOfFlagged(events, context, n - 1);
      assert all[..|all| - 1] == Flagged(events, true) + Flagged(context[..n - 1], false);
    } else {
      assert all == Flagged(events, true);
      AllCounted(Flagged(events, true));
    }
  }

  lemma {:induction false} AllCounted<E>(s: seq<TimedEvent<E>>)
    requires forall i :: 0 <= i < |s| ==> s[i].counted
    ensures CountedOnly(s) == s
  {
    if s != [] { AllCounted(s[..|s| - 1]); }
  }

  lemma SameTimesSamePlaces<E>(a: seq<TimedEvent<E>>, b: seq<TimedEvent<E>>, options: Options)
    requires a != [] && b != [] && Sorted(a) && Sorted(b) && Times(a, |a|) == Times(b, |b|)
    ensures WholePlaces(a, options) == WholePlaces(b, options)
  {
    assert a[0].timeMs in Times(a, |a|) && b[0].timeMs in Times(b, |b|);
    assert a[0].timeMs == b[0].timeMs;
    TimesFixPlacement(a, |a|, b, |b|, StartsUncertain(a, options));
  }

  lemma FillSame<E>(places: seq<Place>, a: seq<TimedEvent<E>>, b: seq<TimedEvent<E>>)
    requires CountedOnly(a) == b
    ensures Fill(places, a) == Fill(places, b)
  {
    assert a[..|a|] == a;
    forall k | 0 <= k < |places| ensures Within(a, |a|, places[k].startMs) == Within(b, |b|, places[k].startMs) {
      WithinIsOfCounted(a, |a|, places[k].startMs);
    }
  }

  /**
     Narrowed events with the whole stream as context: the whole stream's places, each filled with
     the narrowed events alone, those with none of them left out.
   */
  lemma NarrowingKeepsPlaces<E>(events: seq<(E, int)>, whole: seq<(E, int)>, options: Options)
    requires events != []
    requires forall i :: 0 <= i < |events| ==> events[i] in whole
    ensures Stream(events, whole) != [] && Stream(whole, []) != []
    ensures SourceBlocks(Stream(events, whole), options) ==
      Kept(Fill(WholePlaces(Stream(whole, []), options), Stream(events, [])), options.sinceMs)
  {
    var a, w := Stream(events, whole), Stream(whole, []);
    StreamTimes(events, whole);
    StreamTimes(whole, []);
    StreamCounted(events, whole);
    assert events[0] in whole;
    assert Times(a, |a|) == Times(w, |w|);
    SameTimesSamePlaces(a, w, options);
    FillSame(WholePlaces(w, options), a, Stream(events, []));
  }

  lemma {:induction false} KeptMembers<E>(blocks: seq<Block<E>>, sinceMs: Option<int>, b: Block<E>)
    ensures b in Kept(blocks, sinceMs) <==> b in blocks && IsKept(b, sinceMs)
  {
    if blocks != [] {
      var last := |blocks| - 1;
      KeptMembers(blocks[..last], sinceMs, b);
      assert blocks == blocks[..last] + [blocks[last]];
    }
  }

  lemma {:induction false} WithinSome<E>(s: seq<TimedEvent<E>>, n: nat, startMs: int)
    requires n <= |s| && forall i :: 0 <= i < |s| ==> s[i].counted
    ensures Within(s, n, startMs) != [] <==> exists t :: t in Times(s, n) && InBlock(t, startMs)
  {
    if n > 0 {
      WithinSome(s, n - 1, startMs);
      assert Times(s, n) == Times(s, n - 1) + {s[n - 1].timeMs};
    }
  }

  lemma {:induction false} CountedOnlyCounted<E>(s: seq<TimedEvent<E>>)
    ensures forall i :: 0 <= i < |CountedOnly(s)| ==> CountedOnly(s)[i].counted
  {
    if s != [] { CountedOnlyCounted(s[..|s| - 1]); }
  }

  /** Some event lies in the block starting at `startMs`. */
  ghost predicate HasEvent<E>(events: seq<(E, int)>, startMs: int) {
    exists t :: t in EventTimes(events) && InBlock(t, startMs)
  }

  lemma StreamHolds<E>(events: seq<(E, int)>, startMs: int)
    ensures var s := Stream(events, []);
      Within(s, |s|, startMs) != [] <==> HasEvent(events, startMs)
  {
    var s := Stream(events, []);
    StreamTimes(events, []);
    StreamCounted(events, []);
    CountedOnlyCounted(s);
    WithinSome(s, |s|, startMs);
    assert EventTimes(events) + EventTimes<E>([]) == EventTimes(events);
  }

  ghost predicate HasBlock<E>(blocks: seq<Block<E>>, place: Place) {
    exists b :: b in blocks && b.startMs == place.startMs && b.startUncertain == place.startUncertain
  }

  /** A place has a kept block exactly when it has not ended by `sinceMs` and events lie in it. */
  lemma PlaceHasBlockIff<E>(places: seq<Place>, events: seq<(E, int)>, sinceMs: Option<int>, place: Place)
    ensures HasBlock(Kept(Fill(places, Stream(events, [])), sinceMs), place) <==>
      && place in places && HasEvent(events, place.startMs)
      && (sinceMs.Some? ==> place.startMs + BLOCK_MS > sinceMs.value)
  {
    var s := Stream(events, []);
    var blocks := Fill(places, s);
    var block := Block(place.startMs, place.startUncertain, Within(s, |s|, place.startMs));
    StreamHolds(events, place.startMs);
    KeptMembers(blocks, sinceMs, block);
    if place in places {
      var p :| 0 <= p < |places| && places[p] == place;
      assert blocks[p] == block;
    }
    if HasBlock(Kept(blocks, sinceMs), place) {
      var b :| b in Kept(blocks, sinceMs) && b.startMs == place.startMs && b.startUncertain == place.startUncertain;
      KeptMembers(blocks, sinceMs, b);
      var p :| 0 <= p < |blocks| && blocks[p] == b;
      assert places[p] == place;
    }
  }

  /** Narrowed blocks are exactly the whole stream's blocks, with their certainty, that a narrowed event lies in. */
  lemma NarrowedBlocksAreWholeBlocks<E>(events: seq<(E, int)>, whole: seq<(E, int)>, options: Options, place: Place)
    requires events != []
    requires forall i :: 0 <= i < |events| ==> events[i] in whole
    ensures Stream(events, whole) != [] && Stream(whole, []) != []
    ensures HasBlock(SourceBlocks(Stream(events, whole), options), place) <==>
      HasBlock(SourceBlocks(Stream(whole, []), options), place) && HasEvent(events, place.startMs)
  {
    NarrowingKeepsPlaces(events, whole, options);
    var places := WholePlaces(Stream(whole, []), options);
    PlaceHasBlockIff(places, events, options.sinceMs, place);
    PlaceHasBlockIff(places, whole, options.sinceMs, place);
    assert EventTimes(events) <= EventTimes(whole);
  }

  /** Events passed as their own context change nothing. */
  lemma OwnContextChangesNothing<E>(events: seq<(E, int)>, options: Options)
    requires events != []
    ensures Stream(events, events) != [] && Stream(events, []) != []
    ensures SourceBlocks(Stream(events, events), options) == SourceBlocks(Stream(events, []), options)
  {
    NarrowingKeepsPlaces(events, events, options);
  }

  // ----- one stream per source

  /** The source's own events among the first `n`, in order. */
  function OfSource<E, S(==)>(events: seq<(E, int)>, n: nat, sourceOf: E -> S, source: S): seq<(E, int)>
    requires n <= |events|
  {
    if n == 0 then []
    else OfSource(events, n - 1, sourceOf, source) + (if sourceOf(events[n - 1].0) == source then [events[n - 1]] else [])
  }

  lemma FlaggedAppend<E>(events: seq<(E, int)>, e: (E, int), counted: bool)
    ensures Flagged(events + [e], counted) == Flagged(events, counted) + [TimedEvent(e.0, e.1, counted)]
  {
  }

  lemma {:induction false} OfSourceNone<E, S>(events: seq<(E, int)>, n: nat, sourceOf: E -> S, source: S)
    requires n <= |events| && forall i :: 0 <= i < n ==> sourceOf(events[i].0) != source
    ensures OfSource(events, n, sourceOf, source) == []
  {
    if n > 0 { OfSourceNone(events, n - 1, sourceOf, source); }
  }

  ghost function SourcesOf<E, S>(events: seq<(E, int)>, n: nat, sourceOf: E -> S): set<S>
    requires n <= |events|
  {
    set i | 0 <= i < n :: sourceOf(events[i].0)
  }

  /** A source's counted events among the first `n`, then its context events among the first `m`. */
  ghost function Lane<E, S>(events: seq<(E, int)>, n: nat, context: seq<(E, int)>, m: nat, sourceOf: E -> S, source: S): seq<TimedEvent<E>>
    requires n <= |events| && m <= |context|
  {
    Flagged(OfSource(events, n, sourceOf, source), true) + Flagged(OfSource(context, m, sourceOf, source), false)
  }

  ghost predicate Lanes<E, S>(streams: map<S, seq<TimedEvent<E>>>, events: seq<(E, int)>, n: nat, context: seq<(E, int)>, m: nat, sourceOf: E -> S)
    requires n <= |events| && m <= |context|
  {
    && streams.Keys == SourcesOf(events, n, sourceOf)
    && forall source :: source in streams ==> streams[source] == Lane(events, n, context, m, sourceOf, source)
  }

  lemma LaneOfCounted<E, S>(events: seq<(E, int)>, n: nat, context: seq<(E, int)>, sourceOf: E -> S, source: S)
    requires n < |events|
    ensures Lane(events, n + 1, context, 0, sourceOf, source) == Lane(events, n, context, 0, sourceOf, source) +
      if sourceOf(events[n].0) == source then [TimedEvent(events[n].0, events[n].1, true)] else []
    ensures source !in SourcesOf(events, n, sourceOf) ==> Lane(events, n, context, 0, sourceOf, source) == []
  {
    var own := OfSource(events, n, sourceOf, source);
    FlaggedAppend(own, events[n], true);
    if source !in SourcesOf(events, n, sourceOf) { OfSourceNone(events, n, sourceOf, source); }
  }

  lemma LaneOfContext<E, S>(events: seq<(E, int)>, context: seq<(E, int)>, m: nat, sourceOf: E -> S, source: S)
    requires m < |context|
    ensures Lane(events, |events|, context, m + 1, sourceOf, source) == Lane(events, |events|, context, m, sourceOf, source) +
      if sourceOf(context[m].0) == source then [TimedEvent(context[m].0, context[m].1, false)] else []
  {
    FlaggedAppend(OfSource(context, m, sourceOf, source), context[m], false);
  }

  /** An event joins its source's stream; only a counted event starts one. */
  function Added<E, S(==)>(bySource: map<S, seq<TimedEvent<E>>>, source: S, timed: TimedEvent<E>): map<S, seq<TimedEvent<E>>> {
    if source in bySource then bySource[source := bySource[source] + [timed]]
    else if timed.counted then bySource[source := [timed]]
    else bySource
  }

  lemma CountedStep<E, S>(streams: map<S, seq<TimedEvent<E>>>, events: seq<(E, int)>, n: nat, context: seq<(E, int)>, sourceOf: E -> S)
    requires n < |events| && Lanes(streams, events, n, context, 0, sourceOf)
    ensures Lanes(Added(streams, sourceOf(events[n].0), TimedEvent(events[n].0, events[n].1, true)), events, n + 1, context, 0, sourceOf)
  {
    var next := Added(streams, sourceOf(events[n].0), TimedEvent(events[n].0, events[n].1, true));
    assert SourcesOf(events, n + 1, sourceOf) == SourcesOf(events, n, sourceOf) + {sourceOf(events[n].0)};
    forall source | source in next ensures next[source] == Lane(events, n + 1, context, 0, sourceOf, source) {
      LaneOfCounted(events, n, context, sourceOf, source);
    }
  }

  lemma ContextStep<E, S>(streams: map<S, seq<TimedEvent<E>>>, events: seq<(E, int)>, context: seq<(E, int)>, m: nat, sourceOf: E -> S)
    requires m < |context| && Lanes(streams, events, |events|, context, m, sourceOf)
    ensures Lanes(Added(streams, sourceOf(context[m].0), TimedEvent(context[m].0, context[m].1, false)), events, |events|, context, m + 1, sourceOf)
  {
    var next := Added(streams, sourceOf(context[m].0), TimedEvent(context[m].0, context[m].1, false));
    forall source | source in next ensures next[source] == Lane(events, |events|, context, m + 1, sourceOf, source) {
      LaneOfContext(events, context, m, sourceOf, source);
    }
  }

  /** Only the sources of counted events get a stream, which holds their counted and context events in time order. */
  method ToTimedEvents<E, S(==)>(events: seq<(E, int)>, context: seq<(E, int)>, sourceOf: E -> S)
    returns (bySource: map<S, seq<TimedEvent<E>>>)
    ensures bySource.Keys == SourcesOf(events, |events|, sourceOf)
    ensures forall source :: source in bySource ==>
                               bySource[source] == Stream(OfSource(events, |events|, sourceOf, source), OfSource(context, |context|, sourceOf, source))
  {
    var added := AddCounted(events, context, sourceOf);
    added := AddContext(added, events, context, sourceOf);
    bySource := map source | source in added :: SortByTime(added[source]);
  }

  method AddCounted<E, S(==)>(events: seq<(E, int)>, ghost context: seq<(E, int)>, sourceOf: E -> S) returns (added: map<S, seq<TimedEvent<E>>>)
    ensures Lanes(added, events, |events|, context, 0, sourceOf)
  {
    added := map[];
    for k := 0 to |events|
      invariant Lanes(added, events, k, context, 0, sourceOf)
    {
      CountedStep(added, events, k, context, sourceOf);
      added := Added(added, sourceOf(events[k].0), TimedEvent(events[k].0, events[k].1, true));
    }
  }

  method AddContext<E, S(==)>(counted: map<S, seq<TimedEvent<E>>>, ghost events: seq<(E, int)>, context: seq<(E, int)>, sourceOf: E -> S)
    returns (added: map<S, seq<TimedEvent<E>>>)
    requires Lanes(counted, events, |events|, context, 0, sourceOf)
    ensures Lanes(added, events, |events|, context, |context|, sourceOf)
  {
    added := counted;
    for k := 0 to |context|
      invariant Lanes(added, events, |events|, context, k, sourceOf)
    {
      ContextStep(added, events, context, k, sourceOf);
      added := Added(added, sourceOf(context[k].0), TimedEvent(context[k].0, context[k].1, false));
    }
  }
}
