/**
 The lock of overlapping statusline ticks (src/cli/run-statusline.ts), as a state machine over file
 system steps. Every step of one tick is atomic, and the steps of all ticks interleave freely.
 */
module StatuslineLock {
  import opened Common

  /** The lock found at the start, or the one a tick created; a tick creates at most one. */
  datatype LockFile = Old | Own(tick: nat)

  datatype Content = Empty | OldText | Token(tick: nat)

  datatype Mtime = OldTime | TimeOf(tick: nat, written: bool)

  datatype LockState = LockState(content: Content, mtime: Mtime)

  /** Where a tick is in `acquireStatuslineLock`, `reclaimStaleLock` or its release. */
  datatype Tick =
    | Trying
    | Created
    | Holding
    | Looking(content: Option<Content>, mtime: Option<Mtime>)
    | Reclaiming(expected: LockState)
    | Claimed(file: LockFile, expected: LockState, content: Option<Content>, mtime: Option<Mtime>)
    | Deleting(file: LockFile)
    | PuttingBack(file: LockFile)
    | Releasing
    | Removing
    | Done

  /** `path` is what the lock path names; `written` holds the ticks whose token is in their file. */
  datatype State = State(ticks: seq<Tick>, path: Option<LockFile>, written: set<nat>, oldContent: Content)

  datatype Event =
    | Create(tick: nat)
    | WriteToken(tick: nat)
    | ReadContent(tick: nat)
    | ReadMtime(tick: nat)
    | Judge(tick: nat, stale: bool)
    | GiveUp(tick: nat)
    | Rename(tick: nat)
    | Compare(tick: nat)
    | Delete(tick: nat)
    | PutBack(tick: nat)
    | BeginRelease(tick: nat)
    | ReadToken(tick: nat)
    | Remove(tick: nat)
    | Exit(tick: nat)

  function ContentOf(s: State, file: LockFile): Content {
    match file
    case Old => s.oldContent
    case Own(t) => if t in s.written then Token(t) else Empty
  }

  function MtimeOf(s: State, file: LockFile): Mtime {
    match file
    case Old => OldTime
    case Own(t) => TimeOf(t, t in s.written)
  }

  /** The tick has created its lock and has not removed it. */
  predicate Active(t: Tick) {
    t.Created? || t.Holding? || t.Releasing? || t.Removing?
  }

  /** What was read can be read from the lock of a tick that still has it. */
  predicate IsLive(s: State, read: LockState) {
    read.mtime.TimeOf? && read.mtime.tick < |s.ticks| && Active(s.ticks[read.mtime.tick])
    && (read.content == Empty || read.content == Token(read.mtime.tick))
  }

  function Set(s: State, t: nat, tick: Tick): State
    requires t < |s.ticks|
  {
    s.(ticks := s.ticks[t := tick])
  }

  /** The next state, or the same one when the tick is not at that step. */
  function Step(s: State, e: Event): State {
    if e.tick >= |s.ticks| then s
    else
      var t, tick := e.tick, s.ticks[e.tick];
      match e
      case Create(_) =>
        if !tick.Trying? then s
        else if s.path.None? then Set(s, t, Created).(path := Some(Own(t)))
        else Set(s, t, Looking(None, None))
      case WriteToken(_) => if tick.Created? then Set(s, t, Holding).(written := s.written + {t}) else s
      case ReadContent(_) =>
        (match tick
         case Looking(_, mtime) =>
           if s.path.None? then Set(s, t, Trying) else Set(s, t, Looking(Some(ContentOf(s, s.path.value)), mtime))
         case Claimed(file, expected, _, mtime) => Set(s, t, Claimed(file, expected, Some(ContentOf(s, file)), mtime))
         case _ => s)
      case ReadMtime(_) =>
        (match tick
         case Looking(content, _) =>
           if s.path.None? then Set(s, t, Trying) else Set(s, t, Looking(content, Some(MtimeOf(s, s.path.value))))
         case Claimed(file, expected, content, _) => Set(s, t, Claimed(file, expected, content, Some(MtimeOf(s, file))))
         case _ => s)
      case Judge(_, stale) =>
        if !tick.Looking? || tick.content.None? || tick.mtime.None? then s
        else
          var read := LockState(tick.content.value, tick.mtime.value);
          // A lock whose tick still runs is less than the stale age old and names a running process.
          if stale && IsLive(s, read) then s else Set(s, t, if stale then Reclaiming(read) else Trying)
      case GiveUp(_) => if tick.Trying? then Set(s, t, Done) else s
      case Rename(_) =>
        if !tick.Reclaiming? then s
        else if s.path.None? then Set(s, t, Trying)
        else Set(s, t, Claimed(s.path.value, tick.expected, None, None)).(path := None)
      case Compare(_) =>
        if !tick.Claimed? || tick.content.None? || tick.mtime.None? then s
        else if LockState(tick.content.value, tick.mtime.value) == tick.expected then Set(s, t, Deleting(tick.file))
        else Set(s, t, PuttingBack(tick.file))
      case Delete(_) => if tick.Deleting? then Set(s, t, Trying) else s
      case PutBack(_) => if tick.PuttingBack? then Set(s, t, Trying).(path := Some(tick.file)) else s
      case BeginRelease(_) => if tick.Holding? then Set(s, t, Releasing) else s
      case ReadToken(_) =>
        if !tick.Releasing? then s
        else if s.path.Some? && ContentOf(s, s.path.value) == Token(t) then Set(s, t, Removing)
        else Set(s, t, Done)
      case Remove(_) => if tick.Removing? then Set(s, t, Done).(path := None) else s
      case Exit(_) => Set(s, t, Done)
  }

  function Run(s: State, events: seq<Event>): State {
    if events == [] then s else Step(Run(s, events[..|events| - 1]), events[|events| - 1])
  }

  ghost predicate Start(s: State, count: nat) {
    && |s.ticks| == count && (forall t :: 0 <= t < count ==> s.ticks[t] == Trying)
    && s.path in {None, Some(Old)} && s.written == {} && s.oldContent in {Empty, OldText}
  }

  ghost predicate MutuallyExclusive(s: State) {
    forall t, u :: 0 <= t < u < |s.ticks| ==> !(Active(s.ticks[t]) && Active(s.ticks[u]))
  }

  /** The step removes the lock another tick still has, from the path or from where it was claimed. */
  predicate RemovesLiveLock(s: State, e: Event) {
    && e.tick < |s.ticks|
    && var tick := s.ticks[e.tick];
       || (e.Remove? && tick.Removing? && LiveOther(s, e.tick, s.path))
       || (e.PutBack? && tick.PuttingBack? && LiveOther(s, e.tick, s.path))
       || (e.Delete? && tick.Deleting? && LiveOther(s, e.tick, Some(tick.file)))
  }

  predicate LiveOther(s: State, t: nat, file: Option<LockFile>) {
    file.Some? && file.value.Own? && file.value.tick != t && file.value.tick < |s.ticks| && Active(s.ticks[file.value.tick])
  }

  // ----- any number of ticks, while no lock is judged stale

  ghost predicate NoneReclaims(s: State) {
    forall t :: 0 <= t < |s.ticks| ==>
                  var tick := s.ticks[t];
                  && (tick.Trying? || tick.Looking? || tick.Done? || Active(tick))
                  && (Active(tick) ==> s.path == Some(Own(t)))
  }

  lemma StepWithoutStale(s: State, e: Event)
    requires NoneReclaims(s) && !(e.Judge? && e.stale)
    ensures NoneReclaims(Step(s, e)) && !RemovesLiveLock(s, e) && |Step(s, e).ticks| == |s.ticks|
  {
  }

  /** With no lock judged stale, at most one of any number of ticks has the lock, and none removes another's. */
  lemma {:induction false} ExclusiveWithoutStaleLocks(s: State, count: nat, events: seq<Event>)
    requires Start(s, count) && forall i :: 0 <= i < |events| ==> !(events[i].Judge? && events[i].stale)
    ensures NoneReclaims(Run(s, events)) && MutuallyExclusive(Run(s, events))
    ensures forall e: Event :: !(e.Judge? && e.stale) ==> !RemovesLiveLock(Run(s, events), e)
  {
    if events != [] {
      ExclusiveWithoutStaleLocks(s, count, events[..|events| - 1]);
      StepWithoutStale(Run(s, events[..|events| - 1]), events[|events| - 1]);
    }
    forall e: Event | !(e.Judge? && e.stale) ensures !RemovesLiveLock(Run(s, events), e) { StepWithoutStale(Run(s, events), e); }
  }

  // ----- two ticks, whatever is judged stale

  function OldLock(s: State): LockState {
    LockState(s.oldContent, OldTime)
  }

  /** Both parts were read from the old lock. */
  predicate ReadsOld(s: State, content: Option<Content>, mtime: Option<Mtime>) {
    (content.Some? ==> content.value == s.oldContent) && (mtime.Some? ==> mtime.value == OldTime)
  }

  /** While the old lock is at the path, nobody has created one, and every reading is of the old lock. */
  predicate UntouchedBy(s: State, tick: Tick) {
    match tick
    case Trying => true
    case Done => true
    case Looking(content, mtime) => ReadsOld(s, content, mtime)
    case Reclaiming(expected) => expected == OldLock(s)
    case _ => false
  }

  /** The tick has moved another file away, and has not removed it. */
  predicate Has(tick: Tick, file: LockFile) {
    (tick.Claimed? && tick.file == file) || (tick.PuttingBack? && tick.file == file)
  }

  function TickOfContent(content: Option<Content>): set<nat> {
    if content.Some? && content.value.Token? then {content.value.tick} else {}
  }

  function TickOfMtime(mtime: Option<Mtime>): set<nat> {
    if mtime.Some? && mtime.value.TimeOf? then {mtime.value.tick} else {}
  }

  function TickOfFile(file: LockFile): set<nat> {
    if file.Own? then {file.tick} else {}
  }

  function TickOfState(state: LockState): set<nat> {
    TickOfContent(Some(state.content)) + TickOfMtime(Some(state.mtime))
  }

  /** The ticks whose lock this tick has read or moved. */
  function Mentioned(tick: Tick): set<nat> {
    match tick
    case Looking(content, mtime) => TickOfContent(content) + TickOfMtime(mtime)
    case Reclaiming(expected) => TickOfState(expected)
    case Claimed(file, expected, content, mtime) => TickOfFile(file) + TickOfState(expected) + TickOfContent(content) + TickOfMtime(mtime)
    case Deleting(file) => TickOfFile(file)
    case PuttingBack(file) => TickOfFile(file)
    case _ => {}
  }

  /** A tick creates its lock last: after that it only writes, holds and releases it. */
  predicate HasCreated(tick: Tick) {
    Active(tick) || tick.Done?
  }

  /** The parts read of a claimed file are that file's. */
  predicate ReadsFile(s: State, file: LockFile, content: Option<Content>, mtime: Option<Mtime>) {
    match file
    case Old => ReadsOld(s, content, mtime)
    case Own(u) =>
      && (content.Some? ==> content.value == Empty || content.value == Token(u))
      && (mtime.Some? ==> mtime.value.TimeOf? && mtime.value.tick == u)
  }

  /** What a tick that reclaims a lock knows: a lock still in use never matches what it expects. */
  predicate ClaimIsSound(s: State, tick: Tick, other: Tick) {
    match tick
    case Reclaiming(expected) => !IsLive(s, expected)
    case Claimed(file, expected, content, mtime) =>
      !IsLive(s, expected) && ReadsFile(s, file, content, mtime) && (file.Old? ==> expected == OldLock(s))
    case PuttingBack(file) => file.Own?
    case Deleting(file) => file.Own? ==> !Active(other)
    case _ => true
  }

  /** A lock in use is at the path, or the other tick has it and will put it back, or that tick has exited. */
  predicate IsKept(s: State, t: nat, other: Tick) {
    || s.path == Some(Own(t))
    || (s.path.None? && Has(other, Own(t)))
    || other.Done?
  }

  predicate PairInv(s: State, t: nat, other: nat)
    requires t < |s.ticks| && other < |s.ticks|
  {
    var tick, peer := s.ticks[t], s.ticks[other];
    && ClaimIsSound(s, tick, peer)
    && Mentioned(tick) <= (if HasCreated(peer) then {other} else {})
    && (s.path == Some(Own(t)) ==> HasCreated(tick))
    && (s.path == Some(Own(t)) ==> !Has(peer, Own(t)))
    && (s.path == Some(Old) ==> UntouchedBy(s, tick))
    && (Active(tick) ==> IsKept(s, t, peer) && !Active(peer))
  }

  /** The invariant of two ticks, one of which takes the next step. */
  predicate TwoInv(s: State, t: nat, other: nat) {
    && |s.ticks| == 2 && t < 2 && other < 2 && t != other
    && PairInv(s, t, other) && PairInv(s, other, t)
    && (s.path.Some? && s.path.value.Own? ==> s.path.value.tick < 2) && !s.oldContent.Token?
  }

  lemma CreateKeeps(s: State, e: Event, other: nat)
    requires e.Create? && TwoInv(s, e.tick, other)
    ensures TwoInv(Step(s, e), e.tick, other) && !RemovesLiveLock(s, e)
  {
  }

  lemma WriteTokenKeeps(s: State, e: Event, other: nat)
    requires e.WriteToken? && TwoInv(s, e.tick, other)
    ensures TwoInv(Step(s, e), e.tick, other) && !RemovesLiveLock(s, e)
  {
  }

  lemma ReadContentKeeps(s: State, e: Event, other: nat)
    requires e.ReadContent? && TwoInv(s, e.tick, other)
    ensures TwoInv(Step(s, e), e.tick, other) && !RemovesLiveLock(s, e)
  {
    if s.ticks[e.tick].Looking? { ReadContentLookingKeeps(s, e, other); }
  }

  lemma ReadContentLookingKeeps(s: State, e: Event, other: nat)
    requires e.ReadContent? && TwoInv(s, e.tick, other) && s.ticks[e.tick].Looking?
    ensures TwoInv(Step(s, e), e.tick, other) && !RemovesLiveLock(s, e)
  {
  }

  lemma ReadMtimeKeeps(s: State, e: Event, other: nat)
    requires e.ReadMtime? && TwoInv(s, e.tick, other)
    ensures TwoInv(Step(s, e), e.tick, other) && !RemovesLiveLock(s, e)
  {
    if s.ticks[e.tick].Looking? { ReadMtimeLookingKeeps(s, e, other); }
  }

  lemma ReadMtimeLookingKeeps(s: State, e: Event, other: nat)
    requires e.ReadMtime? && TwoInv(s, e.tick, other) && s.ticks[e.tick].Looking?
    ensures TwoInv(Step(s, e), e.tick, other) && !RemovesLiveLock(s, e)
  {
  }

  lemma JudgeKeeps(s: State, e: Event, other: nat)
    requires e.Judge? && TwoInv(s, e.tick, other)
    ensures TwoInv(Step(s, e), e.tick, other) && !RemovesLiveLock(s, e)
  {
  }

  lemma GiveUpKeeps(s: State, e: Event, other: nat)
    requires e.GiveUp? && TwoInv(s, e.tick, other)
    ensures TwoInv(Step(s, e), e.tick, other) && !RemovesLiveLock(s, e)
  {
  }

  lemma RenameKeeps(s: State, e: Event, other: nat)
    requires e.Rename? && TwoInv(s, e.tick, other)
    ensures TwoInv(Step(s, e), e.tick, other) && !RemovesLiveLock(s, e)
  {
    if s.ticks[e.tick].Reclaiming? && s.path.Some? { RenameOfLockKeeps(s, e, other); }
  }

  lemma RenameOfLockKeeps(s: State, e: Event, other: nat)
    requires e.Rename? && TwoInv(s, e.tick, other) && s.ticks[e.tick].Reclaiming? && s.path.Some?
    ensures TwoInv(Step(s, e), e.tick, other) && !RemovesLiveLock(s, e)
  {
  }

  lemma CompareKeeps(s: State, e: Event, other: nat)
    requires e.Compare? && TwoInv(s, e.tick, other)
    ensures TwoInv(Step(s, e), e.tick, other) && !RemovesLiveLock(s, e)
  {
  }

  lemma DeleteKeeps(s: State, e: Event, other: nat)
    requires e.Delete? && TwoInv(s, e.tick, other)
    ensures TwoInv(Step(s, e), e.tick, other) && !RemovesLiveLock(s, e)
  {
  }

  lemma PutBackKeeps(s: State, e: Event, other: nat)
    requires e.PutBack? && TwoInv(s, e.tick, other)
    ensures TwoInv(Step(s, e), e.tick, other) && !RemovesLiveLock(s, e)
  {
  }

  lemma BeginReleaseKeeps(s: State, e: Event, other: nat)
    requires e.BeginRelease? && TwoInv(s, e.tick, other)
    ensures TwoInv(Step(s, e), e.tick, other) && !RemovesLiveLock(s, e)
  {
  }

  lemma ReadTokenKeeps(s: State, e: Event, other: nat)
    requires e.ReadToken? && TwoInv(s, e.tick, other)
    ensures TwoInv(Step(s, e), e.tick, other) && !RemovesLiveLock(s, e)
  {
  }

  lemma RemoveKeeps(s: State, e: Event, other: nat)
    requires e.Remove? && TwoInv(s, e.tick, other)
    ensures TwoInv(Step(s, e), e.tick, other) && !RemovesLiveLock(s, e)
  {
  }

  lemma ExitKeeps(s: State, e: Event, other: nat)
    requires e.Exit? && TwoInv(s, e.tick, other)
    ensures TwoInv(Step(s, e), e.tick, other) && !RemovesLiveLock(s, e)
  {
  }

  lemma StepOfTwo(s: State, e: Event, other: nat)
    requires TwoInv(s, e.tick, other)
    ensures TwoInv(Step(s, e), e.tick, other) && !RemovesLiveLock(s, e)
  {
    match e {
      case Create(_) => CreateKeeps(s, e, other);
      case WriteToken(_) => WriteTokenKeeps(s, e, other);
      case ReadContent(_) => ReadContentKeeps(s, e, other);
      case ReadMtime(_) => ReadMtimeKeeps(s, e, other);
      case Judge(_, _) => JudgeKeeps(s, e, other);
      case GiveUp(_) => GiveUpKeeps(s, e, other);
      case Rename(_) => RenameKeeps(s, e, other);
      case Compare(_) => CompareKeeps(s, e, other);
      case Delete(_) => DeleteKeeps(s, e, other);
      case PutBack(_) => PutBackKeeps(s, e, other);
      case BeginRelease(_) => BeginReleaseKeeps(s, e, other);
      case ReadToken(_) => ReadTokenKeeps(s, e, other);
      case Remove(_) => RemoveKeeps(s, e, other);
      case Exit(_) => ExitKeeps(s, e, other);
    }
  }

  lemma StepKeepsTwo(s: State, e: Event)
    requires TwoInv(s, 0, 1)
    ensures TwoInv(Step(s, e), 0, 1) && !RemovesLiveLock(s, e)
  {
    if e.tick < 2 { StepOfTwo(s, e, 1 - e.tick); }
  }

  /**
     Two ticks that start from any stale lock never both have the lock, and neither removes the
     other's, whatever each reads while the other moves, writes, puts back or exits.
   */
  lemma {:induction false} ExclusiveForTwo(s: State, events: seq<Event>)
    requires Start(s, 2)
    ensures TwoInv(Run(s, events), 0, 1) && MutuallyExclusive(Run(s, events))
    ensures forall e :: !RemovesLiveLock(Run(s, events), e)
  {
    if events != [] {
      ExclusiveForTwo(s, events[..|events| - 1]);
      StepKeepsTwo(Run(s, events[..|events| - 1]), events[|events| - 1]);
    }
    forall e ensures !RemovesLiveLock(Run(s, events), e) { StepKeepsTwo(Run(s, events), e); }
  }

  // ----- releasing

  /** Releasing, undisturbed: the tick begins, reads the lock at the path, and removes it if it read its own token. */
  function Released(s: State, t: nat): State {
    Step(Step(Step(s, BeginRelease(t)), ReadToken(t)), Remove(t))
  }

  /** A tick that releases frees the path exactly when the lock there is its own, and leaves any other as it is. */
  lemma ReleaseFreesOwnLockOnly(s: State, t: nat)
    requires t < |s.ticks| && s.ticks[t] == Holding && t in s.written && s.oldContent != Token(t)
    ensures var after := Released(s, t);
      && after.ticks == s.ticks[t := Done]
      && after.path == if s.path == Some(Own(t)) then None else s.path
  {
    var reading := Step(s, BeginRelease(t));
    assert reading == Set(s, t, Releasing);
    var read := Step(reading, ReadToken(t));
    if s.path == Some(Own(t)) {
      assert read == Set(s, t, Removing);
    } else {
      assert read == Set(s, t, Done);
    }
  }

  /** A lock whose tick is gone is taken over by a single tick that judges it stale: it ends up with the lock. */
  lemma StaleLockIsTakenOver(s: State, t: nat) returns (events: seq<Event>)
    requires t < |s.ticks| && s.ticks[t] == Trying && s.path == Some(Old)
    ensures Run(s, events).ticks == s.ticks[t := Holding] && Run(s, events).path == Some(Own(t))
  {
    events := JudgeOld(s, [], t);
    events := RemoveOld(s, events, t);
    events := TakeFreePath(s, events, t);
  }

  /** Reclaiming, undisturbed: the tick moves the lock away, reads it, and deletes it or puts it back. */
  function Reclaimed(s: State, t: nat): State {
    var claimed := Step(Step(Step(s, Rename(t)), ReadContent(t)), ReadMtime(t));
    Step(Step(Step(claimed, Compare(t)), Delete(t)), PutBack(t))
  }

  /** A tick that reclaims frees the path exactly when the lock there is the one it judged stale, and leaves any other there. */
  lemma ReclaimFreesJudgedLockOnly(s: State, t: nat)
    requires t < |s.ticks| && s.ticks[t].Reclaiming?
    ensures var after := Reclaimed(s, t);
      && after.ticks == s.ticks[t := Trying]
      && after.path ==
         if s.path.Some? && LockState(ContentOf(s, s.path.value), MtimeOf(s, s.path.value)) == s.ticks[t].expected then None else s.path
  {
    if s.path.Some? {
      var expected, lock := s.ticks[t].expected, s.path.value;
      var read := LockState(ContentOf(s, lock), MtimeOf(s, lock));
      var free := s.(path := None);
      var claimed := Step(Step(Step(s, Rename(t)), ReadContent(t)), ReadMtime(t));
      assert Step(s, Rename(t)) == Set(free, t, Claimed(lock, expected, None, None));
      assert claimed == Set(free, t, Claimed(lock, expected, Some(read.content), Some(read.mtime)));
      assert Step(claimed, Compare(t)) == Set(free, t, if read == expected then Deleting(lock) else PuttingBack(lock));
    } else {
      assert Step(s, Rename(t)) == Set(s, t, Trying);
    }
  }

  // ----- three ticks and more

  lemma Then(s: State, events: seq<Event>, e: Event, after: State) returns (more: seq<Event>)
    requires Step(Run(s, events), e) == after
    ensures more == events + [e] && Run(s, more) == after
  {
    more := events + [e];
    assert more[..|more| - 1] == events;
  }

  /** Tick `t` finds the old lock and judges it stale. */
  lemma JudgeOld(s: State, events: seq<Event>, t: nat) returns (more: seq<Event>)
    requires var now := Run(s, events);
      t < |now.ticks| && now.ticks[t] == Trying && now.path == Some(Old)
    ensures Run(s, more) == Set(Run(s, events), t, Reclaiming(OldLock(Run(s, events))))
  {
    var now := Run(s, events);
    more := Then(s, events, Create(t), Set(now, t, Looking(None, None)));
    more := Then(s, more, ReadContent(t), Set(now, t, Looking(Some(now.oldContent), None)));
    more := Then(s, more, ReadMtime(t), Set(now, t, Looking(Some(now.oldContent), Some(OldTime))));
    more := Then(s, more, Judge(t, true), Set(now, t, Reclaiming(OldLock(now))));
  }

  /** Tick `t` moves the old lock away, finds it is the one it judged, and removes it. */
  lemma RemoveOld(s: State, before: seq<Event>, t: nat) returns (events: seq<Event>)
    requires var now := Run(s, before);
      && t < |now.ticks| && now.ticks[t] == Reclaiming(OldLock(now))
      && now.path == Some(Old)
    ensures Run(s, events) == Set(Run(s, before), t, Trying).(path := None)
  {
    var now := Run(s, before).(path := None);
    events := Then(s, before, Rename(t), Set(now, t, Claimed(Old, OldLock(now), None, None)));
    events := ReadClaimed(s, events, now, t);
    events := Then(s, events, Compare(t), Set(now, t, Deleting(Old)));
    events := Then(s, events, Delete(t), Set(now, t, Trying));
  }

  /** Tick `t` reads the lock it has moved away. */
  lemma ReadClaimed(s: State, before: seq<Event>, now: State, t: nat) returns (events: seq<Event>)
    requires t < |now.ticks| && Run(s, before) == Set(now, t, Claimed(Old, OldLock(now), None, None))
    ensures Run(s, events) == Set(now, t, Claimed(Old, OldLock(now), Some(now.oldContent), Some(OldTime)))
  {
    events := Then(s, before, ReadContent(t), Set(now, t, Claimed(Old, OldLock(now), Some(now.oldContent), None)));
    events := Then(s, events, ReadMtime(t), Set(now, t, Claimed(Old, OldLock(now), Some(now.oldContent), Some(OldTime))));
  }

  /** Tick `t` finds the path free and takes the lock. */
  lemma TakeFreePath(s: State, before: seq<Event>, t: nat) returns (events: seq<Event>)
    requires var now := Run(s, before); t < |now.ticks| && now.ticks[t] == Trying && now.path.None?
    ensures var now := Run(s, before);
      Run(s, events) == Set(now, t, Holding).(path := Some(Own(t)), written := now.written + {t})
  {
    var now := Run(s, before).(path := Some(Own(t)));
    events := Then(s, before, Create(t), Set(now, t, Created));
    events := Then(s, events, WriteToken(t), Set(now, t, Holding).(written := now.written + {t}));
  }

  /** Two ticks find the old lock and judge it stale. */
  lemma BothJudgeOld(s: State) returns (events: seq<Event>)
    requires |s.ticks| >= 3 && Start(s, |s.ticks|) && s.path == Some(Old)
    ensures Run(s, events) == s.(ticks := s.ticks[0 := Reclaiming(OldLock(s))][1 := Reclaiming(OldLock(s))])
  {
    events := JudgeOld(s, [], 0);
    events := JudgeOld(s, events, 1);
  }

  /** The first of them takes the old lock's place. */
  lemma FirstTakesOver(s: State, before: seq<Event>) returns (events: seq<Event>)
    requires var now := Run(s, before);
      |now.ticks| >= 3 && now.ticks[0] == Reclaiming(OldLock(now)) && now.path == Some(Old)
    ensures Run(s, events).path == Some(Own(0)) && Run(s, events).ticks == Run(s, before).ticks[0 := Holding]
    ensures Run(s, events).oldContent == Run(s, before).oldContent
  {
    events := RemoveOld(s, before, 0);
    events := TakeFreePath(s, events, 0);
  }

  /** The second tick, which judged the old lock stale, moves the new one away, and the third finds the path free. */
  lemma ThirdTakesToo(s: State, before: seq<Event>) returns (events: seq<Event>)
    requires var now := Run(s, before);
      && |now.ticks| >= 3 && now.path == Some(Own(0))
      && now.ticks[0] == Holding && now.ticks[1] == Reclaiming(OldLock(now)) && now.ticks[2] == Trying
    ensures !MutuallyExclusive(Run(s, events))
  {
    var now := Run(s, before);
    events := Then(s, before, Rename(1), Set(now, 1, Claimed(Own(0), OldLock(now), None, None)).(path := None));
    events := TakeFreePath(s, events, 2);
    assert Active(Run(s, events).ticks[0]) && Active(Run(s, events).ticks[2]);
  }

  /** Some start of this many ticks has a run after which two have the lock. */
  ghost predicate CanBothHold(count: nat) {
    exists s, events :: Start(s, count) && !MutuallyExclusive(Run(s, events))
  }

  /** Two that judge the old lock stale, and a third that finds the path free, are enough; more ticks may be idle. */
  lemma ThreeTicksCanBothHold(count: nat)
    requires count >= 3
    ensures CanBothHold(count)
  {
    var s := State(seq(count, _ => Trying), Some(Old), {}, OldText);
    var events := BothJudgeOld(s);
    events := FirstTakesOver(s, events);
    events := ThirdTakesToo(s, events);
  }

  lemma {:induction false} TicksStay(s: State, events: seq<Event>)
    ensures |Run(s, events).ticks| == |s.ticks|
  {
    if events != [] { TicksStay(s, events[..|events| - 1]); }
  }

  /** Two ticks can have the lock at once exactly when three or more tick: one and two never do, from any start. */
  lemma BothHoldFromThreeOn(count: nat)
    ensures CanBothHold(count) <==> count >= 3
  {
    if count >= 3 {
      ThreeTicksCanBothHold(count);
    } else {
      forall s, events | Start(s, count) ensures MutuallyExclusive(Run(s, events)) {
        TicksStay(s, events);
        if count == 2 { ExclusiveForTwo(s, events); }
      }
    }
  }
}
