/**
 The pool of parse workers (src/cli/parse-worker-pool.ts).

 `State` and `Step` say what each message-driven step does; `ParseWorkerPool` is the mutable
 pool, each method proved to take exactly that step. A run is any sequence of steps. Which
 spawn or post throws is a parameter of the step: the number of attempts of one dispatch that
 succeed before the failing one.
 */
module WorkerPool {
  import opened Common

  const WORKER_TASK_DEPTH: nat := 2

  datatype Task<T> = Task(id: int, request: T)

  /** How a submitted task left the pool: a worker's result, or a parse on the main thread. */
  datatype Handoff<T, R> = Answered(task: Task<T>, result: R) | Inline(task: Task<T>)

  /** A readable worker message; `parsed` is missing when the worker reports an error. */
  datatype Response<R> = Response(taskId: int, parsed: Option<R>)

  /** `submitted` and `handed` record every call of `parse` and every task handed off, in order. */
  datatype State<T, R> = State(
    workerCount: nat, slots: seq<seq<Task<T>>>, queue: seq<Task<T>>, disabled: bool, nextTaskId: int,
    submitted: seq<T>, handed: seq<Handoff<T, R>>)

  datatype Event<T, R> =
    | Submit(request: T, failAt: Option<nat>)
    | Message(slot: nat, response: Option<Response<R>>, failAt: Option<nat>)
    | WorkerFailed(slot: nat)
    | Terminate

  function Init<T, R>(workerCount: nat): State<T, R> {
    State(workerCount, [], [], false, 1, [], [])
  }

  function Concat<T>(slots: seq<seq<T>>): seq<T> {
    if slots == [] then [] else Concat(slots[..|slots| - 1]) + slots[|slots| - 1]
  }

  function Emptied<T>(slots: seq<seq<T>>): (r: seq<seq<T>>)
    ensures |r| == |slots| && forall i :: 0 <= i < |r| ==> r[i] == []
  {
    seq(|slots|, i => [])
  }

  function InlineAll<T, R>(tasks: seq<Task<T>>): (r: seq<Handoff<T, R>>)
    ensures |r| == |tasks| && forall i :: 0 <= i < |r| ==> r[i] == Inline(tasks[i])
  {
    seq(|tasks|, i requires 0 <= i < |tasks| => Inline(tasks[i]))
  }

  /** Queued tasks first, then each worker's, are parsed inline; nothing is left behind. */
  function Stopped<T, R>(s: State<T, R>): State<T, R> {
    s.(disabled := true, queue := [], slots := Emptied(s.slots), handed := s.handed + InlineAll(s.queue + Concat(s.slots)))
  }

  function Disabled<T, R>(s: State<T, R>): State<T, R> {
    if s.disabled then s else Stopped(s)
  }

  /** The first slot from `from` on holding `count` tasks. */
  function FirstHolding<T>(slots: seq<seq<T>>, from: nat, count: nat): (r: Option<nat>)
    requires from <= |slots|
    ensures r.Some? ==> from <= r.value < |slots| && |slots[r.value]| == count
    ensures forall i :: from <= i < (if r.Some? then r.value else |slots|) ==> |slots[i]| != count
    decreases |slots| - from
  {
    if from == |slots| then None else if |slots[from]| == count then Some(from) else FirstHolding(slots, from + 1, count)
  }

  datatype Choice = Existing(slot: nat) | Spawn | NoRoom

  /** An idle worker, else a new one, else one that holds a single task. */
  function Choose<T>(slots: seq<seq<T>>, workerCount: nat): (c: Choice)
    ensures c.Existing? ==> c.slot < |slots| && |slots[c.slot]| < WORKER_TASK_DEPTH
    ensures c.Existing? ==> forall i :: 0 <= i < |slots| ==> |slots[c.slot]| <= |slots[i]|
    ensures c.Existing? && slots[c.slot] != [] ==> |slots| >= workerCount
    ensures c.Spawn? ==> |slots| < workerCount
    ensures !c.Existing? ==> forall i :: 0 <= i < |slots| ==> slots[i] != []
    ensures c.NoRoom? ==> |slots| >= workerCount && forall i :: 0 <= i < |slots| ==> |slots[i]| >= WORKER_TASK_DEPTH
  {
    match FirstHolding(slots, 0, 0)
    case Some(i) => Existing(i)
    case None =>
      if |slots| < workerCount then Spawn
      else
        match FirstHolding(slots, 0, 1)
        case Some(i) => Existing(i)
        case None => NoRoom
  }

  function PostFirst<T, R>(s: State<T, R>, slot: nat): State<T, R>
    requires s.queue != [] && slot < |s.slots|
  {
    s.(queue := s.queue[1..], slots := s.slots[slot := s.slots[slot] + [s.queue[0]]])
  }

  predicate Fails(failAt: Option<nat>, attempt: nat) {
    failAt.Some? && failAt.value <= attempt
  }

  function After(failAt: Option<nat>, attempts: nat): Option<nat> {
    if failAt.Some? && failAt.value >= attempts then Some(failAt.value - attempts) else failAt
  }

  /** Posts queued tasks in order while a worker has room, up to the attempt that throws. */
  function Dispatched<T, R>(s: State<T, R>, failAt: Option<nat>): State<T, R>
    decreases |s.queue|
  {
    if s.disabled || s.queue == [] then s
    else
      match Choose(s.slots, s.workerCount)
      case NoRoom => s
      case Existing(i) =>
        if Fails(failAt, 0) then Disabled(PostFirst(s, i)) else Dispatched(PostFirst(s, i), After(failAt, 1))
      case Spawn =>
        if Fails(failAt, 0) then Disabled(s)
        else
          var posted := PostFirst(s.(slots := s.slots + [[]]), |s.slots|);
          if Fails(failAt, 1) then Disabled(posted) else Dispatched(posted, After(failAt, 2))
  }

  /** A response settles the oldest task of its own worker, and only that one. */
  predicate Answers<T, R>(s: State<T, R>, slot: nat, response: Option<Response<R>>)
    requires slot < |s.slots|
  {
    response.Some? && s.slots[slot] != [] && s.slots[slot][0].id == response.value.taskId
  }

  function Settled<T, R>(s: State<T, R>, slot: nat, response: Response<R>): State<T, R>
    requires slot < |s.slots| && Answers(s, slot, Some(response))
  {
    var task := s.slots[slot][0];
    s.(slots := s.slots[slot := s.slots[slot][1..]],
       handed := s.handed + [if response.parsed.Some? then Answered(task, response.parsed.value) else Inline(task)])
  }

  function Queued<T, R>(s: State<T, R>, request: T): State<T, R> {
    s.(queue := s.queue + [Task(s.nextTaskId, request)], nextTaskId := s.nextTaskId + 1, submitted := s.submitted + [request])
  }

  /** Submitted to a disabled pool, a task is parsed inline at once. */
  function ParsedInline<T, R>(s: State<T, R>, request: T): State<T, R> {
    s.(submitted := s.submitted + [request], handed := s.handed + [Inline(Task(|s.submitted| + 1, request))])
  }

  function Step<T, R>(s: State<T, R>, e: Event<T, R>): State<T, R> {
    match e
    case Submit(request, failAt) => if s.disabled then ParsedInline(s, request) else Dispatched(Queued(s, request), failAt)
    case Message(slot, response, failAt) =>
      if s.disabled || slot >= |s.slots| then s
      else if Answers(s, slot, response) then Dispatched(Settled(s, slot, response.value), failAt)
      else Disabled(s)
    case WorkerFailed(slot) => if slot < |s.slots| then Disabled(s) else s
    case Terminate => Stopped(s)
  }

  function Run<T, R>(workerCount: nat, events: seq<Event<T, R>>): State<T, R> {
    if events == [] then Init(workerCount)
    else Step(Run(workerCount, events[..|events| - 1]), events[|events| - 1])
  }

  // ----- the invariant

  function Tickets<T>(submitted: seq<T>): (r: seq<Task<T>>)
    ensures |r| == |submitted| && forall i :: 0 <= i < |r| ==> r[i] == Task(i + 1, submitted[i])
  {
    seq(|submitted|, i requires 0 <= i < |submitted| => Task(i + 1, submitted[i]))
  }

  function HandedTasks<T, R>(handed: seq<Handoff<T, R>>): (r: seq<Task<T>>)
    ensures |r| == |handed| && forall i :: 0 <= i < |r| ==> r[i] == handed[i].task
  {
    seq(|handed|, i requires 0 <= i < |handed| => handed[i].task)
  }

  /** Every task the pool holds or has handed off, with its multiplicity. */
  ghost function Everywhere<T, R>(s: State<T, R>): multiset<Task<T>> {
    multiset(s.queue) + multiset(Concat(s.slots)) + multiset(HandedTasks(s.handed))
  }

  ghost predicate Ascending<T>(tasks: seq<Task<T>>, below: int) {
    && (forall i, j :: 0 <= i < j < |tasks| ==> tasks[i].id < tasks[j].id)
    && (forall i :: 0 <= i < |tasks| ==> tasks[i].id < below)
  }

  /** The queue holds the newest tasks in order; every worker's tasks are older, and ascend. */
  ghost predicate Ordered<T, R>(s: State<T, R>) {
    && (forall k :: 0 <= k < |s.queue| ==> s.queue[k].id == s.nextTaskId - |s.queue| + k)
    && (forall i :: 0 <= i < |s.slots| ==> Ascending(s.slots[i], s.nextTaskId - |s.queue|))
    && (!s.disabled ==> s.nextTaskId == |s.submitted| + 1)
  }

  ghost predicate Bounded<T, R>(s: State<T, R>) {
    && |s.slots| <= s.workerCount
    && forall i :: 0 <= i < |s.slots| ==> |s.slots[i]| <= WORKER_TASK_DEPTH
  }

  ghost predicate AllFull<T, R>(s: State<T, R>) {
    |s.slots| == s.workerCount && forall i :: 0 <= i < |s.slots| ==> |s.slots[i]| == WORKER_TASK_DEPTH
  }

  ghost predicate AllIdle<T, R>(s: State<T, R>) {
    s.queue == [] && forall i :: 0 <= i < |s.slots| ==> s.slots[i] == []
  }

  /** What holds even halfway through a dispatch. */
  ghost predicate Sound<T, R>(s: State<T, R>) {
    && Everywhere(s) == multiset(Tickets(s.submitted))
    && Ordered(s) && Bounded(s)
    && (s.disabled ==> AllIdle(s))
  }

  /** Between steps no task waits while a worker could take it. */
  ghost predicate Inv<T, R>(s: State<T, R>) {
    Sound(s) && (!s.disabled && s.queue != [] ==> AllFull(s))
  }

  // ----- keeping it

  lemma {:induction false} ConcatUpdate<T>(slots: seq<seq<T>>, i: nat, tasks: seq<T>)
    requires i < |slots|
    ensures multiset(Concat(slots[i := tasks])) + multiset(slots[i]) == multiset(Concat(slots)) + multiset(tasks)
  {
    var last := |slots| - 1;
    var updated := slots[i := tasks];
    if i == last {
      assert updated[..last] == slots[..last];
    } else {
      ConcatUpdate(slots[..last], i, tasks);
      assert updated[..last] == slots[..last][i := tasks] && slots[..last][i] == slots[i];
      AddToBoth(multiset(Concat(updated[..last])), multiset(slots[i]), multiset(Concat(slots[..last])), multiset(tasks), slots[last],
                Concat(updated), Concat(slots));
    }
  }

  lemma AddToBoth<T>(a: multiset<T>, x: multiset<T>, b: multiset<T>, y: multiset<T>, last: seq<T>, s: seq<T>, t: seq<T>)
    requires a + x == b + y
    requires multiset(s) == a + multiset(last) && multiset(t) == b + multiset(last)
    ensures multiset(s) + x == multiset(t) + y
  {
    assert multiset(s) + x == (a + x) + multiset(last);
    assert multiset(t) + y == (b + y) + multiset(last);
  }

  lemma {:induction false} ConcatEmpty<T>(slots: seq<seq<T>>)
    requires forall i :: 0 <= i < |slots| ==> slots[i] == []
    ensures Concat(slots) == []
  {
    if slots != [] { ConcatEmpty(slots[..|slots| - 1]); }
  }

  lemma ConcatSpawned<T>(slots: seq<seq<T>>)
    ensures Concat(slots + [[]]) == Concat(slots)
  {
    assert (slots + [[]])[..|slots|] == slots;
  }

  lemma HandedAppend<T, R>(handed: seq<Handoff<T, R>>, more: seq<Handoff<T, R>>)
    ensures HandedTasks(handed + more) == HandedTasks(handed) + HandedTasks(more)
  {
  }

  lemma StoppedLedger<T, R>(s: State<T, R>)
    ensures Everywhere(Stopped(s)) == Everywhere(s)
  {
    var pending := s.queue + Concat(s.slots);
    HandedAppend(s.handed, InlineAll(pending));
    assert HandedTasks<T, R>(InlineAll(pending)) == pending;
    assert HandedTasks(Stopped(s).handed) == HandedTasks(s.handed) + pending;
    ConcatEmpty(Stopped(s).slots);
  }

  lemma StoppedKeeps<T, R>(s: State<T, R>)
    requires Sound(s)
    ensures Inv(Stopped(s)) && Stopped(s).disabled
  {
    StoppedLedger(s);
    assert Ordered(Stopped(s)) && Bounded(Stopped(s)) && AllIdle(Stopped(s));
  }

  /** One task moves between two of the three places. */
  lemma MoveOne<T>(a: multiset<T>, b: multiset<T>, c: multiset<T>, a': multiset<T>, b': multiset<T>, task: T)
    requires a == a' + multiset{task} && b' == b + multiset{task}
    ensures a + b + c == a' + b' + c
  {
  }

  lemma FirstMoves<T>(tasks: seq<T>)
    requires tasks != []
    ensures multiset(tasks) == multiset(tasks[1..]) + multiset{tasks[0]}
  {
    assert tasks == [tasks[0]] + tasks[1..];
  }

  lemma AddCancels<T>(a: multiset<T>, b: multiset<T>, own: multiset<T>, task: T)
    requires b + own == a + (own + multiset{task})
    ensures b == a + multiset{task}
  {
    var left, right := b + own, a + (own + multiset{task});
    forall t ensures b[t] == (a + multiset{task})[t] { assert left[t] == right[t]; }
  }

  lemma PostLedger<T, R>(s: State<T, R>, slot: nat)
    requires s.queue != [] && slot < |s.slots|
    ensures Everywhere(PostFirst(s, slot)) == Everywhere(s)
  {
    var task, tasks, s' := s.queue[0], s.slots[slot], PostFirst(s, slot);
    ConcatUpdate(s.slots, slot, tasks + [task]);
    FirstMoves(s.queue);
    assert multiset(tasks + [task]) == multiset(tasks) + multiset{task};
    AddCancels(multiset(Concat(s.slots)), multiset(Concat(s'.slots)), multiset(tasks), task);
    MoveOne(multiset(s.queue), multiset(Concat(s.slots)), multiset(HandedTasks(s.handed)),
            multiset(s'.queue), multiset(Concat(s'.slots)), task);
  }

  lemma PostKeeps<T, R>(s: State<T, R>, slot: nat)
    requires Sound(s) && !s.disabled && s.queue != [] && slot < |s.slots| && |s.slots[slot]| < WORKER_TASK_DEPTH
    ensures Sound(PostFirst(s, slot))
  {
    PostLedger(s, slot);
    PostOrder(s, slot);
  }

  lemma PostOrder<T, R>(s: State<T, R>, slot: nat)
    requires Ordered(s) && Bounded(s) && s.queue != [] && slot < |s.slots| && |s.slots[slot]| < WORKER_TASK_DEPTH
    ensures Ordered(PostFirst(s, slot)) && Bounded(PostFirst(s, slot))
  {
    assert s.queue[0].id == s.nextTaskId - |s.queue|;
  }

  lemma SpawnKeeps<T, R>(s: State<T, R>)
    requires Sound(s) && |s.slots| < s.workerCount && !s.disabled
    ensures Sound(s.(slots := s.slots + [[]]))
  {
    ConcatSpawned(s.slots);
  }

  lemma {:induction false} DispatchKeeps<T, R>(s: State<T, R>, failAt: Option<nat>)
    requires Sound(s)
    ensures Inv(Dispatched(s, failAt))
    decreases |s.queue|
  {
    if !s.disabled && s.queue != [] {
      match Choose(s.slots, s.workerCount) {
        case NoRoom =>
        case Existing(i) => PostAndDispatchKeeps(s, i, Fails(failAt, 0), After(failAt, 1));
        case Spawn =>
          if Fails(failAt, 0) {
            StoppedKeeps(s);
          } else {
            SpawnKeeps(s);
            PostAndDispatchKeeps(s.(slots := s.slots + [[]]), |s.slots|, Fails(failAt, 1), After(failAt, 2));
          }
      }
    }
  }

  lemma {:induction false} PostAndDispatchKeeps<T, R>(s: State<T, R>, slot: nat, fails: bool, failAt: Option<nat>)
    requires Sound(s) && !s.disabled && s.queue != [] && slot < |s.slots| && |s.slots[slot]| < WORKER_TASK_DEPTH
    ensures Inv(if fails then Disabled(PostFirst(s, slot)) else Dispatched(PostFirst(s, slot), failAt))
    decreases |s.queue|, 0
  {
    PostKeeps(s, slot);
    if fails { StoppedKeeps(PostFirst(s, slot)); } else { DispatchKeeps(PostFirst(s, slot), failAt); }
  }

  lemma TicketsAppend<T>(submitted: seq<T>, request: T)
    ensures Tickets(submitted + [request]) == Tickets(submitted) + [Task(|submitted| + 1, request)]
  {
  }

  lemma QueuedKeeps<T, R>(s: State<T, R>, request: T)
    requires Sound(s) && !s.disabled
    ensures Sound(Queued(s, request))
  {
    TicketsAppend(s.submitted, request);
  }

  lemma ParsedInlineKeeps<T, R>(s: State<T, R>, request: T)
    requires Sound(s) && s.disabled
    ensures Inv(ParsedInline(s, request))
  {
    TicketsAppend(s.submitted, request);
    HandedAppend(s.handed, [Inline(Task(|s.submitted| + 1, request))]);
  }

  lemma SettledLedger<T, R>(s: State<T, R>, slot: nat, response: Response<R>)
    requires slot < |s.slots| && Answers(s, slot, Some(response))
    ensures Everywhere(Settled(s, slot, response)) == Everywhere(s)
  {
    var tasks, s' := s.slots[slot], Settled(s, slot, response);
    ConcatUpdate(s.slots, slot, tasks[1..]);
    FirstMoves(tasks);
    AddCancels(multiset(Concat(s'.slots)), multiset(Concat(s.slots)), multiset(tasks[1..]), tasks[0]);
    HandedAppend(s.handed, [s'.handed[|s.handed|]]);
    assert s'.handed == s.handed + [s'.handed[|s.handed|]];
    assert HandedTasks(s'.handed) == HandedTasks(s.handed) + [tasks[0]];
    MoveOne(multiset(Concat(s.slots)), multiset(HandedTasks(s.handed)), multiset(s.queue),
            multiset(Concat(s'.slots)), multiset(HandedTasks(s'.handed)), tasks[0]);
  }

  lemma SettledKeeps<T, R>(s: State<T, R>, slot: nat, response: Response<R>)
    requires Sound(s) && !s.disabled && slot < |s.slots| && Answers(s, slot, Some(response))
    ensures Sound(Settled(s, slot, response))
  {
    SettledLedger(s, slot, response);
    assert Ordered(Settled(s, slot, response));
  }

  lemma MessageKeeps<T, R>(s: State<T, R>, slot: nat, response: Option<Response<R>>, failAt: Option<nat>)
    requires Inv(s) && !s.disabled && slot < |s.slots|
    ensures Inv(Step(s, Message(slot, response, failAt)))
  {
    if Answers(s, slot, response) {
      SettledKeeps(s, slot, response.value);
      DispatchKeeps(Settled(s, slot, response.value), failAt);
    } else {
      StoppedKeeps(s);
    }
  }

  /** Every step keeps the invariant. */
  lemma StepKeeps<T, R>(s: State<T, R>, e: Event<T, R>)
    requires Inv(s)
    ensures Inv(Step(s, e))
  {
    match e {
      case Submit(request, failAt) =>
        if s.disabled { ParsedInlineKeeps(s, request); } else {
          QueuedKeeps(s, request);
          DispatchKeeps(Queued(s, request), failAt);
        }
      case Message(slot, response, failAt) =>
        if !s.disabled && slot < |s.slots| { MessageKeeps(s, slot, response, failAt); }
      case WorkerFailed(slot) => StoppedKeeps(s);
      case Terminate => StoppedKeeps(s);
    }
  }

  /** The invariant holds after every run. */
  lemma {:induction false} RunKeeps<T, R>(workerCount: nat, events: seq<Event<T, R>>)
    ensures Inv(Run(workerCount, events))
  {
    if events != [] {
      RunKeeps(workerCount, events[..|events| - 1]);
      StepKeeps(Run(workerCount, events[..|events| - 1]), events[|events| - 1]);
    }
  }

  // ----- what a caller sees

  lemma {:induction false} TicketsAreDistinct<T>(submitted: seq<T>, k: nat)
    requires k < |submitted|
    ensures multiset(Tickets(submitted))[Task(k + 1, submitted[k])] == 1
  {
    var last := |submitted| - 1;
    assert submitted == submitted[..last] + [submitted[last]];
    TicketsAppend(submitted[..last], submitted[last]);
    if k < last {
      TicketsAreDistinct(submitted[..last], k);
    } else {
      assert Task(k + 1, submitted[k]) !in Tickets(submitted[..last]);
    }
  }

  ghost function Copies<T, R>(s: State<T, R>, task: Task<T>): nat {
    multiset(s.queue)[task] + multiset(Concat(s.slots))[task] + multiset(HandedTasks(s.handed))[task]
  }

  /** In every run, each submitted task is in exactly one place, once. */
  lemma EachTaskInOnePlace<T, R>(workerCount: nat, events: seq<Event<T, R>>, k: nat)
    requires k < |Run(workerCount, events).submitted|
    ensures var s := Run(workerCount, events); Copies(s, Task(k + 1, s.submitted[k])) == 1
  {
    RunKeeps(workerCount, events);
    var s := Run(workerCount, events);
    TicketsAreDistinct(s.submitted, k);
    assert Copies(s, Task(k + 1, s.submitted[k])) == Everywhere(s)[Task(k + 1, s.submitted[k])];
  }

  /** A disabled pool has handed off every task submitted so far, exactly once. */
  lemma DisabledPoolOwesNothing<T, R>(workerCount: nat, events: seq<Event<T, R>>)
    requires Run(workerCount, events).disabled
    ensures var s := Run(workerCount, events);
      multiset(HandedTasks(s.handed)) == multiset(Tickets(s.submitted)) && AllIdle(s)
  {
    RunKeeps(workerCount, events);
    ConcatEmpty(Run(workerCount, events).slots);
  }

  lemma {:induction false} DispatchHandsInline<T, R>(s: State<T, R>, failAt: Option<nat>)
    ensures s.handed <= Dispatched(s, failAt).handed && (s.disabled ==> Dispatched(s, failAt).disabled)
    ensures forall k :: |s.handed| <= k < |Dispatched(s, failAt).handed| ==> Dispatched(s, failAt).handed[k].Inline?
    ensures Dispatched(s, failAt).submitted == s.submitted
    decreases |s.queue|
  {
    if !s.disabled && s.queue != [] {
      match Choose(s.slots, s.workerCount) {
        case NoRoom =>
        case Existing(i) =>
          DispatchHandsInline(PostFirst(s, i), After(failAt, 1));
        case Spawn =>
          DispatchHandsInline(PostFirst(s.(slots := s.slots + [[]]), |s.slots|), After(failAt, 2));
      }
    }
  }

  /** The requests submitted in a run, in order. */
  function Requests<T, R>(events: seq<Event<T, R>>): seq<T> {
    if events == [] then []
    else
      var last := events[|events| - 1];
      Requests(events[..|events| - 1]) + (if last.Submit? then [last.request] else [])
  }

  /** Every request submitted in a run is a task of the pool, whether or not it was disabled by then. */
  lemma {:induction false} EveryRequestIsATask<T, R>(workerCount: nat, events: seq<Event<T, R>>)
    ensures Run(workerCount, events).submitted == Requests(events)
  {
    if events != [] {
      var before, last := Run(workerCount, events[..|events| - 1]), events[|events| - 1];
      EveryRequestIsATask(workerCount, events[..|events| - 1]);
      match last {
        case Submit(request, failAt) => DispatchHandsInline(Queued(before, request), failAt);
        case Message(slot, response, failAt) =>
          if slot < |before.slots| && Answers(before, slot, response) {
            DispatchHandsInline(Settled(before, slot, response.value), failAt);
          }
        case WorkerFailed(slot) =>
        case Terminate =>
      }
    }
  }

  /**
     Nothing handed off is taken back, a disabled pool stays disabled, and a worker's result
     goes only to the oldest task of that worker, when the worker named that task.
   */
  lemma ResultsGoToTheirTask<T, R>(s: State<T, R>, e: Event<T, R>, k: nat)
    ensures s.handed <= Step(s, e).handed && (s.disabled ==> Step(s, e).disabled)
    ensures |s.handed| <= k < |Step(s, e).handed| && Step(s, e).handed[k].Answered? ==>
              && !s.disabled && e.Message? && e.slot < |s.slots| && e.response.Some?
              && s.slots[e.slot] != [] && Step(s, e).handed[k].task == s.slots[e.slot][0]
              && e.response.value == Response(s.slots[e.slot][0].id, Some(Step(s, e).handed[k].result))
  {
    match e {
      case Submit(request, failAt) => DispatchHandsInline(Queued(s, request), failAt);
      case Message(slot, response, failAt) =>
        if slot < |s.slots| && Answers(s, slot, response) { DispatchHandsInline(Settled(s, slot, response.value), failAt); }
      case WorkerFailed(slot) =>
      case Terminate =>
    }
  }

  // ----- failures and answers

  /** A worker that exists fails, or sends what does not name its oldest task, or the pool is terminated. */
  predicate IsFailure<T, R>(s: State<T, R>, e: Event<T, R>) {
    match e
    case Submit(_, _) => false
    case Message(slot, response, _) =>
      slot < |s.slots| && (response.None? || s.slots[slot] == [] || s.slots[slot][0].id != response.value.taskId)
    case WorkerFailed(slot) => slot < |s.slots|
    case Terminate => true
  }

  /** The pool is off and empty, and what it held is parsed inline, each task once. */
  ghost predicate TurnedOff<T, R>(s: State<T, R>, s': State<T, R>) {
    && s'.disabled && AllIdle(s') && s.handed <= s'.handed
    && (forall k :: |s.handed| <= k < |s'.handed| ==> s'.handed[k].Inline?)
    && multiset(HandedTasks(s'.handed[|s.handed|..])) == multiset(s.queue) + multiset(Concat(s.slots))
  }

  lemma StoppedTurnsOff<T, R>(s: State<T, R>)
    ensures TurnedOff(s, Stopped(s))
  {
    var tasks, s' := s.queue + Concat(s.slots), Stopped(s);
    assert s'.handed[|s.handed|..] == InlineAll(tasks);
    assert HandedTasks<T, R>(InlineAll(tasks)) == tasks;
  }

  /** A failure turns the pool off: it holds nothing, and every task it held is parsed inline, once. */
  lemma FailureTurnsPoolOff<T, R>(s: State<T, R>, e: Event<T, R>)
    requires Inv(s) && !s.disabled && IsFailure(s, e)
    ensures TurnedOff(s, Step(s, e))
  {
    StoppedTurnsOff(s);
  }

  /** The oldest task of a worker, once the worker names it, gets the worker's result, or is parsed inline when the worker reports an error. */
  lemma AnswerSettlesOldestTask<T, R>(s: State<T, R>, slot: nat, response: Response<R>, failAt: Option<nat>)
    requires Inv(s) && !s.disabled && slot < |s.slots| && s.slots[slot] != [] && s.slots[slot][0].id == response.taskId
    ensures var s', task := Step(s, Message(slot, Some(response), failAt)), s.slots[slot][0];
      && |s'.handed| > |s.handed|
      && s'.handed[|s.handed|] == (if response.parsed.Some? then Answered(task, response.parsed.value) else Inline(task))
      && (!s'.disabled ==> |s'.handed| == |s.handed| + 1)
  {
    var settled := Settled(s, slot, response);
    DispatchHandsInline(settled, failAt);
    DispatchHandsNothing(settled, failAt);
    assert settled.handed <= Dispatched(settled, failAt).handed;
  }

  /** While the pool stays on, a dispatch hands nothing off. */
  lemma DispatchHandsNothing<T, R>(s: State<T, R>, failAt: Option<nat>)
    requires !s.disabled
    ensures !Dispatched(s, failAt).disabled ==> Dispatched(s, failAt).handed == s.handed
  {
    DispatchFailsIff(s, failAt);
  }

  /** How many workers a dispatch with no failure spawns, and how many tasks it posts. */
  function Attempts<T, R>(s: State<T, R>): int {
    var done := Dispatched(s, None);
    (|done.slots| - |s.slots|) + (|s.queue| - |done.queue|)
  }

  /** A dispatch turns the pool off exactly when it reaches the attempt that fails, and else does as if none would. */
  ghost predicate FailsIff<T, R>(s: State<T, R>, failAt: Option<nat>) {
    var done := Dispatched(s, failAt);
    if failAt.Some? && failAt.value < Attempts(s) then TurnedOff(s, done)
    else done == Dispatched(s, None) && !done.disabled && done.handed == s.handed
  }

  /** What a pool still owes: its queue and its workers' tasks. */
  ghost function Owed<T, R>(s: State<T, R>): multiset<Task<T>> {
    multiset(s.queue) + multiset(Concat(s.slots))
  }

  lemma PostOwesSame<T, R>(s: State<T, R>, slot: nat)
    requires s.queue != [] && slot < |s.slots|
    ensures Owed(PostFirst(s, slot)) == Owed(s)
  {
    var task, tasks, s' := s.queue[0], s.slots[slot], PostFirst(s, slot);
    ConcatUpdate(s.slots, slot, tasks + [task]);
    FirstMoves(s.queue);
    assert multiset(tasks + [task]) == multiset(tasks) + multiset{task};
    AddCancels(multiset(Concat(s.slots)), multiset(Concat(s'.slots)), multiset(tasks), task);
    MoveOne(multiset(s.queue), multiset(Concat(s.slots)), multiset{}, multiset(s'.queue), multiset(Concat(s'.slots)), task);
  }

  /** What fails after a state that owes the same turns the pool off from here, too. */
  lemma OwesSameTurnsOff<T, R>(s: State<T, R>, next: State<T, R>, done: State<T, R>)
    requires Owed(next) == Owed(s) && next.handed == s.handed && TurnedOff(next, done)
    ensures TurnedOff(s, done)
  {
  }

  lemma {:induction false} DispatchFailsIff<T, R>(s: State<T, R>, failAt: Option<nat>)
    requires !s.disabled
    ensures Attempts(s) >= 0 && FailsIff(s, failAt)
    decreases |s.queue|
  {
    if s.queue != [] {
      match Choose(s.slots, s.workerCount) {
        case NoRoom =>
        case Existing(i) =>
          var posted := PostFirst(s, i);
          PostOwesSame(s, i);
          DispatchFailsIff(posted, After(failAt, 1));
          FailsLater(s, posted, failAt, 1, Fails(failAt, 0));
        case Spawn =>
          var spawned := s.(slots := s.slots + [[]]);
          var posted := PostFirst(spawned, |s.slots|);
          ConcatSpawned(s.slots);
          PostOwesSame(spawned, |s.slots|);
          DispatchFailsIff(posted, After(failAt, 2));
          StoppedTurnsOff(s);
          FailsLater(s, posted, failAt, 2, Fails(failAt, 1));
      }
    }
  }

  /** The attempts up to a post, and those after it. */
  lemma FailsLater<T, R>(s: State<T, R>, posted: State<T, R>, failAt: Option<nat>, attempts: nat, fails: bool)
    requires !s.disabled && !posted.disabled && Owed(posted) == Owed(s) && posted.handed == s.handed
    requires Attempts(posted) >= 0 && FailsIff(posted, After(failAt, attempts)) && Dispatched(s, None) == Dispatched(posted, None)
    requires 1 <= attempts && attempts == |posted.slots| - |s.slots| + |s.queue| - |posted.queue|
    requires fails == Fails(failAt, attempts - 1)
    requires fails ==> TurnedOff(s, Dispatched(s, failAt)) || Dispatched(s, failAt) == Stopped(posted)
    requires !fails ==> Dispatched(s, failAt) == Dispatched(posted, After(failAt, attempts))
    ensures Attempts(s) >= 0 && FailsIff(s, failAt)
  {
    if fails {
      StoppedTurnsOff(posted);
      if Dispatched(s, failAt) == Stopped(posted) { OwesSameTurnsOff(s, posted, Stopped(posted)); }
    } else if failAt.Some? && failAt.value < Attempts(s) {
      OwesSameTurnsOff(s, posted, Dispatched(s, failAt));
    }
  }

  /** Submitting to a pool that is on posts and spawns unless an attempt fails; a failed one turns the pool off, the new request included. */
  lemma FailedAttemptTurnsPoolOff<T, R>(s: State<T, R>, request: T, failAt: Option<nat>)
    requires Inv(s) && !s.disabled
    ensures var s', queued := Step(s, Submit(request, failAt)), Queued(s, request);
      if failAt.Some? && failAt.value < Attempts(queued) then TurnedOff(queued, s')
      else !s'.disabled && s'.handed == s.handed
  {
    DispatchFailsIff(Queued(s, request), failAt);
  }

  // ----- the pool

  class ParseWorkerPool<T, R> {
    const workerCount: nat
    var slots: seq<seq<Task<T>>>
    var queue: seq<Task<T>>
    var disabled: bool
    var nextTaskId: int
    ghost var submitted: seq<T>
    ghost var handed: seq<Handoff<T, R>>

    ghost function Now(): State<T, R>
      reads this
    {
      State(workerCount, slots, queue, disabled, nextTaskId, submitted, handed)
    }

    /** A count below 1 makes the source's other pool, which parses every task inline. */
    constructor (workerCount: nat)
      requires workerCount > 0
      ensures Now() == Init(workerCount)
    {
      this.workerCount := workerCount;
      slots, queue, disabled, nextTaskId := [], [], false, 1;
      submitted, handed := [], [];
    }

    method TakePendingTasks() returns (pending: seq<Task<T>>)
      modifies this`queue, this`slots
      ensures pending == old(queue) + Concat(old(slots)) && queue == [] && slots == Emptied(old(slots))
    {
      pending, queue := queue, [];
      for i := 0 to |slots|
        invariant queue == [] && |slots| == |old(slots)|
        invariant pending == old(queue) + Concat(old(slots)[..i])
        invariant forall j :: 0 <= j < |slots| ==> slots[j] == if j < i then [] else old(slots)[j]
      {
        assert old(slots)[..i + 1][..i] == old(slots)[..i];
        pending, slots := pending + slots[i], slots[i := []];
      }
      assert old(slots)[..|slots|] == old(slots);
    }

    method DisablePool()
      modifies this
      ensures Now() == Disabled(old(Now()))
    {
      if disabled { return; }
      Terminate();
    }

    method Terminate()
      modifies this
      ensures Now() == Stopped(old(Now()))
    {
      disabled := true;
      var pending := TakePendingTasks();
      handed := handed + InlineAll(pending);
    }

    /** Spawns when no worker is idle and the pool is below its size; `None` when every worker is full. */
    method TakeIdleSlot(spawnFails: bool) returns (slot: Option<nat>, threw: bool)
      modifies this`slots
      ensures var choice := Choose(old(slots), workerCount);
        && threw == (choice.Spawn? && spawnFails)
        && slots == (if choice.Spawn? && !spawnFails then old(slots) + [[]] else old(slots))
        && (!threw ==> slot == match choice { case Existing(i) => Some(i) case Spawn => Some(|old(slots)|) case NoRoom => None })
    {
      threw := false;
      for i := 0 to |slots|
        invariant FirstHolding(slots, 0, 0) == FirstHolding(slots, i, 0)
        invariant slots == old(slots) && !threw
        invariant forall j :: 0 <= j < i ==> slots[j] != []
      {
        if |slots[i]| == 0 { return Some(i), false; }
      }
      if |slots| < workerCount {
        if spawnFails { return None, true; }
        slots := slots + [[]];
        return Some(|slots| - 1), false;
      }
      slot := None;
      for i := 0 to |slots|
        invariant slot.Some? ==> slot.value < i && |slots[slot.value]| == 1
        invariant FirstHolding(slots, 0, 1) == if slot.Some? then slot else FirstHolding(slots, i, 1)
      {
        if |slots[i]| < WORKER_TASK_DEPTH && (slot.None? || |slots[i]| < |slots[slot.value]|) {
          slot := Some(i);
        }
      }
    }

    method Dispatch(failAt: Option<nat>)
      modifies this
      ensures Now() == Dispatched(old(Now()), failAt)
    {
      var left := failAt;
      while !disabled && queue != []
        invariant Dispatched(Now(), left) == Dispatched(old(Now()), failAt)
        decreases |queue|
      {
        var spawned := |slots|;
        var slot, threw := TakeIdleSlot(Fails(left, 0));
        if threw {
          DisablePool();
          return;
        }
        if slot.None? { return; }
        if |slots| > spawned { left := After(left, 1); }
        var task := queue[0];
        queue := queue[1..];
        slots := slots[slot.value := slots[slot.value] + [task]];
        if Fails(left, 0) {
          DisablePool();
          return;
        }
        left := After(left, 1);
      }
    }

    method HandleWorkerMessage(slot: nat, response: Option<Response<R>>, failAt: Option<nat>)
      requires slot < |slots|
      modifies this
      ensures Now() == Step(old(Now()), Message(slot, response, failAt))
    {
      if disabled { return; }
      if response.None? || slots[slot] == [] || response.value.taskId != slots[slot][0].id {
        DisablePool();
        return;
      }
      var task := slots[slot][0];
      slots := slots[slot := slots[slot][1..]];
      handed := handed + [match response.value.parsed { case Some(result) => Answered(task, result) case None => Inline(task) }];
      Dispatch(failAt);
    }

    method Parse(request: T, failAt: Option<nat>)
      modifies this
      ensures Now() == Step(old(Now()), Submit(request, failAt))
    {
      submitted := submitted + [request];
      if disabled {
        handed := handed + [Inline(Task(|submitted|, request))];
        return;
      }
      queue := queue + [Task(nextTaskId, request)];
      nextTaskId := nextTaskId + 1;
      Dispatch(failAt);
    }
  }
}
