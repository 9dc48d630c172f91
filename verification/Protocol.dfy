/** The scheduler thread, the audio thread and the callers of both as one machine of atomic steps
    (engine/scheduling.c, engine/audio_instructions.c). Every push, collection, done-check-and-call,
    cancellation and audio event is one step; a run is any interleaving of them. */
module Protocol {
  import opened Wrappers
  import opened EventOrder
  import opened TaskTree
  import opened AudioMessages

  /** A `SchedulerEvent` beside its key: the task, if any, and the tick the callback gets. */
  datatype Call = Call(task: Option<nat>, tick: nat)

  datatype State = State(
    tasks: Tasks,
    queue: seq<Entry<Call>>,
    nextSequence: nat,
    batch: seq<Entry<Call>>,
    fifo: seq<Msg>,
    heap: seq<Entry<Msg>>,
    audioSequence: nat,
    table: seq<Cancellation>)

  const LOOKAHEAD: nat := Nodes.BUF_SIZE * 32

  /** `task_dispatch_tick` */
  function DispatchTick(target: nat, base: nat): (r: nat)
    ensures r >= base && target <= r + LOOKAHEAD && (r > base ==> target == r + LOOKAHEAD)
  {
    if target <= base + LOOKAHEAD then base
    else if target - LOOKAHEAD > base then target - LOOKAHEAD else base
  }

  datatype Step =
    | Start(parent: Option<nat>)
    | PushTask(task: nat, target: nat, base: nat)
    | PushPlain(target: nat)
    | Collect(now: nat)
    | Fire
    | Complete(task: nat)
    | Cancel(task: nat)
    | Announce(task: nat, tick: nat)
    | PushInstruction(msg: Msg)
    | AudioTake
    | AudioNext(end: nat)

  /** What an observer sees of a step. */
  datatype Effect =
    | Quiet
    | Fired(call: Call)
    | Scheduled(task: nat)
    | Forked(parent: Option<nat>, child: nat)
    | Applied(msg: Msg)

  function DoneIn(s: State, t: nat): bool {
    t < |s.tasks| && Done(s.tasks, t)
  }

  /** The number of events `collect_due_events` takes. */
  function DueCount(queue: seq<Entry<Call>>, now: nat, most: nat): (n: nat)
    ensures n <= |queue| && n <= most
    ensures forall i :: 0 <= i < n ==> queue[i].tick <= now
    ensures n < most ==> n == |queue| || queue[n].tick > now
    decreases most
  {
    if queue == [] || most == 0 || queue[0].tick > now then 0 else 1 + DueCount(queue[1..], now, most - 1)
  }

  function WithPush(s: State, dispatch: nat, call: Call): State {
    s.(queue := Insert(s.queue, Entry(dispatch, s.nextSequence, call)), nextSequence := s.nextSequence + 1)
  }

  function WithMsg(s: State, msg: Msg): State {
    if |s.fifo| == MSG_QUEUE_MAX_SIZE then s else s.(fifo := s.fifo + [msg])
  }

  function Next(s: State, step: Step): (State, Effect)
    requires Linked(s.tasks)
  {
    match step
    case Start(parent) => NextStart(s, parent)
    case PushTask(task, target, base) =>
      // `push_task_event` refuses a task that is done
      if task >= |s.tasks| || DoneIn(s, task) then (s, Quiet)
      else (WithPush(s, DispatchTick(target, base), Call(Some(task), target)), Scheduled(task))
    case PushPlain(target) => (WithPush(s, target, Call(None, target)), Quiet)
    case Collect(now) =>
      // the scheduler thread collects after it fired the whole batch
      if s.batch != [] then (s, Quiet)
      else
        var n := DueCount(s.queue, now, MAX_BATCH);
        (s.(batch := s.queue[..n], queue := s.queue[n..]), Quiet)
    case Fire =>
      if s.batch == [] then (s, Quiet)
      else NextFire(s.(batch := s.batch[1..]), s.batch[0].item)
    case Complete(task) =>
      if task >= |s.tasks| then (s, Quiet)
      else (s.(tasks := s.tasks[task := s.tasks[task].(completed := true)]), Quiet)
    case Cancel(task) =>
      if task >= |s.tasks| then (s, Quiet) else (s.(tasks := CancelFrom(s.tasks, task)), Quiet)
    case Announce(task, tick) => NextAnnounce(s, task, tick)
    case PushInstruction(msg) => (WithMsg(s, msg), Quiet)
    case AudioTake =>
      if s.fifo == [] then (s, Quiet)
      else if |s.heap| >= AUDIO_EVENT_HEAP_MAX then (s.(fifo := s.fifo[1..]), Quiet)
      else (s.(fifo := s.fifo[1..], heap := Insert(s.heap, Entry(s.fifo[0].tick, s.audioSequence, s.fifo[0])),
               audioSequence := s.audioSequence + 1), Quiet)
    case AudioNext(end) =>
      if s.heap == [] || s.heap[0].tick >= end then (s, Quiet)
      else NextAudio(s.(heap := s.heap[1..]), s.heap[0].item)
  }

  /** `ylc_play_pattern_start` up to its push: a done task forks nothing. */
  function NextStart(s: State, parent: Option<nat>): (State, Effect) {
    if parent.Some? && (parent.value >= |s.tasks| || DoneIn(s, parent.value)) then (s, Quiet)
    else (s.(tasks := CreateTask(s.tasks, parent)), Forked(parent, |s.tasks|))
  }

  /** One event of `fire_events`: the done check and the call are one step. */
  function NextFire(s: State, call: Call): (State, Effect) {
    if call.task.Some? && DoneIn(s, call.task.value) then (s, Quiet) else (s, Fired(call))
  }

  /** The loop body at the end of `cancel_task`. */
  function NextAnnounce(s: State, task: nat, tick: nat): (State, Effect) {
    if task >= |s.tasks| || !s.tasks[task].cancelled || s.tasks[task].audioCancelSent then (s, Quiet)
    else
      (WithMsg(s, Msg(tick, None, AudioCancelTask(Some(task)))).(
       tasks := s.tasks[task := s.tasks[task].(audioCancelSent := true)]), Quiet)
  }

  /** One event of `process_audio_events_pre`. */
  function NextAudio(s: State, msg: Msg): (State, Effect) {
    (s.(table := TableAfter(s.table, msg)), if Applies(s.table, msg) then Applied(msg) else Quiet)
  }

  // ---- Invariants of every run ---------------------------------------------------------

  predicate CallsKnown(q: seq<Entry<Call>>, n: nat) {
    forall i :: 0 <= i < |q| && q[i].item.task.Some? ==> q[i].item.task.value < n
  }

  ghost predicate Inv(s: State) {
    && Linked(s.tasks) && DownClosed(s.tasks)
    && CallsKnown(s.queue, |s.tasks|) && CallsKnown(s.batch, |s.tasks|)
    && EventOrder.Sorted(s.queue) && Older(s.queue, s.nextSequence)
    && EventOrder.Sorted(s.heap) && Older(s.heap, s.audioSequence)
  }

  lemma SameFlagsClosed(ts: Tasks, us: Tasks)
    requires Linked(ts) && DownClosed(ts) && SameTree(ts, us)
    requires forall i :: 0 <= i < |ts| ==> us[i].cancelled == ts[i].cancelled
    ensures Linked(us) && DownClosed(us)
  {
    SameLinked(ts, us);
    forall c | 0 <= c < |us| && us[c].parent.Some? && us[us[c].parent.value].cancelled
      ensures us[c].cancelled
    {
      assert ts[c].parent == us[c].parent;
    }
  }

  lemma PushKeeps(s: State, dispatch: nat, call: Call)
    requires Inv(s) && (call.task.Some? ==> call.task.value < |s.tasks|)
    ensures Inv(WithPush(s, dispatch, call))
  {
    hide Linked;
    hide DownClosed;
    hide EventOrder.Sorted;
    hide Insert;
    var e := Entry(dispatch, s.nextSequence, call);
    InsertSorted(s.queue, e);
    InsertKnown(s.queue, e, |s.tasks|);
  }

  lemma InsertKnown(q: seq<Entry<Call>>, e: Entry<Call>, n: nat)
    requires CallsKnown(q, n) && (e.item.task.Some? ==> e.item.task.value < n)
    ensures CallsKnown(Insert(q, e), n)
  {
    InsertMultiset(q, e);
    forall i | 0 <= i < |Insert(q, e)| && Insert(q, e)[i].item.task.Some?
      ensures Insert(q, e)[i].item.task.value < n
    {
      assert Insert(q, e)[i] in multiset(Insert(q, e));
      assert Insert(q, e)[i] == e || Insert(q, e)[i] in q;
    }
  }

  lemma CollectKeeps(s: State, n: nat)
    requires Inv(s) && n <= |s.queue| && s.batch == []
    ensures Inv(s.(batch := s.queue[..n], queue := s.queue[n..]))
  {
    hide Linked;
    hide DownClosed;
    hide Before;
  }

  lemma StartKeeps(s: State, parent: Option<nat>)
    requires Inv(s)
    ensures Inv(NextStart(s, parent).0)
  {
    hide Linked;
    hide DownClosed;
    hide EventOrder.Sorted;
    hide CreateTask;
    if !(parent.Some? && (parent.value >= |s.tasks| || DoneIn(s, parent.value))) {
      CreateClosed(s.tasks, parent);
    }
  }

  lemma AnnounceKeeps(s: State, task: nat, tick: nat)
    requires Inv(s)
    ensures Inv(NextAnnounce(s, task, tick).0)
  {
    hide Linked;
    hide DownClosed;
    hide EventOrder.Sorted;
    if task < |s.tasks| {
      SameFlagsClosed(s.tasks, s.tasks[task := s.tasks[task].(audioCancelSent := true)]);
    }
  }

  lemma TakeKeeps(s: State)
    requires Inv(s)
    ensures Inv(Next(s, AudioTake).0)
  {
    hide Linked;
    hide DownClosed;
    hide EventOrder.Sorted;
    hide Insert;
    if s.fifo != [] {
      InsertSorted(s.heap, Entry(s.fifo[0].tick, s.audioSequence, s.fifo[0]));
    }
  }

  lemma InvLinked(s: State)
    requires Inv(s)
    ensures Linked(s.tasks) && DownClosed(s.tasks)
  {
  }

  /** Every step keeps the invariants. */
  lemma StepKeeps(s: State, step: Step)
    requires Inv(s)
    ensures Inv(Next(s, step).0)
  {
    hide Linked;
    hide DownClosed;
    hide EventOrder.Sorted;
    hide CancelFrom;
    hide CreateTask;
    hide TableAfter;
    hide Insert;
    hide NextStart;
    hide NextAnnounce;
    match step
    case Start(parent) => StartKeeps(s, parent);
    case PushTask(task, target, base) =>
      if task < |s.tasks| {
        PushKeeps(s, DispatchTick(target, base), Call(Some(task), target));
      }
    case PushPlain(target) => PushKeeps(s, target, Call(None, target));
    case Collect(now) =>
      if s.batch == [] {
        CollectKeeps(s, DueCount(s.queue, now, MAX_BATCH));
      }
    case Fire =>
    case Complete(task) =>
      if task < |s.tasks| {
        SameFlagsClosed(s.tasks, s.tasks[task := s.tasks[task].(completed := true)]);
      }
    case Cancel(task) =>
      if task < |s.tasks| {
        CancelCorrect(s.tasks, task);
      }
    case Announce(task, tick) => AnnounceKeeps(s, task, tick);
    case PushInstruction(msg) =>
    case AudioTake => TakeKeeps(s);
    case AudioNext(end) =>
      if s.heap != [] {
        SortedTail(s.heap);
      }
  }

  // ---- Runs ------------------------------------------------------------------------------

  function Run(s: State, steps: seq<Step>): (r: State)
    requires Inv(s)
    ensures Inv(r)
    decreases |steps|
  {
    if steps == [] then s
    else
      StepKeeps(s, steps[0]);
      Run(Next(s, steps[0]).0, steps[1..])
  }

  /** The effect of step `k` of a run. */
  function EffectAt(s: State, steps: seq<Step>, k: nat): Effect
    requires Inv(s) && k < |steps|
  {
    Next(Run(s, steps[..k]), steps[k]).1
  }

  const NO_TASKS: State := State([], [], 0, [], [], [], 0, [])

  lemma StartState()
    ensures Inv(NO_TASKS)
  {
  }

  // ---- Cancellation, scheduler side ----------------------------------------------------------

  /** The effect runs, reschedules or forks from task `d`. */
  predicate Touches(e: Effect, d: nat) {
    match e
    case Fired(call) => call.task == Some(d)
    case Scheduled(task) => task == d
    case Forked(parent, _) => parent == Some(d)
    case _ => false
  }

  /** A cancelled task stays cancelled and nothing touches it. */
  lemma CancelledUntouched(s: State, step: Step, d: nat)
    requires Inv(s) && d < |s.tasks| && s.tasks[d].cancelled
    ensures var (s', e) := Next(s, step);
            d < |s'.tasks| && s'.tasks[d].cancelled && !Touches(e, d)
  {
    hide Linked;
    hide DownClosed;
    hide EventOrder.Sorted;
    hide CancelFrom;
    hide TableAfter;
    hide Applies;
    hide Insert;
    hide Below;
    match step
    case Cancel(task) =>
      if task < |s.tasks| {
        CancelCorrect(s.tasks, task);
      }
    case _ =>
  }

  lemma {:induction false} CancelledStays(s: State, steps: seq<Step>, h: nat)
    requires Inv(s) && h < |s.tasks| && s.tasks[h].cancelled
    ensures h < |Run(s, steps).tasks| && Run(s, steps).tasks[h].cancelled
    decreases |steps|
  {
    hide Inv;
    hide Next;
    if steps != [] {
      InvLinked(s);
      StepKeeps(s, steps[0]);
      CancelledUntouched(s, steps[0], h);
      CancelledStays(Next(s, steps[0]).0, steps[1..], h);
    }
  }

  /** After `cancel_task(h)` no step of any run fires, reschedules or forks from `h` or a task below
      it, an event already in the collected batch included. */
  lemma CancelSafety(s: State, h: nat, steps: seq<Step>, k: nat, d: nat)
    requires Inv(s) && h < |s.tasks| && k < |steps|
    ensures Inv(Next(s, Cancel(h)).0)
    ensures var s1 := Next(s, Cancel(h)).0;
            Descends(Run(s1, steps[..k]).tasks, h, d) ==> !Touches(EffectAt(s1, steps, k), d)
  {
    hide Linked;
    hide DownClosed;
    hide EventOrder.Sorted;
    hide Descends;
    hide Touches;
    hide Below;
    hide CancelFrom;
    hide Run;
    StepKeeps(s, Cancel(h));
    CancelCorrect(s.tasks, h);
    SelfBelow(s.tasks, h);
    var s1 := Next(s, Cancel(h)).0;
    assert s1.tasks[h].cancelled by { InBelow(s.tasks, h); }
    CancelledStays(s1, steps[..k], h);
    var now := Run(s1, steps[..k]);
    if Descends(now.tasks, h, d) {
      CancelledBelow(now.tasks, h, d);
      DescendsLater(now.tasks, h, d);
      CancelledUntouched(now, steps[k], d);
    }
  }

  lemma InBelow(ts: Tasks, h: nat)
    requires Linked(ts) && h < |ts|
    ensures h in Below(ts, h)
  {
  }

  /** What is below a task never changes but for forks from below it. */
  lemma DescendsStable(s: State, step: Step, a: nat, d: nat)
    requires Inv(s) && d < |s.tasks|
    ensures Inv(Next(s, step).0) && Descends(Next(s, step).0.tasks, a, d) == Descends(s.tasks, a, d)
  {
    hide Linked;
    hide DownClosed;
    hide EventOrder.Sorted;
    hide CancelFrom;
    hide TableAfter;
    hide Insert;
    hide Descends;
    hide CreateTask;
    StepKeeps(s, step);
    match step
    case Start(parent) =>
      if !(parent.Some? && (parent.value >= |s.tasks| || DoneIn(s, parent.value))) {
        CreateLinked(s.tasks, parent);
        CreateDescends(s.tasks, parent, a, d);
      }
    case _ =>
      assert SameTree(s.tasks, Next(s, step).0.tasks);
      SameDescends(s.tasks, Next(s, step).0.tasks, a, d);
  }

  // ---- Cancellation, audio side -----------------------------------------------------------------

  lemma {:induction false} TableStays(s: State, steps: seq<Step>, msg: Msg)
    requires Inv(s) && EventCancelled(s.table, msg)
    ensures EventCancelled(Run(s, steps).table, msg)
    decreases |steps|
  {
    hide Inv;
    hide EventCancelled;
    if steps != [] {
      InvLinked(s);
      StepKeeps(s, steps[0]);
      TableStep(s, steps[0], msg);
      TableStays(Next(s, steps[0]).0, steps[1..], msg);
    }
  }

  lemma TableStep(s: State, step: Step, msg: Msg)
    requires Inv(s) && EventCancelled(s.table, msg)
    ensures EventCancelled(Next(s, step).0.table, msg)
  {
    hide Inv;
    hide EventCancelled;
    hide TableAfter;
    hide CancelFrom;
    hide CreateTask;
    match step
    case AudioNext(end) =>
      if s.heap != [] {
        StaysCancelled(s.table, s.heap[0].item, msg);
      }
    case _ =>
  }

  /** Once the audio thread has taken the cancellation of task `t` at tick `c` from its heap, no step
      of any run applies an instruction of that task whose tick is `c` or later. */
  lemma AudioCancelSafety(s: State, t: nat, c: nat, end: nat, steps: seq<Step>, k: nat)
    requires Inv(s) && s.heap != [] && s.heap[0].tick < end
    requires s.heap[0].item.tick == c && s.heap[0].item.payload == AudioCancelTask(Some(t))
    requires |s.table| < MSG_QUEUE_MAX_SIZE || Mentions(s.table, t)
    requires k < |steps|
    ensures Inv(Next(s, AudioNext(end)).0)
    ensures var e := EffectAt(Next(s, AudioNext(end)).0, steps, k);
            e.Applied? && e.msg.task == Some(t) ==> e.msg.tick < c
  {
    hide Linked;
    hide DownClosed;
    hide EventOrder.Sorted;
    hide EventCancelled;
    hide Run;
    hide RecordCancellation;
    hide Mentions;
    StepKeeps(s, AudioNext(end));
    var s1 := Next(s, AudioNext(end)).0;
    var now := Run(s1, steps[..k]);
    var e := Next(now, steps[k]).1;
    if e.Applied? && e.msg.task == Some(t) && e.msg.tick >= c {
      RecordExact(s.table, Room(s.table), t, c, e.msg);
      TableStays(s1, steps[..k], e.msg);
      OnlyApplies(now, steps[k]);
      assert false;
    }
  }

  lemma OnlyApplies(s: State, step: Step)
    requires Inv(s)
    ensures Next(s, step).1.Applied? ==> !EventCancelled(s.table, Next(s, step).1.msg)
  {
    hide Inv;
    hide EventCancelled;
    hide CancelFrom;
    hide CreateTask;
    hide TableAfter;
  }
}
