/** The scheduler's own state and the functions that change it (engine/scheduling.c). A task handle is
    its index in `scheduler_tasks`. Every method is one or more steps of `Protocol`. */
module Scheduler {
  import opened Wrappers
  import opened EventOrder
  import opened EventHeap
  import opened TaskTree
  import opened AudioMessages
  import AudioThread
  import opened Protocol
  import opened BoundedWork
  import opened Firing
  import Delays

  class Scheduler {
    var tasks: Tasks
    const queue: EventHeap<Call>
    var nextSequence: nat
    var pendingBatch: seq<Entry<Call>>
    const msgQueue: AudioThread.AudioQueue
    var currentTask: Option<nat>
    var curTick: nat
    var schedNow: nat
    var clock: nat
    var sampleRate: int
    const doubles: Delays.Rounding

    /** The part of the protocol's state on this side; the audio thread's part is left empty. */
    ghost function State(): Protocol.State
      reads this, queue, msgQueue
    {
      Protocol.State(tasks, queue.pending, nextSequence, pendingBatch, msgQueue.contents, [], 0, [])
    }

    ghost predicate Valid()
      reads this, queue, queue.events, msgQueue, msgQueue.buffer
    {
      && queue.Valid() && msgQueue.Valid() && Inv(State())
      && (forall i :: 0 <= i < |tasks| ==> 0.0 <= tasks[i].remainder < 1.0)
      && (currentTask.Some? ==> currentTask.value < |tasks|)
    }

    constructor (sampleRate: int, doubles: Delays.Rounding)
      ensures Valid() && State() == NO_TASKS && currentTask == None
      ensures fresh(queue) && fresh(queue.events) && fresh(msgQueue) && fresh(msgQueue.buffer)
    {
      tasks, nextSequence, pendingBatch := [], 0, [];
      queue := new EventHeap<Call>();
      msgQueue := new AudioThread.AudioQueue();
      currentTask, curTick, schedNow, clock := None, 0, 0, 0;
      this.sampleRate, this.doubles := sampleRate, doubles;
      new;
      StartState();
    }

    /** `task_is_done` */
    predicate IsDone(task: nat)
      reads this
    {
      task < |tasks| && (tasks[task].cancelled || tasks[task].completed)
    }

    /** `cancel_task_recursive` */
    method CancelTaskRecursive(id: nat)
      requires Linked(tasks) && id < |tasks|
      modifies this`tasks
      ensures tasks == CancelFrom(old(tasks), id)
      decreases |tasks| - id
    {
      hide Linked;
      hide CancelFrom;
      hide CancelAll;
      CancelOpens(tasks, id);
      if tasks[id].cancelled {
        return;
      }
      tasks := tasks[id := Cancelled(tasks[id])];
      SameLinked(old(tasks), tasks);
      ChildrenLater(tasks, id);
      ghost var marked := tasks;
      var children := tasks[id].children;
      assert children[0..] == children;
      for i := 0 to |children|
        invariant Linked(tasks) && |tasks| == |marked|
        invariant CancelAll(tasks, id, children[i..]) == CancelAll(marked, id, children)
      {
        assert children[i..][0] == children[i] && children[i..][1..] == children[i + 1..];
        CancelAllOpens(tasks, id, children[i..]);
        ghost var was := tasks;
        CancelTaskRecursive(children[i]);
        SameCancelled(was, children[i]);
      }
      assert children[|children|..] == [];
      CancelAllOpens(tasks, id, []);
    }

    /** `push_task_event` */
    method PushTaskEvent(task: nat, delay: nat, targetBase: nat, dispatchBase: nat)
      requires Valid()
      modifies this`nextSequence, queue, queue.events
      ensures Valid() && (queue.events == old(queue.events) || fresh(queue.events))
      ensures State() == Next(old(State()), PushTask(task, targetBase + delay, dispatchBase)).0
    {
      hide Inv;
      hide Insert;
      hide Holds;
      InvLinked(State());
      if task >= |tasks| || IsDone(task) {
        return;
      }
      InvOlder(State());
      var target := targetBase + delay;
      var dispatch := DispatchTick(target, dispatchBase);
      PushKeeps(State(), dispatch, Call(Some(task), target));
      queue.Push(Entry(dispatch, nextSequence, Call(Some(task), target)));
      nextSequence := nextSequence + 1;
    }

    /** `push_event`: an event without a task. */
    method PushEvent(delay: nat, baseTime: nat)
      requires Valid()
      modifies this`nextSequence, queue, queue.events
      ensures Valid() && (queue.events == old(queue.events) || fresh(queue.events))
      ensures State() == Next(old(State()), PushPlain(baseTime + delay)).0
    {
      hide Inv;
      hide Insert;
      hide Holds;
      PushKeeps(State(), baseTime + delay, Call(None, baseTime + delay));
      InvOlder(State());
      queue.Push(Entry(baseTime + delay, nextSequence, Call(None, baseTime + delay)));
      nextSequence := nextSequence + 1;
    }

    /** `collect_due_events` into the empty batch. */
    method CollectDueEvents(now: nat) returns (count: nat)
      requires Valid() && pendingBatch == []
      modifies this`pendingBatch, queue, queue.events
      ensures Valid() && queue.events == old(queue.events) && count == |pendingBatch|
      ensures State() == Next(old(State()), Collect(now)).0
    {
      hide Inv;
      hide Holds;
      hide DueCount;
      hide NextFire;
      hide NextStart;
      StepKeeps(State(), Collect(now));
      InvLinked(State());
      var batch := queue.CollectDue(now);
      CollectedIs(old(queue.pending), now, MAX_BATCH, batch, queue.pending);
      pendingBatch := batch;
      count := |batch|;
    }

    /** `cancel_task` under the lock: the flags. */
    method MarkCancelled(handle: nat)
      requires Valid()
      modifies this`tasks
      ensures Valid() && State() == Next(old(State()), Cancel(handle)).0
      ensures |tasks| == |old(tasks)|
    {
      hide Inv;
      hide CancelFrom;
      hide Holds;
      InvLinked(State());
      StepKeeps(State(), Cancel(handle));
      if handle < |tasks| {
        RemaindersKept(tasks, handle);
        CancelTaskRecursive(handle);
      }
    }

    /** `get_tl_tick` */
    function TlTick(): nat
      reads this
    {
      if curTick == 0 then clock else curTick
    }

    /** `current_task`, which is the scheduler thread's own: another thread has none. */
    function CurrentOf(onScheduler: bool): Option<nat>
      reads this
    {
      if onScheduler then currentTask else None
    }

    /** `cancel_task`: the flags, then one message for every cancelled task that has none yet. */
    method CancelTask(handle: nat, onScheduler: bool)
      requires Valid()
      modifies this`tasks, msgQueue, msgQueue.buffer
      ensures Valid()
      ensures var tick := if CurrentOf(onScheduler).Some? then TlTick() else clock;
              var s1 := Next(old(State()), Cancel(handle)).0;
              State() == if handle < |old(tasks)| then Announced(s1, tick, 0) else s1
    {
      hide Inv;
      hide CancelFrom;
      hide Holds;
      hide Announced;
      var tick := if CurrentOf(onScheduler).Some? then TlTick() else clock;
      MarkCancelled(handle);
      if handle >= |tasks| {
        return;
      }
      ghost var s1 := State();
      for i := 0 to |tasks|
        invariant Valid() && |tasks| == |s1.tasks| && Announced(s1, tick, 0) == Announced(State(), tick, i)
      {
        AnnounceKeeps(State(), i, tick);
        AnnouncedOpens(State(), tick, i);
        if tasks[i].cancelled && !tasks[i].audioCancelSent {
          msgQueue.PushMsg(Msg(tick, None, AudioCancelTask(Some(i))), CurrentOf(onScheduler));
          tasks := tasks[i := tasks[i].(audioCancelSent := true)];
        }
      }
      AnnouncedOpens(State(), tick, |tasks|);
    }

    /** `ylc_complete_current_task` */
    method CompleteCurrentTask()
      requires Valid()
      modifies this`tasks
      ensures Valid()
      ensures State() == if currentTask.Some? then Next(old(State()), Complete(currentTask.value)).0 else old(State())
    {
      hide Inv;
      hide Holds;
      if currentTask.Some? {
        InvLinked(State());
        StepKeeps(State(), Complete(currentTask.value));
        tasks := tasks[currentTask.value := tasks[currentTask.value].(completed := true)];
      }
    }

    /** `ylc_schedule_current_task_event`: the delay keeps its fraction, the event goes against the
        scheduler's clock. */
    method ScheduleCurrentTaskEvent(now: nat, delaySeconds: real)
      requires Valid()
      modifies this`tasks, this`nextSequence, queue, queue.events
      ensures Valid() && (queue.events == old(queue.events) || fresh(queue.events))
      ensures currentTask.None? || IsDone(currentTask.value) ==> State() == old(State())
      ensures currentTask.Some? && !IsDone(currentTask.value) ==>
                var t := currentTask.value;
                var d := Delays.TaskDelay(old(tasks[t].remainder), delaySeconds, sampleRate);
                var s1 := old(State()).(tasks := old(tasks)[t := old(tasks)[t].(remainder := d.remainder)]);
                Linked(s1.tasks) && State() == Next(s1, PushTask(t, now + d.samples, schedNow)).0
    {
      hide Inv;
      hide Holds;
      hide Delays.TaskDelay;
      if currentTask.None? || IsDone(currentTask.value) {
        return;
      }
      var t := currentTask.value;
      var d := Delays.TaskDelay(tasks[t].remainder, delaySeconds, sampleRate);
      RemainderKeeps(State(), t, d.remainder);
      tasks := tasks[t := tasks[t].(remainder := d.remainder)];
      PushTaskEvent(t, d.samples, now, schedNow);
    }

    /** `defer_quant`: an event at the next multiple of the grid on the audio clock. */
    method DeferQuant(gridSamples: nat)
      requires Valid() && gridSamples > 0
      modifies this`nextSequence, queue, queue.events
      ensures Valid() && (queue.events == old(queue.events) || fresh(queue.events))
      ensures State() == Next(old(State()), PushPlain(clock + Delays.ToNextMultiple(clock, gridSamples))).0
    {
      var remainder := Delays.ToNextMultiple(clock, gridSamples);
      PushEvent(remainder, clock);
    }

    /** `ylc_play_pattern_start`; `gridSamples` is the quantum in samples, 0 for none. The clock that a start is
        dispatched against is the scheduler thread's own as well: on another thread it is 0. */
    method PlayPatternStart(gridSamples: nat, onScheduler: bool) returns (task: Option<nat>)
      requires Valid()
      modifies this`tasks, this`nextSequence, queue, queue.events
      ensures Valid() && (queue.events == old(queue.events) || fresh(queue.events))
      ensures var current := CurrentOf(onScheduler);
              && (task.None? <==> current.Some? && old(IsDone(current.value)))
              && (task.None? ==> State() == old(State()))
              && (task.Some? ==>
                    var now := if current.Some? then TlTick() else clock;
                    var delay := if gridSamples == 0 then 0
                                 else Delays.ThroughSeconds(doubles, Delays.ToNextMultiple(now, gridSamples),
                                                            sampleRate);
                    var s1 := Next(old(State()), Start(current)).0;
                    && task.value == |old(tasks)| && Linked(s1.tasks)
                    && State() == Next(s1, PushTask(task.value, now + delay, if onScheduler then schedNow else 0)).0)
    {
      hide Inv;
      hide Holds;
      hide CreateTask;
      var current := CurrentOf(onScheduler);
      InvLinked(State());
      StepKeeps(State(), Start(current));
      if current.Some? && IsDone(current.value) {
        return None;
      }
      ghost var s1 := Next(State(), Start(current)).0;
      InvLinked(s1);
      var id := |tasks|;
      NewRemainder(tasks, current);
      tasks := CreateTask(tasks, current);
      var now := if current.Some? then TlTick() else clock;
      var delay := 0;
      if gridSamples > 0 {
        var remainder := Delays.ToNextMultiple(now, gridSamples);
        var seconds := doubles(remainder as real / Delays.Rate(sampleRate) as real);
        delay := Delays.SecondsToSamples(doubles, seconds, sampleRate);
      }
      PushTaskEvent(id, delay, now, if onScheduler then schedNow else 0);
      task := Some(id);
    }

    /** One event of `fire_events`. The callback is given by what it does before it returns. */
    method FireNext(reply: Reply) returns (fired: bool)
      requires Valid() && pendingBatch != []
      modifies this, queue, queue.events
      ensures Valid() && (queue.events == old(queue.events) || fresh(queue.events))
      ensures schedNow == old(schedNow) && clock == old(clock) && sampleRate == old(sampleRate)
      ensures fired <==> MayRun(old(tasks), old(pendingBatch[0].item.task))
      ensures fired ==> currentTask == None
      ensures curTick == if fired && old(pendingBatch[0].item.task).Some? then old(pendingBatch[0].item.tick)
                         else old(curTick)
      ensures var (s, e) := FireOne(old(State()), schedNow, reply);
              State() == s && (fired <==> e.Fired?) && (fired ==> e.call == old(pendingBatch[0].item))
    {
      hide Inv;
      hide Holds;
      hide AfterCall;
      InvLinked(State());
      StepKeeps(State(), Fire);
      BatchKnown(State());
      var event := pendingBatch[0];
      pendingBatch := pendingBatch[1..];
      if event.item.task.Some? && IsDone(event.item.task.value) {
        return false;
      }
      if event.item.task.Some? {
        curTick := event.item.tick;
        currentTask := event.item.task;
        Callback(event.item.task.value, event.item.tick, reply);
      }
      currentTask := None;
      fired := true;
    }

    /** A task's callback. */
    method Callback(task: nat, tick: nat, reply: Reply)
      requires Valid() && currentTask == Some(task)
      modifies this`tasks, this`nextSequence, queue, queue.events
      ensures Valid() && (queue.events == old(queue.events) || fresh(queue.events))
      ensures State() == AfterCall(old(State()), schedNow, task, tick, reply)
    {
      hide Inv;
      hide Holds;
      hide Next;
      if reply.cancels.Some? {
        MarkCancelled(reply.cancels.value);
      }
      match reply.finish
      case Waits(delay) => PushTaskEvent(task, delay, tick, schedNow);
      case Completes => CompleteCurrentTask();
      case Ends =>
    }

    /** The drain loop of the scheduler thread: collect and fire until nothing is due. */
    method Wakeup(now: nat, replies: nat -> Reply) returns (calls: seq<Call>)
      requires Valid() && pendingBatch == [] && Ready(State(), now) && Patient(replies)
      modifies this, queue, queue.events
      ensures Valid() && (State(), calls) == Drain(old(State()), now, replies, 0)
    {
      hide Inv;
      hide Ready;
      hide Holds;
      hide Total;
      hide FireOne;
      hide Next;
      schedNow := now;
      calls := [];
      var k := 0;
      ghost var s0 := State();
      DrainStart(Drain(s0, now, replies, 0));
      while true
        invariant Valid() && (queue.events == old(queue.events) || fresh(queue.events)) && schedNow == now
        invariant Ready(State(), now) && pendingBatch == []
        invariant Drain(s0, now, replies, 0) == Listed(calls, Drain(State(), now, replies, k))
        decreases Total(State(), now, None)
      {
        CollectWeighs(State(), now, None);
        DrainOpens(State(), now, replies, k);
        ghost var total := Total(State(), now, None);
        ReadyInv(State(), now);
        var count := CollectDueEvents(now);
        if count == 0 {
          DrainEnds(calls, State());
          return;
        }
        ghost var first := true;
        // `fire_events`
        while pendingBatch != []
          invariant Valid() && (queue.events == old(queue.events) || fresh(queue.events)) && schedNow == now
          invariant Ready(State(), now) && (first ==> pendingBatch != [])
          invariant Drain(s0, now, replies, 0) == Listed(calls, Drain(State(), now, replies, k))
          invariant Total(State(), now, None) <= total && (!first ==> Total(State(), now, None) < total)
          decreases Total(State(), now, None)
        {
          ghost var s := State();
          var call := pendingBatch[0].item;
          FireWeighs(s, now, replies(k), None);
          FiredListed(calls, s, now, replies, k);
          var fired := FireNext(replies(k));
          if fired {
            calls := calls + [call];
          }
          k := k + 1;
          first := false;
        }
        curTick := 0;
      }
    }
  }

  /** Calls made already, before those of the rest of the loop. */
  function Listed(calls: seq<Call>, rest: (Protocol.State, seq<Call>)): (Protocol.State, seq<Call>) {
    (rest.0, calls + rest.1)
  }

  lemma DrainStart(r: (Protocol.State, seq<Call>))
    ensures Listed([], r) == r
  {
    assert [] + r.1 == r.1;
  }

  lemma DrainEnds(calls: seq<Call>, s: Protocol.State)
    ensures Listed(calls, (s, [])) == (s, calls)
  {
    assert calls + [] == calls;
  }

  lemma DrainOpens(s: Protocol.State, now: nat, replies: nat -> Reply, k: nat)
    requires Ready(s, now) && Patient(replies) && s.batch == []
    ensures Linked(s.tasks)
    ensures var s' := Next(s, Collect(now)).0;
            && Ready(s', now)
            && Drain(s, now, replies, k) == if s'.batch == [] then (s, []) else Drain(s', now, replies, k)
  {
    CollectWeighs(s, now, None);
    InvLinked(s);
  }

  /** The messages of `cancel_task`, from task `i` on. */
  function Announced(s: Protocol.State, tick: nat, i: nat): Protocol.State
    requires i <= |s.tasks|
    decreases |s.tasks| - i
  {
    if i == |s.tasks| then s else Announced(NextAnnounce(s, i, tick).0, tick, i + 1)
  }

  lemma AnnouncedOpens(s: Protocol.State, tick: nat, i: nat)
    requires i <= |s.tasks|
    ensures Announced(s, tick, i) == if i == |s.tasks| then s else Announced(NextAnnounce(s, i, tick).0, tick, i + 1)
  {
  }

  lemma InvOlder(s: Protocol.State)
    requires Inv(s)
    ensures Older(s.queue, s.nextSequence)
  {
  }

  lemma BatchKnown(s: Protocol.State)
    requires Inv(s) && s.batch != []
    ensures s.batch[0].item.task.Some? ==> s.batch[0].item.task.value < |s.tasks|
  {
  }

  lemma {:induction false} CollectedIs(q: seq<Entry<Call>>, now: nat, most: nat, batch: seq<Entry<Call>>,
                                       rest: seq<Entry<Call>>)
    requires batch + rest == q && |batch| <= most
    requires forall i :: 0 <= i < |batch| ==> batch[i].tick <= now
    requires |batch| < most ==> rest == [] || rest[0].tick > now
    ensures var n := DueCount(q, now, most); n == |batch| && q[..n] == batch && q[n..] == rest
    decreases most
  {
    assert q[..|batch|] == batch && q[|batch|..] == rest;
    if batch != [] {
      assert q[0] == batch[0] && q[1..] == batch[1..] + rest;
      forall i | 0 <= i < |batch[1..]| ensures batch[1..][i].tick <= now {
        assert batch[1..][i] == batch[i + 1];
      }
      CollectedIs(q[1..], now, most - 1, batch[1..], rest);
    }
  }

  lemma RemaindersKept(ts: Tasks, id: nat)
    requires Linked(ts) && DownClosed(ts) && id < |ts|
    ensures var us := CancelFrom(ts, id);
            |us| == |ts| && forall i :: 0 <= i < |ts| ==> us[i].remainder == ts[i].remainder
  {
    hide Linked;
    hide DownClosed;
    hide CancelFrom;
    CancelCorrect(ts, id);
  }

  lemma RemainderKeeps(s: Protocol.State, t: nat, r: real)
    requires Inv(s) && t < |s.tasks|
    ensures Inv(s.(tasks := s.tasks[t := s.tasks[t].(remainder := r)]))
    ensures Linked(s.tasks[t := s.tasks[t].(remainder := r)])
  {
    hide Linked;
    hide DownClosed;
    hide EventOrder.Sorted;
    SameFlagsClosed(s.tasks, s.tasks[t := s.tasks[t].(remainder := r)]);
  }

  lemma NewRemainder(ts: Tasks, parent: Option<nat>)
    requires parent.Some? ==> parent.value < |ts|
    requires forall i :: 0 <= i < |ts| ==> 0.0 <= ts[i].remainder < 1.0
    ensures var us := CreateTask(ts, parent); forall i :: 0 <= i < |us| ==> 0.0 <= us[i].remainder < 1.0
  {
  }

  lemma FiredListed(calls: seq<Call>, s: Protocol.State, now: nat, replies: nat -> Reply, k: nat)
    requires Ready(s, now) && Patient(replies) && s.batch != []
    ensures Inv(s)
    ensures var (s', e) := FireOne(s, now, replies(k));
            && Ready(s', now)
            && Listed(calls, Drain(s, now, replies, k))
               == Listed(if e.Fired? then calls + [e.call] else calls, Drain(s', now, replies, k + 1))
  {
    hide Inv;
    hide FireOne;
    hide Total;
    ReadyInv(s, now);
    FireWeighs(s, now, replies(k), None);
    var (s', e) := FireOne(s, now, replies(k));
    var rest := Drain(s', now, replies, k + 1).1;
    if e.Fired? {
      assert calls + ([e.call] + rest) == calls + [e.call] + rest;
    } else {
      assert [] + rest == rest;
    }
  }

  lemma CancelOpens(ts: Tasks, id: nat)
    requires Linked(ts) && id < |ts|
    ensures var marked := ts[id := Cancelled(ts[id])];
            && Linked(marked)
            && (forall k :: 0 <= k < |marked[id].children| ==> id < marked[id].children[k] < |marked|)
            && CancelFrom(ts, id) == if ts[id].cancelled then ts else CancelAll(marked, id, marked[id].children)
  {
    SameLinked(ts, ts[id := Cancelled(ts[id])]);
    ChildrenLater(ts[id := Cancelled(ts[id])], id);
  }

  lemma CancelAllOpens(ts: Tasks, above: nat, ids: seq<nat>)
    requires Linked(ts) && above < |ts| && forall k :: 0 <= k < |ids| ==> above < ids[k] < |ts|
    ensures CancelAll(ts, above, ids) == if ids == [] then ts else CancelAll(CancelFrom(ts, ids[0]), above, ids[1..])
  {
  }

  lemma SameCancelled(ts: Tasks, id: nat)
    requires Linked(ts) && id < |ts|
    ensures Linked(CancelFrom(ts, id)) && |CancelFrom(ts, id)| == |ts|
  {
  }
}
