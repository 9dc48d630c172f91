/** What each step of the scheduler does, on tasks, flags and events (engine/scheduling.c), and that a wakeup fires
    every due event whose task is not done. */
module Firing {
  import opened Wrappers
  import opened EventOrder
  import opened TaskTree
  import opened AudioMessages
  import opened Protocol
  import opened BoundedWork

  // ---- The order of events -------------------------------------------------------------------

  /** Earlier ticks first, and of events for one tick the one that was pushed first. */
  predicate ByTick<T>(q: seq<Entry<T>>) {
    forall i, j :: 0 <= i < j < |q| ==>
                     q[i].tick < q[j].tick || (q[i].tick == q[j].tick && q[i].sequence < q[j].sequence)
  }

  /** Both queues keep that order in every run. */
  lemma QueuesByTick(s: State)
    requires Inv(s)
    ensures ByTick(s.queue) && ByTick(s.heap)
  {
    hide Linked;
    hide DownClosed;
    forall i, j | 0 <= i < j < |s.queue|
      ensures s.queue[i].tick < s.queue[j].tick
              || (s.queue[i].tick == s.queue[j].tick && s.queue[i].sequence < s.queue[j].sequence)
    {
      assert Before(s.queue[i], s.queue[j]);
    }
    forall i, j | 0 <= i < j < |s.heap|
      ensures s.heap[i].tick < s.heap[j].tick
              || (s.heap[i].tick == s.heap[j].tick && s.heap[i].sequence < s.heap[j].sequence)
    {
      assert Before(s.heap[i], s.heap[j]);
    }
  }

  // ---- One step ------------------------------------------------------------------------------

  /** A task event may fire, schedule and fork while its task is neither cancelled nor completed; an event without a
      task always may. */
  predicate MayRun(tasks: Tasks, task: Option<nat>) {
    task.Some? ==> task.value < |tasks| && !tasks[task.value].cancelled && !tasks[task.value].completed
  }

  /** The first event of the batch leaves it and nothing else changes; it fires if and only if it may. */
  lemma FireExact(s: State)
    requires Inv(s) && s.batch != []
    ensures Linked(s.tasks)
    ensures var (s', e) := Next(s, Fire);
            && s' == s.(batch := s.batch[1..])
            && e == if MayRun(s.tasks, s.batch[0].item.task) then Fired(s.batch[0].item) else Quiet
  {
    InvLinked(s);
  }

  /** Pushing for a task that may run adds one event with the tick asked for, to be dispatched 8192 ticks before it
      or, if that is not ahead, at the base; for any other task nothing happens. */
  lemma PushTaskExact(s: State, task: nat, target: nat, base: nat)
    requires Inv(s)
    ensures Linked(s.tasks)
    ensures var (s', e) := Next(s, PushTask(task, target, base));
            if MayRun(s.tasks, Some(task)) then
              var at := if target > base + 8192 then target - 8192 else base;
              && multiset(s'.queue) == multiset(s.queue) + multiset{Entry(at, s.nextSequence, Call(Some(task), target))}
              && s' == s.(queue := s'.queue, nextSequence := s.nextSequence + 1) && e == Scheduled(task)
            else s' == s && e == Quiet
  {
    hide Linked;
    hide DownClosed;
    hide EventOrder.Sorted;
    hide Insert;
    InvLinked(s);
    if MayRun(s.tasks, Some(task)) {
      InsertMultiset(s.queue, Entry(DispatchTick(target, base), s.nextSequence, Call(Some(task), target)));
    }
  }

  /** An event without a task is dispatched at its own tick. */
  lemma PushPlainExact(s: State, target: nat)
    requires Inv(s)
    ensures Linked(s.tasks)
    ensures var (s', e) := Next(s, PushPlain(target));
            && multiset(s'.queue) == multiset(s.queue) + multiset{Entry(target, s.nextSequence, Call(None, target))}
            && s' == s.(queue := s'.queue, nextSequence := s.nextSequence + 1) && e == Quiet
  {
    hide Inv;
    hide Insert;
    InvLinked(s);
    InsertMultiset(s.queue, Entry(target, s.nextSequence, Call(None, target)));
  }

  /** An empty batch is filled with the first events that are due, 64 at most; fewer only if no other is due. */
  lemma CollectExact(s: State, now: nat)
    requires Inv(s) && s.batch == []
    ensures Linked(s.tasks)
    ensures var (s', e) := Next(s, Collect(now));
            && s'.batch + s'.queue == s.queue && |s'.batch| <= 64
            && (forall i :: 0 <= i < |s'.batch| ==> s'.batch[i].tick <= now)
            && (|s'.batch| < 64 ==> forall i :: 0 <= i < |s'.queue| ==> s'.queue[i].tick > now)
            && s' == s.(batch := s'.batch, queue := s'.queue) && e == Quiet
  {
    hide Linked;
    hide DownClosed;
    hide DueCount;
    InvLinked(s);
    var n := DueCount(s.queue, now, MAX_BATCH);
    assert s.queue == s.queue[..n] + s.queue[n..];
    if n < 64 {
      forall i | 0 <= i < |s.queue[n..]| ensures s.queue[n..][i].tick > now {
        if i > 0 {
          assert Before(s.queue[n], s.queue[n + i]);
        }
      }
    }
  }

  /** Completing a task sets one flag. */
  lemma CompleteExact(s: State, task: nat)
    requires Inv(s) && task < |s.tasks|
    ensures Linked(s.tasks)
    ensures var (s', e) := Next(s, Complete(task));
            && s'.tasks[task].completed && s'.tasks[task] == s.tasks[task].(completed := true)
            && |s'.tasks| == |s.tasks| && (forall i :: 0 <= i < |s.tasks| && i != task ==> s'.tasks[i] == s.tasks[i])
            && s' == s.(tasks := s'.tasks) && e == Quiet
  {
    InvLinked(s);
  }

  /** Cancelling flags the task and what is below it, and nothing else. */
  lemma CancelExact(s: State, task: nat)
    requires Inv(s) && task < |s.tasks|
    ensures Linked(s.tasks)
    ensures var (s', e) := Next(s, Cancel(task));
            && |s'.tasks| == |s.tasks|
            && (forall i :: 0 <= i < |s.tasks| ==>
                  s'.tasks[i] == if Descends(s.tasks, task, i) then s.tasks[i].(cancelled := true) else s.tasks[i])
            && s' == s.(tasks := s'.tasks) && e == Quiet
  {
    hide Linked;
    hide DownClosed;
    hide EventOrder.Sorted;
    hide Descends;
    hide CancelFrom;
    InvLinked(s);
    CancelCorrect(s.tasks, task);
  }

  /** A start makes a task that is not done, below its parent, unless the parent is done. */
  lemma StartExact(s: State, parent: Option<nat>)
    requires Inv(s)
    ensures Linked(s.tasks)
    ensures var (s', e) := Next(s, Start(parent));
            var n := |s.tasks|;
            if MayRun(s.tasks, parent) then
              && |s'.tasks| == n + 1 && s'.tasks[n] == Task(false, false, false, 0.0, parent, [])
              && (forall i :: 0 <= i < n ==>
                    s'.tasks[i] == if Some(i) == parent then s.tasks[i].(children := s.tasks[i].children + [n])
                                   else s.tasks[i])
              && s' == s.(tasks := s'.tasks) && e == Forked(parent, n)
            else s' == s && e == Quiet
  {
    InvLinked(s);
  }

  /** A cancelled task is announced once, by a message in the ring unless that is full. */
  lemma AnnounceExact(s: State, task: nat, tick: nat)
    requires Inv(s) && task < |s.tasks|
    ensures Linked(s.tasks)
    ensures var (s', e) := Next(s, Announce(task, tick));
            && e == Quiet
            && (if s.tasks[task].cancelled && !s.tasks[task].audioCancelSent then
                  && s'.tasks == s.tasks[task := s.tasks[task].(audioCancelSent := true)]
                  && s'.fifo == (if |s.fifo| == 256 then s.fifo
                                 else s.fifo + [Msg(tick, None, AudioCancelTask(Some(task)))])
                  && s' == s.(tasks := s'.tasks, fifo := s'.fifo)
                else s' == s)
  {
    InvLinked(s);
  }

  /** A message goes last into the ring, unless that is full. */
  lemma InstructionExact(s: State, msg: Msg)
    requires Inv(s)
    ensures Linked(s.tasks)
    ensures var (s', e) := Next(s, PushInstruction(msg));
            s' == s.(fifo := if |s.fifo| == 256 then s.fifo else s.fifo + [msg]) && e == Quiet
  {
    InvLinked(s);
  }

  /** The audio thread takes the first message: into its heap, at the message's tick, or nowhere if that is full. */
  lemma TakeExact(s: State)
    requires Inv(s) && s.fifo != []
    ensures Linked(s.tasks)
    ensures var (s', e) := Next(s, AudioTake);
            && e == Quiet && s'.fifo == s.fifo[1..]
            && (if |s.heap| < 256 then
                  && multiset(s'.heap) == multiset(s.heap) + multiset{Entry(s.fifo[0].tick, s.audioSequence, s.fifo[0])}
                  && s' == s.(fifo := s'.fifo, heap := s'.heap, audioSequence := s.audioSequence + 1)
                else s' == s.(fifo := s'.fifo))
  {
    hide Linked;
    hide DownClosed;
    hide EventOrder.Sorted;
    hide Insert;
    InvLinked(s);
    InsertMultiset(s.heap, Entry(s.fifo[0].tick, s.audioSequence, s.fifo[0]));
  }

  /** The audio thread takes the first event before `end`; it is applied if and only if it is no cancellation and no
      cancellation of its task is recorded for its tick or an earlier one. */
  lemma AudioNextExact(s: State, end: nat)
    requires Inv(s)
    ensures Linked(s.tasks)
    ensures var (s', e) := Next(s, AudioNext(end));
            if s.heap != [] && s.heap[0].tick < end then
              var msg := s.heap[0].item;
              && s' == s.(heap := s.heap[1..], table := s'.table)
              && (!msg.payload.AudioCancelTask? || msg.payload.cancelled.None? ==> s'.table == s.table)
              && (e == Applied(msg)
                  <==> !msg.payload.AudioCancelTask?
                       && !exists i :: 0 <= i < |s.table| && Some(s.table[i].task) == msg.task
                                       && s.table[i].tick <= msg.tick)
              && (e == Applied(msg) || e == Quiet)
            else s' == s && e == Quiet
  {
    hide RecordCancellation;
    InvLinked(s);
  }

  // ---- A wakeup ----------------------------------------------------------------------------------

  /** An event whose turn comes in a wakeup, with the tasks at that moment. */
  datatype Turn = Turn(event: Entry<Call>, tasks: Tasks)

  /** The turns of the drain loop from the `k`-th reply on. */
  ghost function Turns(s: State, now: nat, replies: nat -> Reply, k: nat): seq<Turn>
    requires Ready(s, now) && Patient(replies)
    decreases Total(s, now, None), |s.batch| == 0
  {
    if s.batch == [] then
      CollectWeighs(s, now, None);
      InvLinked(s);
      var s' := Next(s, Collect(now)).0;
      if s'.batch == [] then [] else Turns(s', now, replies, k)
    else
      FireWeighs(s, now, replies(k), None);
      [Turn(s.batch[0], s.tasks)] + Turns(FireOne(s, now, replies(k)).0, now, replies, k + 1)
  }

  /** The calls of the turns in which the event may run. */
  function CallsOf(turns: seq<Turn>): seq<Call> {
    if turns == [] then []
    else (if MayRun(turns[0].tasks, turns[0].event.item.task) then [turns[0].event.item] else []) + CallsOf(turns[1..])
  }

  function Events(turns: seq<Turn>): (r: seq<Entry<Call>>)
    ensures |r| == |turns| && forall i :: 0 <= i < |turns| ==> r[i] == turns[i].event
  {
    seq(|turns|, i requires 0 <= i < |turns| => turns[i].event)
  }

  /** The drain loop calls, in order, exactly the events that may run when their turn comes. */
  lemma {:induction false} DrainCalls(s: State, now: nat, replies: nat -> Reply, k: nat)
    requires Ready(s, now) && Patient(replies)
    ensures Drain(s, now, replies, k).1 == CallsOf(Turns(s, now, replies, k))
    decreases Total(s, now, None), |s.batch| == 0
  {
    hide Ready;
    hide Total;
    hide MayRun;
    ReadyInv(s, now);
    if s.batch == [] {
      CollectWeighs(s, now, None);
      var s' := Next(s, Collect(now)).0;
      hide Next;
      if s'.batch != [] {
        DrainCalls(s', now, replies, k);
      }
    } else {
      FireWeighs(s, now, replies(k), None);
      FireExact(s);
      var (s', e) := FireOne(s, now, replies(k));
      FireEffect(s, now, replies(k));
      hide FireOne;
      hide Next;
      DrainCalls(s', now, replies, k + 1);
      var first, rest := Turn(s.batch[0], s.tasks), Turns(s', now, replies, k + 1);
      assert ([first] + rest)[1..] == rest;
    }
  }

  lemma FireEffect(s: State, now: nat, reply: Reply)
    requires Inv(s)
    ensures Linked(s.tasks) && FireOne(s, now, reply).1 == Next(s, Fire).1
  {
    hide Inv;
    hide AfterCall;
    InvLinked(s);
  }

  /** What a callback does to the scheduler: it cancels first, if it does, then it waits, completes or just ends. */
  lemma CallExact(s: State, now: nat, task: nat, tick: nat, reply: Reply)
    requires Inv(s)
    ensures Linked(s.tasks)
    ensures var s1 := if reply.cancels.Some? then Next(s, Cancel(reply.cancels.value)).0 else s;
            && Linked(s1.tasks)
            && (reply.finish.Waits? ==>
                  AfterCall(s, now, task, tick, reply) == Next(s1, PushTask(task, tick + reply.finish.delay, now)).0)
            && (reply.finish.Completes? ==> AfterCall(s, now, task, tick, reply) == Next(s1, Complete(task)).0)
            && (reply.finish.Ends? ==> AfterCall(s, now, task, tick, reply) == s1)
  {
    hide Next;
    InvLinked(s);
    if reply.cancels.Some? {
      StepKeeps(s, Cancel(reply.cancels.value));
      InvLinked(Next(s, Cancel(reply.cancels.value)).0);
    }
  }

  /** How often an event is among some. */
  function Among(e: Entry<Call>, q: seq<Entry<Call>>): nat {
    multiset(q)[e]
  }

  lemma AmongBoth(e: Entry<Call>, a: seq<Entry<Call>>, b: seq<Entry<Call>>)
    ensures Among(e, a + b) == Among(e, a) + Among(e, b)
  {
    assert multiset(a + b) == multiset(a) + multiset(b);
  }

  lemma AmongLate(e: Entry<Call>, q: seq<Entry<Call>>, now: nat)
    requires e.tick <= now && forall i :: 0 <= i < |q| ==> q[i].tick > now
    ensures Among(e, q) == 0
  {
    assert e !in q;
  }

  lemma AmongDue(e: Entry<Call>, q: seq<Entry<Call>>, now: nat)
    requires e.tick > now && forall i :: 0 <= i < |q| ==> q[i].tick <= now
    ensures Among(e, q) == 0
  {
    assert e !in q;
  }

  /** Firing pushes only events with new numbers. */
  lemma OldEventsStay(s: State, now: nat, reply: Reply, e: Entry<Call>)
    requires Inv(s) && s.batch != [] && e.sequence < s.nextSequence
    ensures var s' := FireOne(s, now, reply).0;
            && s'.nextSequence >= s.nextSequence && Among(e, s'.queue) == Among(e, s.queue)
            && s'.batch == s.batch[1..]
  {
    hide Inv;
    hide AfterCall;
    InvLinked(s);
    StepKeeps(s, Fire);
    FireExact(s);
    var (s1, effect) := Next(s, Fire);
    if effect.Fired? && effect.call.task.Some? {
      CallPushesNew(s1, now, effect.call.task.value, effect.call.tick, reply, e);
    }
  }

  lemma CallPushesNew(s: State, now: nat, task: nat, tick: nat, reply: Reply, e: Entry<Call>)
    requires Inv(s) && e.sequence < s.nextSequence
    ensures var s' := AfterCall(s, now, task, tick, reply);
            && s'.nextSequence >= s.nextSequence && Among(e, s'.queue) == Among(e, s.queue) && s'.batch == s.batch
  {
    hide Inv;
    hide Next;
    var cancel := if reply.cancels.Some? then Cancel(reply.cancels.value) else Fire;
    InvLinked(s);
    StepKeeps(s, cancel);
    var s1 := if reply.cancels.Some? then Next(s, cancel).0 else s;
    if reply.cancels.Some? {
      CancelQueue(s, reply.cancels.value);
    }
    InvLinked(s1);
    var step := StepOf(reply.finish, task, tick, now);
    StepKeeps(s1, step);
    match reply.finish
    case Waits(delay) => PushNew(s1, task, tick + delay, now, e);
    case Completes => CompleteQueue(s1, task);
    case Ends =>
  }

  lemma CancelQueue(s: State, task: nat)
    requires Inv(s)
    ensures Linked(s.tasks)
    ensures var s' := Next(s, Cancel(task)).0;
            s'.queue == s.queue && s'.batch == s.batch && s'.nextSequence == s.nextSequence
  {
    hide CancelFrom;
    InvLinked(s);
  }

  lemma CompleteQueue(s: State, task: nat)
    requires Inv(s)
    ensures Linked(s.tasks)
    ensures var s' := Next(s, Complete(task)).0;
            s'.queue == s.queue && s'.batch == s.batch && s'.nextSequence == s.nextSequence
  {
    InvLinked(s);
  }

  lemma PushNew(s: State, task: nat, target: nat, base: nat, e: Entry<Call>)
    requires Inv(s) && e.sequence < s.nextSequence
    ensures Linked(s.tasks)
    ensures var s' := Next(s, PushTask(task, target, base)).0;
            s'.nextSequence >= s.nextSequence && Among(e, s'.queue) == Among(e, s.queue) && s'.batch == s.batch
  {
    hide MayRun;
    PushTaskExact(s, task, target, base);
    hide Next;
    hide Inv;
  }

  /** Every event that is there when a wakeup begins has as many turns as it is due: a pending event that is due has
      one turn, and one that is not due has none. */
  lemma {:induction false} DueHaveTurns(s: State, now: nat, replies: nat -> Reply, k: nat, e: Entry<Call>)
    requires Ready(s, now) && Patient(replies) && e.sequence < s.nextSequence
    ensures Among(e, Events(Turns(s, now, replies, k)))
         == Among(e, s.batch) + if e.tick <= now then Among(e, s.queue) else 0
    decreases Total(s, now, None), |s.batch| == 0
  {
    hide Total;
    hide Among;
    hide FireOne;
    hide Ready;
    hide Inv;
    NoEvents(e);
    ReadyInv(s, now);
    if s.batch == [] {
      CollectWeighs(s, now, None);
      CollectExact(s, now);
      var s' := Next(s, Collect(now)).0;
      hide Next;
      AmongBoth(e, s'.batch, s'.queue);
      if s'.batch != [] {
        DueHaveTurns(s', now, replies, k, e);
        if e.tick > now {
          AmongDue(e, s'.batch, now);
        }
      } else if e.tick <= now {
        AmongLate(e, s'.queue, now);
      }
    } else {
      FireWeighs(s, now, replies(k), None);
      OldEventsStay(s, now, replies(k), e);
      hide Next;
      var s' := FireOne(s, now, replies(k)).0;
      DueHaveTurns(s', now, replies, k + 1, e);
      var first, rest := Turn(s.batch[0], s.tasks), Turns(s', now, replies, k + 1);
      assert Events([first] + rest) == [first.event] + Events(rest);
      AmongBoth(e, [first.event], Events(rest));
      assert s.batch == [s.batch[0]] + s.batch[1..];
      AmongBoth(e, [s.batch[0]], s.batch[1..]);
    }
  }

  lemma NoEvents(e: Entry<Call>)
    ensures Among(e, []) == 0 && Events([]) == []
  {
  }

  /** In a wakeup every pending event that is due and has no task is called, and so is every other one that is due if
      its task is not done when its turn comes; nothing else that is pending is called. */
  lemma WakeupFires(s: State, now: nat, replies: nat -> Reply, i: nat)
    requires Ready(s, now) && Patient(replies) && s.batch == [] && i < |s.queue|
    ensures var e, turns, calls := s.queue[i], Turns(s, now, replies, 0), Drain(s, now, replies, 0).1;
            && calls == CallsOf(turns)
            && Among(e, Events(turns)) == (if e.tick <= now then 1 else 0)
            && (e.tick <= now && e.item.task.None? ==> e.item in calls)
            && forall j :: 0 <= j < |turns| && turns[j].event == e && MayRun(turns[j].tasks, e.item.task) ==>
                             e.item in calls
  {
    hide Turns;
    hide Drain;
    hide Total;
    var e, turns := s.queue[i], Turns(s, now, replies, 0);
    DrainCalls(s, now, replies, 0);
    PendingOnce(s, i);
    DueHaveTurns(s, now, replies, 0, e);
    forall j | 0 <= j < |turns| && turns[j].event == e && MayRun(turns[j].tasks, e.item.task)
      ensures e.item in CallsOf(turns)
    {
      CalledAt(turns, j);
    }
    if e.tick <= now && e.item.task.None? {
      assert e in multiset(Events(turns));
      var j :| 0 <= j < |Events(turns)| && Events(turns)[j] == e;
      CalledAt(turns, j);
    }
  }

  lemma PendingOnce(s: State, i: nat)
    requires Inv(s) && i < |s.queue|
    ensures Among(s.queue[i], s.queue) == 1 && s.queue[i].sequence < s.nextSequence
    ensures Among(s.queue[i], []) == 0
  {
    hide Linked;
    hide DownClosed;
    var e, a, b := s.queue[i], s.queue[..i], s.queue[i + 1..];
    assert s.queue == a + [e] + b;
    assert multiset(s.queue) == multiset(a) + multiset{e} + multiset(b);
    forall j | 0 <= j < i ensures a[j] != e {
      assert Before(s.queue[j], e);
    }
    forall j | 0 <= j < |b| ensures b[j] != e {
      assert b[j] == s.queue[i + 1 + j] && Before(e, s.queue[i + 1 + j]);
    }
  }

  lemma {:induction false} CalledAt(turns: seq<Turn>, j: nat)
    requires j < |turns| && MayRun(turns[j].tasks, turns[j].event.item.task)
    ensures turns[j].event.item in CallsOf(turns)
    decreases j
  {
    if j > 0 {
      CalledAt(turns[1..], j - 1);
    }
  }
}
