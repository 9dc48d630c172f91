/** The drain loop of the scheduler thread (engine/scheduling.c): one wakeup collects and fires until
    nothing is due. When every step of a task waits at least one sample and forks nothing, the loop
    ends, a task fires no more often than there are ticks left before the lookahead horizon, and what
    stays behind lies beyond that horizon. */
module BoundedWork {
  import opened Wrappers
  import opened EventOrder
  import opened TaskTree
  import opened AudioMessages
  import opened Protocol

  /** What a callback does before it returns: it may cancel a task, then it completes, waits or just ends. */
  datatype Reply = Reply(cancels: Option<nat>, finish: After)
  datatype After = Waits(delay: nat) | Completes | Ends

  /** Every wait is one sample or longer. */
  ghost predicate Patient(replies: nat -> Reply) {
    forall k :: replies(k).finish.Waits? ==> replies(k).finish.delay >= 1
  }

  /** Task events are early by the lookahead at most, and exactly by the lookahead when they lie ahead. */
  predicate Timed(q: seq<Entry<Call>>, now: nat) {
    forall i :: 0 <= i < |q| && q[i].item.task.Some? ==>
                  q[i].item.tick <= q[i].tick + LOOKAHEAD
                      && (q[i].tick > now ==> q[i].item.tick == q[i].tick + LOOKAHEAD)
  }

  /** Every event of the batch is due. */
  predicate Due(batch: seq<Entry<Call>>, now: nat) {
    forall i :: 0 <= i < |batch| ==> batch[i].tick <= now
  }

  ghost predicate Ready(s: State, now: nat) {
    Inv(s) && Timed(s.queue, now) && Timed(s.batch, now) && Due(s.batch, now)
  }

  /** Time passes: events stay timed. */
  lemma TimedLater(q: seq<Entry<Call>>, now: nat, later: nat)
    requires Timed(q, now) && now <= later
    ensures Timed(q, later)
  {
  }

  /** Every step keeps task events timed, if nothing is pushed against a later clock than `now`. */
  lemma StepTimed(s: State, step: Step, now: nat)
    requires Inv(s) && Timed(s.queue, now) && Timed(s.batch, now) && (step.PushTask? ==> step.base <= now)
    ensures Linked(s.tasks)
    ensures var s' := Next(s, step).0; Timed(s'.queue, now) && Timed(s'.batch, now)
  {
    hide Inv;
    hide Next;
    hide Timed;
    InvLinked(s);
    if step.PushTask? {
      TaskStep(s, step, now);
    } else if step.PushPlain? {
      PlainStep(s, step, now);
    } else if step.Collect? {
      CollectStep(s, step, now);
    } else if step.Fire? {
      FireStep(s, step, now);
    } else {
      OtherSteps(s, step);
    }
  }

  lemma TaskStep(s: State, step: Step, now: nat)
    requires Linked(s.tasks) && step.PushTask? && step.base <= now && Timed(s.queue, now) && Timed(s.batch, now)
    ensures var s' := Next(s, step).0; Timed(s'.queue, now) && Timed(s'.batch, now)
  {
    hide Linked;
    hide Timed;
    hide WithPush;
    hide DispatchTick;
    PushTimed(s, step.target, step.base, step.task, now);
    BatchStays(s, DispatchTick(step.target, step.base), Call(Some(step.task), step.target));
  }

  lemma PlainStep(s: State, step: Step, now: nat)
    requires Linked(s.tasks) && step.PushPlain? && Timed(s.queue, now) && Timed(s.batch, now)
    ensures var s' := Next(s, step).0; Timed(s'.queue, now) && Timed(s'.batch, now)
  {
    hide Linked;
    hide Timed;
    hide Insert;
    PlainTimed(s, step.target, now);
    InsertTimed(s.queue, Entry(step.target, s.nextSequence, Call(None, step.target)), now);
  }

  lemma BatchStays(s: State, dispatch: nat, call: Call)
    ensures WithPush(s, dispatch, call).batch == s.batch
  {
    hide Insert;
  }

  lemma CollectStep(s: State, step: Step, now: nat)
    requires Linked(s.tasks) && step.Collect? && Timed(s.queue, now) && Timed(s.batch, now)
    ensures var s' := Next(s, step).0; Timed(s'.queue, now) && Timed(s'.batch, now)
  {
    hide Linked;
  }

  lemma FireStep(s: State, step: Step, now: nat)
    requires Linked(s.tasks) && step.Fire? && Timed(s.queue, now) && Timed(s.batch, now)
    ensures var s' := Next(s, step).0; Timed(s'.queue, now) && Timed(s'.batch, now)
  {
    hide Linked;
  }

  lemma PlainTimed(s: State, target: nat, now: nat)
    ensures Timed([Entry(target, s.nextSequence, Call(None, target))], now)
  {
  }

  lemma PushTimed(s: State, target: nat, base: nat, task: nat, now: nat)
    requires Timed(s.queue, now) && base <= now
    ensures Timed(WithPush(s, DispatchTick(target, base), Call(Some(task), target)).queue, now)
  {
    hide Insert;
    hide DispatchTick;
    InsertTimed(s.queue, Entry(DispatchTick(target, base), s.nextSequence, Call(Some(task), target)), now);
  }

  lemma OtherSteps(s: State, step: Step)
    requires Linked(s.tasks) && !step.PushTask? && !step.PushPlain? && !step.Collect? && !step.Fire?
    ensures Next(s, step).0.queue == s.queue && Next(s, step).0.batch == s.batch
  {
    hide Linked;
    hide CancelFrom;
    hide CreateTask;
    hide TableAfter;
    hide Insert;
  }

  // ---- The loop ------------------------------------------------------------------------------

  /** The fire step and what the callback does in it, at the clock `now` of this wakeup. */
  function FireOne(s: State, now: nat, reply: Reply): (r: (State, Effect))
    requires Inv(s)
    ensures Inv(r.0)
  {
    StepKeeps(s, Fire);
    var (s1, e) := Next(s, Fire);
    if e.Fired? && e.call.task.Some? then (AfterCall(s1, now, e.call.task.value, e.call.tick, reply), e)
    else (s1, e)
  }

  function AfterCall(s: State, now: nat, task: nat, tick: nat, reply: Reply): (r: State)
    requires Inv(s)
    ensures Inv(r)
  {
    var cancel := if reply.cancels.Some? then Cancel(reply.cancels.value) else Fire;
    StepKeeps(s, cancel);
    var s1 := if reply.cancels.Some? then Next(s, cancel).0 else s;
    var step := StepOf(reply.finish, task, tick, now);
    StepKeeps(s1, step);
    if reply.finish.Ends? then s1 else Next(s1, step).0
  }

  function StepOf(after: After, task: nat, tick: nat, now: nat): Step {
    match after
    case Waits(delay) => PushTask(task, tick + delay, now)
    case Completes => Complete(task)
    case Ends => Complete(task)
  }

  // ---- Weights -----------------------------------------------------------------------------------

  /** How many ticks are left up to the horizon. */
  function Budget(tick: nat, now: nat): nat {
    if tick <= now + LOOKAHEAD then now + LOOKAHEAD + 1 - tick else 0
  }

  /** The most an event can still fire in this wakeup; with `who`, only events of that task count. */
  function Weight(e: Entry<Call>, now: nat, who: Option<nat>): nat {
    if who.Some? && e.item.task != who then 0
    else if e.item.task.Some? then Budget(e.item.tick, now)
    else if e.tick <= now then 1 else 0
  }

  function Sum(q: seq<Entry<Call>>, now: nat, who: Option<nat>): nat {
    if q == [] then 0 else Weight(q[0], now, who) + Sum(q[1..], now, who)
  }

  function Total(s: State, now: nat, who: Option<nat>): nat {
    Sum(s.queue, now, who) + Sum(s.batch, now, who)
  }

  lemma {:induction false} SumInsert(q: seq<Entry<Call>>, e: Entry<Call>, now: nat, who: Option<nat>)
    ensures Sum(Insert(q, e), now, who) == Sum(q, now, who) + Weight(e, now, who)
  {
    hide Weight;
    hide Before;
    if q == [] || Before(e, q[0]) {
      assert ([e] + q)[1..] == q;
    } else {
      SumInsert(q[1..], e, now, who);
      assert ([q[0]] + Insert(q[1..], e))[1..] == Insert(q[1..], e);
    }
  }

  lemma {:induction false} SumSplit(q: seq<Entry<Call>>, n: nat, now: nat, who: Option<nat>)
    requires n <= |q|
    ensures Sum(q, now, who) == Sum(q[..n], now, who) + Sum(q[n..], now, who)
    decreases n
  {
    hide Weight;
    if n == 0 {
      assert q[0..] == q && q[..0] == [];
    } else {
      SumSplit(q[1..], n - 1, now, who);
      assert q[..n][1..] == q[1..][..n - 1] && q[n..] == q[1..][n - 1..];
    }
  }

  /** What one more call counts. */
  function Counts(e: Effect, who: Option<nat>): nat {
    if e.Fired? && (who.None? || e.call.task == who) then 1 else 0
  }

  lemma CollectTimed(s: State, now: nat)
    requires Timed(s.queue, now)
    ensures var n := DueCount(s.queue, now, MAX_BATCH);
            && n <= |s.queue|
            && Timed(s.queue[..n], now) && Due(s.queue[..n], now) && Timed(s.queue[n..], now)
            && (n == 0 ==> s.queue == [] || s.queue[0].tick > now)
  {
    hide DueCount;
    var n := DueCount(s.queue, now, MAX_BATCH);
    forall i | 0 <= i < |s.queue| - n ensures s.queue[n..][i] == s.queue[n + i] {
    }
  }

  lemma CollectWeighs(s: State, now: nat, who: Option<nat>)
    requires Ready(s, now) && s.batch == []
    ensures var s' := Next(s, Collect(now)).0;
            && Ready(s', now) && Total(s', now, who) == Total(s, now, who)
            && (s'.batch == [] ==> s' == s && (s.queue == [] || s.queue[0].tick > now))
  {
    hide Inv;
    hide Sum;
    hide Timed;
    hide Due;
    InvLinked(s);
    StepKeeps(s, Collect(now));
    CollectTimed(s, now);
    var n := DueCount(s.queue, now, MAX_BATCH);
    SumSplit(s.queue, n, now, who);
    NothingWeighs(now, who);
    if n == 0 {
      assert s.queue[0..] == s.queue && s.queue[..0] == [];
    }
  }

  lemma NothingWeighs(now: nat, who: Option<nat>)
    ensures Sum([], now, who) == 0
  {
  }

  /** Each event of the batch leaves; a task that waits comes back lighter. */
  lemma FireWeighs(s: State, now: nat, reply: Reply, who: Option<nat>)
    requires Ready(s, now) && s.batch != [] && (reply.finish.Waits? ==> reply.finish.delay >= 1)
    ensures var (s', e) := FireOne(s, now, reply);
            && Ready(s', now)
            && s'.batch == s.batch[1..]
            && Counts(e, who) + Total(s', now, who) <= Total(s, now, who)
            && Total(s', now, None) < Total(s, now, None)
  {
    hide Inv;
    hide Sum;
    hide AfterCall;
    hide Weight;
    InvLinked(s);
    StepKeeps(s, Fire);
    var first := s.batch[0];
    var (s1, e) := Next(s, Fire);
    SumHead(s.batch, now, who);
    SumHead(s.batch, now, None);
    DueWeighs(first, now, who);
    DueWeighs(first, now, None);
    if e.Fired? && first.item.task.Some? {
      CallWeighs(s1, now, first.item.task.value, first.item.tick, reply, who);
      CallWeighs(s1, now, first.item.task.value, first.item.tick, reply, None);
      Lighter(first, now, who);
      Lighter(first, now, None);
    }
  }

  lemma SumHead(q: seq<Entry<Call>>, now: nat, who: Option<nat>)
    requires q != []
    ensures Sum(q, now, who) == Weight(q[0], now, who) + Sum(q[1..], now, who)
  {
  }

  lemma DueWeighs(e: Entry<Call>, now: nat, who: Option<nat>)
    requires e.tick <= now && (e.item.task.Some? ==> e.item.tick <= e.tick + LOOKAHEAD)
    ensures who.None? || e.item.task == who ==> Weight(e, now, who) >= 1
  {
  }

  /** The weight of an event of the same task at a later tick. */
  function WeightLater(task: nat, tick: nat, now: nat, who: Option<nat>): nat {
    if who.Some? && who != Some(task) then 0 else Budget(tick + 1, now)
  }

  lemma Lighter(e: Entry<Call>, now: nat, who: Option<nat>)
    requires e.item.task.Some? && e.tick <= now && e.item.tick <= e.tick + LOOKAHEAD
    ensures var later := WeightLater(e.item.task.value, e.item.tick, now, who);
            && later + (if who.None? || e.item.task == who then 1 else 0) == Weight(e, now, who)
  {
  }

  lemma CallWeighs(s: State, now: nat, task: nat, tick: nat, reply: Reply, who: Option<nat>)
    requires Ready(s, now) && (reply.finish.Waits? ==> reply.finish.delay >= 1)
    ensures var s' := AfterCall(s, now, task, tick, reply);
            && Ready(s', now) && s'.batch == s.batch
            && Total(s', now, who) <= Total(s, now, who) + WeightLater(task, tick, now, who)
  {
    hide Inv;
    hide Sum;
    hide WithPush;
    hide CancelFrom;
    var cancel := if reply.cancels.Some? then Cancel(reply.cancels.value) else Fire;
    InvLinked(s);
    StepKeeps(s, cancel);
    var s1 := if reply.cancels.Some? then Next(s, cancel).0 else s;
    InvLinked(s1);
    assert s1.queue == s.queue && s1.batch == s.batch;
    var step := StepOf(reply.finish, task, tick, now);
    StepKeeps(s1, step);
    if reply.finish.Waits? && task < |s1.tasks| && !DoneIn(s1, task) {
      PushWeighs(s1, now, task, tick, reply.finish.delay, who);
    }
  }

  lemma PushWeighs(s: State, now: nat, task: nat, tick: nat, delay: nat, who: Option<nat>)
    requires Timed(s.queue, now) && delay >= 1
    ensures var s' := WithPush(s, DispatchTick(tick + delay, now), Call(Some(task), tick + delay));
            && Timed(s'.queue, now) && s'.batch == s.batch
            && Total(s', now, who) <= Total(s, now, who) + WeightLater(task, tick, now, who)
  {
    hide Sum;
    hide Insert;
    hide DispatchTick;
    var e := Entry(DispatchTick(tick + delay, now), s.nextSequence, Call(Some(task), tick + delay));
    SumInsert(s.queue, e, now, who);
    InsertTimed(s.queue, e, now);
  }

  lemma InsertTimed(q: seq<Entry<Call>>, e: Entry<Call>, now: nat)
    requires Timed(q, now) && Timed([e], now)
    ensures Timed(Insert(q, e), now)
  {
    InsertMultiset(q, e);
    forall i | 0 <= i < |Insert(q, e)|
      ensures Insert(q, e)[i] == e || Insert(q, e)[i] in q
    {
      assert Insert(q, e)[i] in multiset(Insert(q, e));
    }
    assert [e][0] == e;
  }

  // ---- The drain loop ---------------------------------------------------------------------------------

  /** The loop from the `k`-th reply on; the calls made are listed in order. */
  function Drain(s: State, now: nat, replies: nat -> Reply, k: nat): (r: (State, seq<Call>))
    requires Ready(s, now) && Patient(replies)
    decreases Total(s, now, None), |s.batch| == 0
  {
    if s.batch == [] then
      CollectWeighs(s, now, None);
      InvLinked(s);
      var s' := Next(s, Collect(now)).0;
      if s'.batch == [] then (s, []) else Drain(s', now, replies, k)
    else
      FireWeighs(s, now, replies(k), None);
      var (s', e) := FireOne(s, now, replies(k));
      var (r, calls) := Drain(s', now, replies, k + 1);
      (r, (if e.Fired? then [e.call] else []) + calls)
  }

  function CountCalls(calls: seq<Call>, task: nat): nat {
    if calls == [] then 0 else (if calls[0].task == Some(task) then 1 else 0) + CountCalls(calls[1..], task)
  }

  lemma CountOne(e: Effect, calls: seq<Call>, task: nat)
    ensures CountCalls((if e.Fired? then [e.call] else []) + calls, task)
            == Counts(e, Some(task)) + CountCalls(calls, task)
  {
    if e.Fired? {
      assert ([e.call] + calls)[1..] == calls;
    } else {
      assert [] + calls == calls;
    }
  }

  /** The calls of a task stay within its weight, and afterwards nothing is due. */
  lemma {:induction false} DrainBounded(s: State, now: nat, replies: nat -> Reply, k: nat, task: nat)
    requires Ready(s, now) && Patient(replies)
    ensures var (r, calls) := Drain(s, now, replies, k);
            && Ready(r, now) && r.batch == [] && (r.queue == [] || r.queue[0].tick > now)
            && CountCalls(calls, task) <= Total(s, now, Some(task))
    decreases Total(s, now, None), |s.batch| == 0
  {
    hide Ready;
    hide Total;
    hide FireOne;
    hide Next;
    hide CountCalls;
    NoCalls(task);
    ReadyInv(s, now);
    if s.batch == [] {
      CollectWeighs(s, now, None);
      CollectWeighs(s, now, Some(task));
      var s' := Next(s, Collect(now)).0;
      if s'.batch != [] {
        DrainBounded(s', now, replies, k, task);
      }
    } else {
      FireWeighs(s, now, replies(k), None);
      FireWeighs(s, now, replies(k), Some(task));
      var (s', e) := FireOne(s, now, replies(k));
      DrainBounded(s', now, replies, k + 1, task);
      CountOne(e, Drain(s', now, replies, k + 1).1, task);
    }
  }

  lemma NoCalls(task: nat)
    ensures CountCalls([], task) == 0
  {
  }

  lemma ReadyInv(s: State, now: nat)
    requires Ready(s, now)
    ensures Inv(s) && Linked(s.tasks)
  {
  }

  /** The only pending event of a task, at position `i` of the queue. */
  predicate OnlyEvent(q: seq<Entry<Call>>, task: nat, i: nat) {
    i < |q| && forall j :: 0 <= j < |q| ==> (q[j].item.task == Some(task) <==> j == i)
  }

  lemma {:induction false} SumOnly(q: seq<Entry<Call>>, now: nat, task: nat, i: nat)
    requires OnlyEvent(q, task, i)
    ensures Sum(q, now, Some(task)) == Budget(q[i].item.tick, now)
    decreases i
  {
    hide Budget;
    if i == 0 {
      assert q[0].item.task == Some(task);
      SumNone(q[1..], now, task);
    } else {
      assert q[0].item.task != Some(task);
      assert OnlyEvent(q[1..], task, i - 1) by {
        assert forall j :: 0 <= j < |q[1..]| ==> q[1..][j] == q[j + 1];
      }
      SumOnly(q[1..], now, task, i - 1);
    }
  }

  lemma {:induction false} SumNone(q: seq<Entry<Call>>, now: nat, task: nat)
    requires forall j :: 0 <= j < |q| ==> q[j].item.task != Some(task)
    ensures Sum(q, now, Some(task)) == 0
  {
    if q != [] {
      assert q[0].item.task != Some(task);
      SumNone(q[1..], now, task);
    }
  }

  /** One wakeup at `now`: it ends, a task whose only pending event is at tick `T` fires at most
      `now + lookahead + 1 - T` times (not at all beyond the horizon), and every task event left
      is later than `now + lookahead`. */
  lemma WakeupBounded(s: State, now: nat, replies: nat -> Reply, task: nat, i: nat)
    requires Ready(s, now) && s.batch == [] && Patient(replies) && OnlyEvent(s.queue, task, i)
    ensures var (r, calls) := Drain(s, now, replies, 0);
            && CountCalls(calls, task) <= Budget(s.queue[i].item.tick, now)
            && r.batch == []
            && forall j :: 0 <= j < |r.queue| && r.queue[j].item.task.Some? ==> r.queue[j].item.tick > now + LOOKAHEAD
  {
    hide Drain;
    hide Sum;
    hide Budget;
    hide Linked;
    hide DownClosed;
    DrainBounded(s, now, replies, 0, task);
    SumOnly(s.queue, now, task, i);
    NothingWeighs(now, Some(task));
    var r := Drain(s, now, replies, 0).0;
    forall j | 0 <= j < |r.queue| && r.queue[j].item.task.Some? ensures r.queue[j].item.tick > now + LOOKAHEAD {
      if j > 0 {
        assert Before(r.queue[0], r.queue[j]);
      }
    }
  }
}
