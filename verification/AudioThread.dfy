/** The instruction queue and the audio thread (engine/audio_instructions.c): the ring buffer between
    the threads, the heap, the table of cancelled tasks and the two phases of a block. The functions
    of `AudioMessages` and `AudioRun` say what the loops compute. */
module AudioThread {
  import opened Wrappers
  import opened Nodes
  import opened EventOrder
  import opened EventHeap
  import opened AudioMessages
  import AudioRun
  import Automation

  /** Positions in the ring wrap at 256. */
  function Slot(start: nat, i: nat): (k: nat)
    requires start < MSG_QUEUE_MAX_SIZE && i <= MSG_QUEUE_MAX_SIZE
    ensures k < MSG_QUEUE_MAX_SIZE && k == (start + i) % MSG_QUEUE_MAX_SIZE
  {
    if start + i < MSG_QUEUE_MAX_SIZE then start + i else start + i - MSG_QUEUE_MAX_SIZE
  }

  class AudioQueue {
    const buffer: array<Msg>
    var readPtr: nat
    var writePtr: nat
    var numMsgs: nat
    ghost var contents: seq<Msg>

    ghost predicate Valid()
      reads this, buffer
    {
      && buffer.Length == MSG_QUEUE_MAX_SIZE && readPtr < MSG_QUEUE_MAX_SIZE && numMsgs <= MSG_QUEUE_MAX_SIZE
      && writePtr == Slot(readPtr, numMsgs) && |contents| == numMsgs
      && forall i :: 0 <= i < numMsgs ==> buffer[Slot(readPtr, i)] == contents[i]
    }

    constructor ()
      ensures Valid() && contents == [] && fresh(buffer)
    {
      buffer := new Msg[MSG_QUEUE_MAX_SIZE];
      readPtr, writePtr, numMsgs, contents := 0, 0, 0, [];
    }

    /** `push_msg`: a full queue drops the message; an instruction without a task gets the current one. */
    method PushMsg(msg: Msg, current: Option<nat>)
      requires Valid()
      modifies this, buffer
      ensures Valid()
      ensures contents == if |old(contents)| == MSG_QUEUE_MAX_SIZE then old(contents)
                          else old(contents) + [Tagged(msg, current)]
    {
      if numMsgs == MSG_QUEUE_MAX_SIZE {
        return;
      }
      var tagged := msg;
      if !msg.payload.AudioCancelTask? && msg.task.None? {
        tagged := msg.(task := current);
      }
      buffer[writePtr] := tagged;
      writePtr := Slot(writePtr, 1);
      numMsgs := numMsgs + 1;
      contents := contents + [tagged];
    }

    /** `pop_msg` */
    method PopMsg() returns (msg: Msg)
      requires Valid() && numMsgs > 0
      modifies this
      ensures Valid() && msg == old(contents[0]) && contents == old(contents[1..])
    {
      assert buffer[Slot(readPtr, 0)] == contents[0];
      msg := buffer[readPtr];
      forall i | 0 <= i < numMsgs - 1
        ensures Slot(Slot(readPtr, 1), i) == Slot(readPtr, i + 1)
      {
      }
      readPtr := Slot(readPtr, 1);
      numMsgs := numMsgs - 1;
      contents := contents[1..];
    }
  }

  function Tagged(msg: Msg, current: Option<nat>): Msg {
    if !msg.payload.AudioCancelTask? && msg.task.None? then msg.(task := current) else msg
  }

  // ---- The table of cancelled tasks --------------------------------------------------------

  /** `event_cancelled` */
  method IsCancelled(table: seq<Cancellation>, msg: Msg) returns (r: bool)
    ensures r == EventCancelled(table, msg)
  {
    if msg.task.None? {
      return false;
    }
    for i := 0 to |table|
      invariant forall j :: 0 <= j < i ==> !(table[j].task == msg.task.value && msg.tick >= table[j].tick)
    {
      if table[i].task == msg.task.value && msg.tick >= table[i].tick {
        return true;
      }
    }
    r := false;
  }

  lemma {:induction false} RecordAt(table: seq<Cancellation>, room: nat, task: nat, tick: nat, i: nat)
    requires i <= |table| && (forall j :: 0 <= j < i ==> table[j].task != task)
    requires i < |table| ==> table[i].task == task
    ensures RecordCancellation(table, room, task, tick)
         == if i < |table| then (if tick < table[i].tick then table[i := Cancellation(task, tick)] else table)
            else if room > 0 then table + [Cancellation(task, tick)] else table
  {
    if i > 0 {
      RecordAt(table[1..], room, task, tick, i - 1);
      assert table == [table[0]] + table[1..];
    }
  }

  /** `record_cancellation` */
  method Record(table: seq<Cancellation>, msg: Msg) returns (r: seq<Cancellation>)
    requires msg.payload.AudioCancelTask?
    ensures r == TableAfter(table, msg)
  {
    hide RecordCancellation;
    r := table;
    if msg.payload.cancelled.None? {
      return;
    }
    var task := msg.payload.cancelled.value;
    for i := 0 to |r|
      invariant r == table && forall j :: 0 <= j < i ==> table[j].task != task
    {
      if r[i].task == task {
        RecordAt(table, Room(table), task, msg.tick, i);
        if msg.tick < r[i].tick {
          r := r[i := Cancellation(task, msg.tick)];
        }
        return;
      }
    }
    RecordAt(table, Room(table), task, msg.tick, |table|);
    if |r| < MSG_QUEUE_MAX_SIZE {
      r := r + [Cancellation(task, msg.tick)];
    }
  }

  // ---- The two phases of a block --------------------------------------------------------------

  /** An entry of `active_events` with its offset. */
  datatype Active = Active(event: Entry<Msg>, offset: nat)

  function ActiveOf(events: seq<Entry<Msg>>, start: nat): (r: seq<Active>)
    ensures |r| == |events|
    ensures forall i :: 0 <= i < |r| ==> r[i] == Active(events[i], AudioRun.Offset(events[i], start))
  {
    seq(|events|, i requires 0 <= i < |events| => Active(events[i], AudioRun.Offset(events[i], start)))
  }

  function Reverse(xs: seq<Active>): (r: seq<Active>)
    ensures |r| == |xs|
    ensures forall i :: 0 <= i < |xs| ==> r[i] == xs[|xs| - 1 - i]
  {
    if xs == [] then [] else Reverse(xs[1..]) + [xs[0]]
  }

  class AudioThread {
    const heap: AudioHeap<Msg>
    var table: seq<Cancellation>
    var active: seq<Active>

    ghost predicate Valid()
      reads this, heap, heap.events
    {
      heap.Valid()
    }

    constructor ()
      ensures Valid() && fresh(heap) && fresh(heap.events) && heap.pending == [] && heap.sequence == 0
      ensures table == [] && active == []
    {
      heap := new AudioHeap<Msg>();
      table, active := [], [];
    }

    /** The first loop of `process_audio_events_pre`. */
    method TakeMessages(queue: AudioQueue)
      requires Valid() && queue.Valid() && heap.events != queue.buffer as object
      modifies heap, heap.events, queue
      ensures Valid() && queue.Valid() && heap.events == old(heap.events)
      ensures AudioRun.Inbox(heap.pending, heap.sequence, queue.contents)
           == AudioRun.Drained(AudioRun.Inbox(old(heap.pending), old(heap.sequence), old(queue.contents)))
    {
      hide Holds;
      hide Insert;
      hide Older;
      while queue.numMsgs > 0
        invariant Valid() && queue.Valid() && heap.events == old(heap.events)
        invariant AudioRun.Drained(AudioRun.Inbox(heap.pending, heap.sequence, queue.contents))
               == AudioRun.Drained(AudioRun.Inbox(old(heap.pending), old(heap.sequence), old(queue.contents)))
        decreases queue.numMsgs
      {
        var msg := queue.PopMsg();
        var ok := heap.Push(msg.tick, msg);
        if !ok {
          break;
        }
      }
    }

    /** `process_audio_events_pre`: what is applied is listed in `active`, in order. */
    method EventsPre(currentTick: nat, frames: nat, queue: AudioQueue)
      requires Valid() && queue.Valid() && heap.events != queue.buffer as object
      modifies this, heap, heap.events, queue
      ensures Valid() && queue.Valid() && heap.events == old(heap.events)
      ensures var inbox := AudioRun.Drained(AudioRun.Inbox(old(heap.pending), old(heap.sequence), old(queue.contents)));
              var n := AudioRun.DueBefore(inbox.heap, currentTick + frames);
              && heap.pending == inbox.heap[n..] && heap.sequence == inbox.sequence && queue.contents == inbox.queue
              && active == ActiveOf(AudioRun.Applied(inbox.heap[..n], old(table)), currentTick)
              && table == AudioRun.TableThrough(inbox.heap[..n], old(table))
    {
      hide Holds;
      hide Older;
      hide AudioRun.Drained;
      hide AudioRun.Applied;
      hide AudioRun.TableThrough;
      active := [];
      TakeMessages(queue);
      TakeDue(currentTick, currentTick + frames);
    }

    /** The second loop of `process_audio_events_pre`. */
    method TakeDue(currentTick: nat, end: nat)
      requires Valid() && active == []
      modifies this, heap, heap.events
      ensures Valid() && heap.events == old(heap.events) && heap.sequence == old(heap.sequence)
      ensures var n := AudioRun.DueBefore(old(heap.pending), end);
              && heap.pending == old(heap.pending)[n..]
              && active == ActiveOf(AudioRun.Applied(old(heap.pending)[..n], old(table)), currentTick)
              && table == AudioRun.TableThrough(old(heap.pending)[..n], old(table))
    {
      hide Holds;
      hide Older;
      hide AudioRun.Applied;
      hide AudioRun.TableThrough;
      hide Applies;
      hide TableAfter;
      ghost var all, before := heap.pending, table;
      ghost var n := 0;
      NothingTaken(before, currentTick);
      while heap.size > 0 && heap.Top().tick < end
        invariant Valid() && heap.events == old(heap.events) && heap.sequence == old(heap.sequence)
        invariant n <= |all| && heap.pending == all[n..] && |all| <= AUDIO_EVENT_HEAP_MAX
        invariant forall i :: 0 <= i < n ==> all[i].tick < end
        invariant active == ActiveOf(AudioRun.Applied(all[..n], before), currentTick)
        invariant table == AudioRun.TableThrough(all[..n], before)
        decreases heap.size
      {
        var event := heap.Pop();
        TakeOne(all, n, before, currentTick);
        n := n + 1;
        if event.item.payload.AudioCancelTask? {
          table := Record(table, event.item);
          continue;
        }
        var cancelled := IsCancelled(table, event.item);
        if cancelled {
          continue;
        }
        var offset := if event.tick < currentTick then 0 else event.tick - currentTick;
        if |active| < AUDIO_EVENT_HEAP_MAX {
          active := active + [Active(event, offset)];
        }
      }
      DueIs(all, end, n);
    }

    /** `process_audio_events_post`: the second phase of every active event, last one first. */
    method EventsPost() returns (order: seq<Active>)
      modifies this`active
      ensures order == Reverse(old(active)) && active == []
    {
      hide Reverse;
      order := [];
      var i := |active|;
      while i > 0
        invariant 0 <= i <= |active| && active == old(active)
        invariant |order| == |active| - i && forall j :: 0 <= j < |order| ==> order[j] == active[|active| - 1 - j]
      {
        i := i - 1;
        order := order + [active[i]];
      }
      active := [];
      assert order == Reverse(old(active));
    }
  }

  lemma NothingTaken(table: seq<Cancellation>, start: nat)
    ensures AudioRun.Applied([], table) == [] && AudioRun.TableThrough([], table) == table
    ensures ActiveOf([], start) == []
  {
  }

  /** One more event taken. */
  lemma TakeOne(all: seq<Entry<Msg>>, n: nat, before: seq<Cancellation>, start: nat)
    requires n < |all|
    ensures var table := AudioRun.TableThrough(all[..n], before);
            && AudioRun.TableThrough(all[..n + 1], before) == TableAfter(table, all[n].item)
            && (all[n].item.payload.AudioCancelTask? || EventCancelled(table, all[n].item) ==>
                  AudioRun.Applied(all[..n + 1], before) == AudioRun.Applied(all[..n], before))
            && (!all[n].item.payload.AudioCancelTask? ==> TableAfter(table, all[n].item) == table)
            && (!all[n].item.payload.AudioCancelTask? && !EventCancelled(table, all[n].item) ==>
                  ActiveOf(AudioRun.Applied(all[..n + 1], before), start)
                  == ActiveOf(AudioRun.Applied(all[..n], before), start)
                     + [Active(all[n], AudioRun.Offset(all[n], start))])
    ensures |AudioRun.Applied(all[..n], before)| <= n
  {
    hide AudioRun.Applied;
    hide AudioRun.TableThrough;
    hide EventCancelled;
    assert all[..n + 1] == all[..n] + [all[n]];
    AudioRun.ThroughSnoc(all[..n], before, all[n]);
    AudioRun.AppliedSnoc(all[..n], before, all[n]);
    var was := AudioRun.Applied(all[..n], before);
    assert was + [] == was;
  }

  lemma {:induction false} DueIs(all: seq<Entry<Msg>>, end: nat, n: nat)
    requires n <= |all| && (forall i :: 0 <= i < n ==> all[i].tick < end) && (n < |all| ==> all[n].tick >= end)
    ensures n == AudioRun.DueBefore(all, end)
    decreases n
  {
    if n > 0 {
      DueIs(all[1..], end, n - 1);
    }
  }
}
