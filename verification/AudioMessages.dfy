/** Instructions for the audio thread and the table of cancelled tasks (engine/audio_instructions.c):
    which instructions are dropped, and the events of a block as functions of the queue. */
module AudioMessages {
  import opened Wrappers
  import opened Nodes
  import opened EventOrder

  const MSG_QUEUE_MAX_SIZE := 256

  datatype Payload =
    | NodeAdd(added: Node?)
    | NodeAddBefore(before: Node?, node: Node?)
    | NodeSetScalar(target: Node?, input: int, value: real)
    | NodeSetTrig(target: Node?, input: int)
    | NodeRemove(removed: Node?)
    | NodeSetInput(target: Node?, input: int, source: Node?)
    | NodePipeInput(target: Node?, input: int, source: Node?)
    | NodeMixInput(mixer: Node?, source: Node?)
    | AudioCancelTask(cancelled: Option<nat>)

  /** An instruction; `task` is the task it was pushed by. */
  datatype Msg = Msg(tick: nat, task: Option<nat>, payload: Payload)

  // ---- Cancelled tasks -----------------------------------------------------------------

  datatype Cancellation = Cancellation(task: nat, tick: nat)

  /** `event_cancelled` */
  predicate EventCancelled(table: seq<Cancellation>, msg: Msg) {
    msg.task.Some? && exists i :: 0 <= i < |table| && table[i].task == msg.task.value && msg.tick >= table[i].tick
  }

  /** `record_cancellation` for a task: the earliest tick is kept; a full table takes no new task. */
  function RecordCancellation(table: seq<Cancellation>, room: nat, task: nat, tick: nat): (r: seq<Cancellation>)
  {
    if table == [] then (if room > 0 then [Cancellation(task, tick)] else [])
    else if table[0].task == task then
      if tick < table[0].tick then [Cancellation(task, tick)] + table[1..] else table
    else [table[0]] + RecordCancellation(table[1..], room, task, tick)
  }

  function Room(table: seq<Cancellation>): nat {
    if |table| < MSG_QUEUE_MAX_SIZE then MSG_QUEUE_MAX_SIZE - |table| else 0
  }

  predicate Mentions(table: seq<Cancellation>, task: nat) {
    exists i :: 0 <= i < |table| && table[i].task == task
  }

  lemma CancelledTail(table: seq<Cancellation>, msg: Msg)
    requires table != []
    ensures EventCancelled(table, msg)
        <==> (msg.task == Some(table[0].task) && msg.tick >= table[0].tick) || EventCancelled(table[1..], msg)
  {
    if EventCancelled(table, msg) {
      var i :| 0 <= i < |table| && table[i].task == msg.task.value && msg.tick >= table[i].tick;
      if i > 0 {
        assert table[1..][i - 1] == table[i];
      }
    }
    if EventCancelled(table[1..], msg) {
      var i :| 0 <= i < |table[1..]| && table[1..][i].task == msg.task.value && msg.tick >= table[1..][i].tick;
      assert table[i + 1] == table[1..][i];
    }
  }

  lemma MentionsTail(table: seq<Cancellation>, task: nat)
    requires table != []
    ensures Mentions(table, task) <==> table[0].task == task || Mentions(table[1..], task)
  {
    if Mentions(table, task) {
      var i :| 0 <= i < |table| && table[i].task == task;
      if i > 0 {
        assert table[1..][i - 1] == table[i];
      }
    }
    if Mentions(table[1..], task) {
      var i :| 0 <= i < |table[1..]| && table[1..][i].task == task;
      assert table[i + 1] == table[1..][i];
    }
  }

  /** Recording drops exactly the instructions dropped before and, if the task finds a place in
      the table, those of the task from the tick on. */
  lemma {:induction false} RecordExact(table: seq<Cancellation>, room: nat, task: nat, tick: nat, msg: Msg)
    ensures EventCancelled(RecordCancellation(table, room, task, tick), msg)
        <==> EventCancelled(table, msg)
             || ((room > 0 || Mentions(table, task)) && msg.task == Some(task) && msg.tick >= tick)
  {
    hide EventCancelled;
    hide Mentions;
    var r := RecordCancellation(table, room, task, tick);
    if table == [] {
      NoneCancelled(msg, task);
      if room > 0 {
        CancelledTail(r, msg);
        assert r[1..] == [];
      }
    } else {
      CancelledTail(table, msg);
      CancelledTail(r, msg);
      MentionsTail(table, task);
      if table[0].task == task {
        assert r[1..] == table[1..];
      } else {
        assert r[1..] == RecordCancellation(table[1..], room, task, tick);
        RecordExact(table[1..], room, task, tick, msg);
      }
    }
  }

  lemma NoneCancelled(msg: Msg, task: nat)
    ensures !EventCancelled([], msg) && !Mentions([], task)
  {
  }

  /** What `process_audio_events_pre` does with the table on an event. */
  function TableAfter(table: seq<Cancellation>, msg: Msg): seq<Cancellation> {
    if msg.payload.AudioCancelTask? && msg.payload.cancelled.Some? then
      RecordCancellation(table, Room(table), msg.payload.cancelled.value, msg.tick)
    else table
  }

  predicate Applies(table: seq<Cancellation>, msg: Msg) {
    !msg.payload.AudioCancelTask? && !EventCancelled(table, msg)
  }

  /** Whatever is processed next, an instruction once cancelled stays cancelled. */
  lemma StaysCancelled(table: seq<Cancellation>, msg: Msg, later: Msg)
    requires EventCancelled(table, later)
    ensures EventCancelled(TableAfter(table, msg), later)
  {
    hide EventCancelled;
    if msg.payload.AudioCancelTask? && msg.payload.cancelled.Some? {
      RecordExact(table, Room(table), msg.payload.cancelled.value, msg.tick, later);
    }
  }
}
