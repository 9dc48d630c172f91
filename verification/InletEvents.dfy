/** Scalar and trigger events on the buffers of inlets: `process_msg_pre` and `process_msg_post`
    (engine/audio_instructions.c) for these instructions, and a whole block of scalar events. */
module InletEvents {
  import opened Nodes
  import opened AudioMessages
  import opened AudioThread
  import opened Automation

  /** `node_pending_free` */
  predicate PendingFree(node: Node?)
    reads if node == null then {} else {node}
  {
    node == null || node.trigEnd
  }

  /** `jit_inlet_node` of a live node. */
  function InletNode(node: Node?, input: int): Node?
    reads if node == null then {} else {node}
  {
    if PendingFree(node) || input < 0 || input >= MAX_INPUTS then null
    else node.connections[input]
  }

  /** An event on this input of the node writes the buffer: that of the node connected there, but nothing if the node
      is about to be freed, has no such input or nothing connected to it. */
  predicate Writes(node: Node?, input: int, buf: array?<real>)
    reads if node == null then {} else {node}
    reads if node != null && 0 <= input < MAX_INPUTS && node.connections[input] != null then {node.connections[input]}
          else {}
  {
    if node != null && !node.trigEnd && 0 <= input < MAX_INPUTS && node.connections[input] != null then
      buf == node.connections[input].buf
    else buf == null
  }

  /** The buffer an event on this inlet writes, if any. */
  function InletBuf(node: Node?, input: int): array?<real>
    reads if node == null then {} else {node}
    reads var inlet := InletNode(node, input); if inlet == null then {} else {inlet}
  {
    var inlet := InletNode(node, input);
    if inlet == null then null else inlet.buf
  }

  lemma InletWrites(node: Node?, input: int)
    ensures Writes(node, input, InletBuf(node, input))
  {
  }

  function Buffers(buf: array?<real>): set<array<real>> {
    if buf == null then {} else {buf}
  }

  predicate Sized(buf: array?<real>) {
    buf != null ==> buf.Length == BUF_SIZE
  }

  /** NODE_SET_SCALAR in the first phase: every frame from the offset to the end of the buffer. */
  method ScalarPre(node: Node?, input: int, e: Scalar)
    requires Sized(InletBuf(node, input)) && e.offset < BUF_SIZE
    modifies Buffers(InletBuf(node, input))
    ensures var buf := InletBuf(node, input); buf != null ==> buf[..] == FillFrom(old(buf[..]), e)
  {
    var buf := InletBuf(node, input);
    if buf != null {
      for i := e.offset to BUF_SIZE
        invariant forall f :: 0 <= f < BUF_SIZE ==> buf[f] == if e.offset <= f < i then e.value else old(buf[f])
      {
        buf[i] := e.value;
      }
    }
  }

  /** NODE_SET_SCALAR in the second phase: every frame before the offset. */
  method ScalarPost(node: Node?, input: int, e: Scalar)
    requires Sized(InletBuf(node, input)) && e.offset < BUF_SIZE
    modifies Buffers(InletBuf(node, input))
    ensures var buf := InletBuf(node, input); buf != null ==> buf[..] == FillUpTo(old(buf[..]), e)
  {
    var buf := InletBuf(node, input);
    if buf != null {
      for i := 0 to e.offset
        invariant forall f :: 0 <= f < BUF_SIZE ==> buf[f] == if f < i then e.value else old(buf[f])
      {
        buf[i] := e.value;
      }
    }
  }

  /** NODE_SET_TRIG in the first phase: one frame is 1. */
  method TrigPre(node: Node?, input: int, offset: nat)
    requires Sized(InletBuf(node, input)) && offset < BUF_SIZE
    modifies Buffers(InletBuf(node, input))
    ensures var buf := InletBuf(node, input); buf != null ==> buf[..] == old(buf[..])[offset := 1.0]
  {
    var buf := InletBuf(node, input);
    if buf != null {
      buf[offset] := 1.0;
    }
  }

  /** NODE_SET_TRIG in the second phase: the frame is 0 again. */
  method TrigPost(node: Node?, input: int, offset: nat)
    requires Sized(InletBuf(node, input)) && offset < BUF_SIZE
    modifies Buffers(InletBuf(node, input))
    ensures var buf := InletBuf(node, input); buf != null ==> buf[..] == old(buf[..])[offset := 0.0]
  {
    var buf := InletBuf(node, input);
    if buf != null {
      buf[offset] := 0.0;
    }
  }

  // ---- A block of scalar events ------------------------------------------------------------

  /** A scalar event with the buffer it writes. */
  datatype Targeted = Targeted(buf: array?<real>, scalar: Scalar)

  /** The events on one buffer. */
  function EventsOn(events: seq<Targeted>, buf: array<real>): seq<Scalar> {
    if events == [] then []
    else (if events[0].buf == buf then [events[0].scalar] else []) + EventsOn(events[1..], buf)
  }

  lemma {:induction false} EventsSnoc(events: seq<Targeted>, e: Targeted, buf: array<real>)
    ensures EventsOn(events + [e], buf) == EventsOn(events, buf) + (if e.buf == buf then [e.scalar] else [])
  {
    if events == [] {
      assert events + [e] == [e] && [e][1..] == [];
    } else {
      assert (events + [e])[0] == events[0] && (events + [e])[1..] == events[1..] + [e];
      EventsSnoc(events[1..], e, buf);
      Grouped(if events[0].buf == buf then [events[0].scalar] else [], EventsOn(events[1..], buf),
              if e.buf == buf then [e.scalar] else []);
    }
  }

  lemma Grouped(a: seq<Scalar>, b: seq<Scalar>, c: seq<Scalar>)
    ensures a + (b + c) == a + b + c
  {
  }

  /** The inlet and the value of a scalar event. */
  function ScalarOf(a: Active): Scalar {
    Scalar(a.offset, if a.event.item.payload.NodeSetScalar? then a.event.item.payload.value else 0.0)
  }

  /** A scalar event, listed with the buffer it writes. */
  predicate Listed(a: Active, e: Targeted, buf: array?<real>) {
    && a.event.item.payload.NodeSetScalar? && e == Targeted(buf, ScalarOf(a)) && a.offset < BUF_SIZE
  }

  function AllBuffers(events: seq<Targeted>): set<array<real>> {
    set e | e in events && e.buf != null :: e.buf
  }

  predicate AllSized(events: seq<Targeted>) {
    forall i :: 0 <= i < |events| ==> Sized(events[i].buf)
  }

  /** The first phase of a block whose active events are scalar events. */
  method RunPre(active: seq<Active>, ghost events: seq<Targeted>)
    requires |active| == |events| && AllSized(events)
    requires forall i :: 0 <= i < |active| ==>
               && active[i].event.item.payload.NodeSetScalar?
               && Listed(active[i], events[i],
                         InletBuf(active[i].event.item.payload.target, active[i].event.item.payload.input))
    modifies AllBuffers(events)
    ensures forall b :: b in AllBuffers(events) ==> b[..] == PreAll(old(b[..]), EventsOn(events, b))
  {
    hide EventsOn;
    hide PreAll;
    hide FillFrom;
    NoEvents(events);
    for i := 0 to |active|
      invariant forall b :: b in AllBuffers(events) ==> b[..] == PreAll(old(b[..]), EventsOn(events[..i], b))
    {
      var p := active[i].event.item.payload;
      assert Listed(active[i], events[i], InletBuf(p.target, p.input));
      assert events[i].buf != null ==> events[i].buf in AllBuffers(events);
      label Before:
      ScalarPre(p.target, p.input, Scalar(active[i].offset, p.value));
      forall b | b in AllBuffers(events)
        ensures b[..] == PreAll(old(b[..]), EventsOn(events[..i + 1], b))
      {
        OneMorePre(old(b[..]), events, i, b);
        if b != events[i].buf {
          assert b[..] == old@Before(b[..]);
        }
      }
    }
    assert events[..|active|] == events;
  }

  lemma NoEvents(events: seq<Targeted>)
    ensures forall buf: seq<real>, b: array<real> :: PreAll(buf, EventsOn(events[..0], b)) == buf
  {
    assert events[..0] == [];
  }

  lemma OneMorePre(buf: seq<real>, events: seq<Targeted>, i: nat, b: array<real>)
    requires i < |events|
    ensures PreAll(buf, EventsOn(events[..i + 1], b))
         == if events[i].buf == b then FillFrom(PreAll(buf, EventsOn(events[..i], b)), events[i].scalar)
            else PreAll(buf, EventsOn(events[..i], b))
  {
    hide EventsOn;
    hide PreAll;
    hide FillFrom;
    assert events[..i + 1] == events[..i] + [events[i]];
    EventsSnoc(events[..i], events[i], b);
    var on := EventsOn(events[..i], b);
    assert on + [] == on;
    PreSnoc(buf, on, events[i].scalar);
  }

  /** The second phase of a block whose active events are scalar events, last event first. */
  method RunPost(active: seq<Active>, ghost events: seq<Targeted>)
    requires |active| == |events| && AllSized(events)
    requires forall i :: 0 <= i < |active| ==>
               && active[i].event.item.payload.NodeSetScalar?
               && Listed(active[i], events[i],
                         InletBuf(active[i].event.item.payload.target, active[i].event.item.payload.input))
    modifies AllBuffers(events)
    ensures forall b :: b in AllBuffers(events) ==> b[..] == PostAll(old(b[..]), EventsOn(events, b))
  {
    hide EventsOn;
    hide PostAll;
    hide FillUpTo;
    var i := |active|;
    NoneLeft(events);
    while i > 0
      invariant 0 <= i <= |active|
      invariant forall b :: b in AllBuffers(events) ==> b[..] == PostAll(old(b[..]), EventsOn(events[i..], b))
    {
      i := i - 1;
      var p := active[i].event.item.payload;
      assert Listed(active[i], events[i], InletBuf(p.target, p.input));
      assert events[i].buf != null ==> events[i].buf in AllBuffers(events);
      label Before:
      ScalarPost(p.target, p.input, Scalar(active[i].offset, p.value));
      forall b | b in AllBuffers(events)
        ensures b[..] == PostAll(old(b[..]), EventsOn(events[i..], b))
      {
        OneMorePost(old(b[..]), events, i, b);
        if b != events[i].buf {
          assert b[..] == old@Before(b[..]);
        }
      }
    }
    assert events[0..] == events;
  }

  lemma NoneLeft(events: seq<Targeted>)
    ensures forall buf: seq<real>, b: array<real> :: PostAll(buf, EventsOn(events[|events|..], b)) == buf
  {
    assert events[|events|..] == [];
  }

  lemma OneMorePost(buf: seq<real>, events: seq<Targeted>, i: nat, b: array<real>)
    requires i < |events|
    ensures PostAll(buf, EventsOn(events[i..], b))
         == if events[i].buf == b then FillUpTo(PostAll(buf, EventsOn(events[i + 1..], b)), events[i].scalar)
            else PostAll(buf, EventsOn(events[i + 1..], b))
  {
    hide FillUpTo;
    assert events[i..][0] == events[i] && events[i..][1..] == events[i + 1..];
    var on := EventsOn(events[i + 1..], b);
    assert [] + on == on;
    assert ([events[i].scalar] + on)[1..] == on;
  }

  /** The events on one buffer keep the order of their offsets. */
  lemma {:induction false} OrderedOn(events: seq<Targeted>, b: array<real>)
    requires forall i, j :: 0 <= i < j < |events| ==> events[i].scalar.offset <= events[j].scalar.offset
    ensures Ordered(EventsOn(events, b))
    ensures forall s :: s in EventsOn(events, b) ==> exists i :: 0 <= i < |events| && events[i].scalar == s
  {
    if events != [] {
      OrderedOn(events[1..], b);
      var rest := EventsOn(events[1..], b);
      forall s | s in rest ensures exists i :: 0 < i < |events| && events[i].scalar == s {
        var i :| 0 <= i < |events[1..]| && events[1..][i].scalar == s;
        assert events[i + 1].scalar == s;
      }
      if events[0].buf == b {
        FirstOrdered(events[0].scalar, rest);
      } else {
        assert [] + rest == rest;
      }
    }
  }

  lemma FirstOrdered(first: Scalar, rest: seq<Scalar>)
    requires Ordered(rest) && forall s :: s in rest ==> first.offset <= s.offset
    ensures Ordered([first] + rest)
  {
  }
}
