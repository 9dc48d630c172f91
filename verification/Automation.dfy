/** Scalar automation (engine/audio_instructions.c): what the frames of an inlet hold while a block is
    rendered and after it, given the scalar events on it. Samples are real numbers. */
module Automation {
  /** A scalar event at a frame of the block. */
  datatype Scalar = Scalar(offset: nat, value: real)

  /** The loop of the first phase: every frame from the offset on. */
  function FillFrom(buf: seq<real>, e: Scalar): (r: seq<real>)
    ensures |r| == |buf|
    ensures forall f :: 0 <= f < |buf| ==> r[f] == if f >= e.offset then e.value else buf[f]
  {
    seq(|buf|, f requires 0 <= f < |buf| => if f >= e.offset then e.value else buf[f])
  }

  /** The loop of the second phase: every frame before the offset. */
  function FillUpTo(buf: seq<real>, e: Scalar): (r: seq<real>)
    ensures |r| == |buf|
    ensures forall f :: 0 <= f < |buf| ==> r[f] == if f < e.offset then e.value else buf[f]
  {
    seq(|buf|, f requires 0 <= f < |buf| => if f < e.offset then e.value else buf[f])
  }

  /** The first phase, events in order. */
  function PreAll(buf: seq<real>, events: seq<Scalar>): (r: seq<real>)
    ensures |r| == |buf|
    decreases |events|
  {
    if events == [] then buf else PreAll(FillFrom(buf, events[0]), events[1..])
  }

  /** The second phase, events in reverse order. */
  function PostAll(buf: seq<real>, events: seq<Scalar>): (r: seq<real>)
    ensures |r| == |buf|
  {
    if events == [] then buf else FillUpTo(PostAll(buf, events[1..]), events[0])
  }

  /** Events come by offset. */
  predicate Ordered(events: seq<Scalar>) {
    forall i, j :: 0 <= i < j < |events| ==> events[i].offset <= events[j].offset
  }

  /** The value of the last event at or before frame `f`, else `before`. */
  function LastUpTo(events: seq<Scalar>, f: nat, before: real): real {
    if events == [] then before
    else
      var n := |events| - 1;
      if events[n].offset <= f then events[n].value else LastUpTo(events[..n], f, before)
  }

  /** The value of the first event after frame `f`, else `otherwise`. */
  function FirstAfter(events: seq<Scalar>, f: nat, otherwise: real): real {
    if events == [] then otherwise
    else if events[0].offset > f then events[0].value
    else FirstAfter(events[1..], f, otherwise)
  }

  /** While the block is rendered a frame holds the value of the last event at or before it. */
  lemma {:induction false} WhileRendering(buf: seq<real>, events: seq<Scalar>, f: nat)
    requires f < |buf|
    ensures PreAll(buf, events)[f] == LastUpTo(events, f, buf[f])
    decreases |events|
  {
    if events != [] {
      var filled := FillFrom(buf, events[0]);
      WhileRendering(filled, events[1..], f);
      FirstJoins(events, f, buf[f]);
    }
  }

  /** The last event up to a frame, with the first event taken off. */
  lemma {:induction false} FirstJoins(events: seq<Scalar>, f: nat, before: real)
    requires events != []
    ensures LastUpTo(events, f, before)
         == LastUpTo(events[1..], f, if f >= events[0].offset then events[0].value else before)
    decreases |events|
  {
    var n := |events| - 1;
    if n == 0 {
      assert events[..0] == [];
    } else if events[n].offset <= f {
      assert events[1..][n - 1] == events[n];
    } else {
      FirstJoins(events[..n], f, before);
      assert events[..n][1..] == events[1..][..n - 1];
      assert events[1..][n - 1] == events[n];
    }
  }

  lemma {:induction false} SecondPhase(buf: seq<real>, events: seq<Scalar>, f: nat)
    requires f < |buf|
    ensures PostAll(buf, events)[f] == FirstAfter(events, f, buf[f])
    decreases |events|
  {
    if events != [] {
      SecondPhase(buf, events[1..], f);
    }
  }

  /** After the block a frame holds the value of the first event after it, else of the last event. */
  lemma AfterBlock(buf: seq<real>, events: seq<Scalar>, f: nat)
    requires f < |buf|
    ensures PostAll(PreAll(buf, events), events)[f]
         == FirstAfter(events, f, if events == [] then buf[f] else events[|events| - 1].value)
  {
    WhileRendering(buf, events, f);
    SecondPhase(PreAll(buf, events), events, f);
    if events != [] {
      LastOrNone(events, f, buf[f]);
    }
  }

  /** Either an event lies after the frame, or the last event is the last up to it. */
  lemma LastOrNone(events: seq<Scalar>, f: nat, before: real)
    requires events != []
    ensures FirstAfter(events, f, LastUpTo(events, f, before)) == FirstAfter(events, f, events[|events| - 1].value)
  {
    var n := |events| - 1;
    if events[n].offset > f {
      SomeAfter(events, f, LastUpTo(events, f, before), events[n].value);
    }
  }

  lemma {:induction false} SomeAfter(events: seq<Scalar>, f: nat, a: real, b: real)
    requires events != [] && events[|events| - 1].offset > f
    ensures FirstAfter(events, f, a) == FirstAfter(events, f, b)
    decreases |events|
  {
    if events[0].offset <= f {
      assert events[1..][|events[1..]| - 1] == events[|events| - 1];
      SomeAfter(events[1..], f, a, b);
    }
  }

  /** A single event leaves the whole buffer at its value. */
  lemma SingleEvent(buf: seq<real>, e: Scalar, f: nat)
    requires f < |buf|
    ensures PostAll(PreAll(buf, [e]), [e])[f] == e.value
  {
    AfterBlock(buf, [e], f);
    assert [e][1..] == [];
  }

  /** The first `k` events are those at or before the frame. While the block is rendered the frame holds the value of
      the last of them, or what it held; afterwards that of the first event behind it, or of the last one. */
  lemma FrameHolds(buf: seq<real>, events: seq<Scalar>, f: nat, k: nat)
    requires f < |buf| && SplitAt(events, f, k)
    ensures PreAll(buf, events)[f] == if k == 0 then buf[f] else events[k - 1].value
    ensures PostAll(PreAll(buf, events), events)[f]
         == if k < |events| then events[k].value else if k == 0 then buf[f] else events[k - 1].value
  {
    WhileRendering(buf, events, f);
    AfterBlock(buf, events, f);
    LastAt(events, f, buf[f], k);
    FirstAt(events, f, if events == [] then buf[f] else events[|events| - 1].value, k);
  }

  predicate SplitAt(events: seq<Scalar>, f: nat, k: nat) {
    && k <= |events|
    && (forall i :: 0 <= i < k ==> events[i].offset <= f)
    && forall i :: k <= i < |events| ==> events[i].offset > f
  }

  /** Events in order of their offsets split at every frame. */
  lemma {:induction false} Split(events: seq<Scalar>, f: nat) returns (k: nat)
    requires Ordered(events)
    ensures SplitAt(events, f, k)
    decreases |events|
  {
    k := 0;
    if events != [] && events[0].offset <= f {
      k := Split(events[1..], f);
      assert forall i :: k <= i < |events[1..]| ==> events[1..][i] == events[i + 1];
      assert forall i :: 1 <= i < k + 1 ==> events[i] == events[1..][i - 1];
      assert forall i :: k + 1 <= i < |events| ==> events[i] == events[1..][i - 1];
      k := k + 1;
    }
  }

  lemma {:induction false} LastAt(events: seq<Scalar>, f: nat, before: real, k: nat)
    requires k <= |events| && (k > 0 ==> events[k - 1].offset <= f)
    requires forall i :: k <= i < |events| ==> events[i].offset > f
    ensures LastUpTo(events, f, before) == if k == 0 then before else events[k - 1].value
    decreases |events|
  {
    var n := |events| - 1;
    if k < |events| {
      LastAt(events[..n], f, before, k);
    }
  }

  lemma {:induction false} FirstAt(events: seq<Scalar>, f: nat, otherwise: real, k: nat)
    requires k <= |events| && (k < |events| ==> events[k].offset > f)
    requires forall i :: 0 <= i < k ==> events[i].offset <= f
    ensures FirstAfter(events, f, otherwise) == if k == |events| then otherwise else events[k].value
    decreases |events|
  {
    if k > 0 {
      assert forall i :: 0 <= i < k - 1 ==> events[1..][i] == events[i + 1];
      FirstAt(events[1..], f, otherwise, k - 1);
    }
  }

  // ---- Loops over the events -------------------------------------------------------------

  lemma {:induction false} PreSnoc(buf: seq<real>, events: seq<Scalar>, e: Scalar)
    ensures PreAll(buf, events + [e]) == FillFrom(PreAll(buf, events), e)
    decreases |events|
  {
    hide FillFrom;
    if events == [] {
      assert events + [e] == [e] && [e][1..] == [];
    } else {
      assert (events + [e])[0] == events[0] && (events + [e])[1..] == events[1..] + [e];
      PreSnoc(FillFrom(buf, events[0]), events[1..], e);
    }
  }
}
