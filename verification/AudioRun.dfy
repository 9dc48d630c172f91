/** What the audio thread does with the instructions of its queue, block by block
    (engine/audio_instructions.c): every instruction once, on time, in order. */
module AudioRun {
  import opened Wrappers
  import opened EventOrder
  import opened AudioMessages

  // ---- One block ----------------------------------------------------------------------

  /** The heap of the audio thread with its counter, and the messages still queued. */
  datatype Inbox = Inbox(heap: seq<Entry<Msg>>, sequence: nat, queue: seq<Msg>)

  /** The first loop of `process_audio_events_pre`: a message that finds the heap full is lost. */
  function Drained(b: Inbox): (r: Inbox)
    decreases |b.queue|
  {
    if b.queue == [] then b
    else if |b.heap| >= AUDIO_EVENT_HEAP_MAX then b.(queue := b.queue[1..])
    else Drained(Inbox(Insert(b.heap, Entry(b.queue[0].tick, b.sequence, b.queue[0])), b.sequence + 1, b.queue[1..]))
  }

  /** How many events lie before `end`. */
  function DueBefore(heap: seq<Entry<Msg>>, end: nat): (n: nat)
    ensures n <= |heap|
    ensures forall i :: 0 <= i < n ==> heap[i].tick < end
    ensures n < |heap| ==> heap[n].tick >= end
  {
    if heap == [] || heap[0].tick >= end then 0 else 1 + DueBefore(heap[1..], end)
  }

  /** The events applied, given the events taken, and the table after them. */
  function Applied(taken: seq<Entry<Msg>>, table: seq<Cancellation>): (r: seq<Entry<Msg>>)
    ensures |r| <= |taken|
  {
    if taken == [] then []
    else (if Applies(table, taken[0].item) then [taken[0]] else [])
         + Applied(taken[1..], TableAfter(table, taken[0].item))
  }

  function TableThrough(taken: seq<Entry<Msg>>, table: seq<Cancellation>): seq<Cancellation> {
    if taken == [] then table else TableThrough(taken[1..], TableAfter(table, taken[0].item))
  }

  /** The frame of an event within a block that starts at `start`. */
  function Offset(e: Entry<Msg>, start: nat): nat {
    if e.tick < start then 0 else e.tick - start
  }

  /** The offset of a taken event lies inside the block. */
  lemma OffsetInside(e: Entry<Msg>, start: nat, frames: nat)
    requires e.tick < start + frames
    ensures Offset(e, start) < frames <==> frames > 0
    ensures Offset(e, start) == if e.tick > start then e.tick - start else 0
  {
  }

  /** Offsets follow the order of the events. */
  lemma OffsetsOrdered(a: Entry<Msg>, b: Entry<Msg>, start: nat)
    requires Before(a, b)
    ensures Offset(a, start) <= Offset(b, start)
  {
  }

  /** With room for all, the queue empties into the heap. */
  lemma {:induction false} DrainedMembers(b: Inbox, x: Entry<Msg>)
    requires EventOrder.Sorted(b.heap) && Older(b.heap, b.sequence) && |b.heap| + |b.queue| <= AUDIO_EVENT_HEAP_MAX
    ensures var r := Drained(b);
            && r.queue == [] && r.sequence == b.sequence + |b.queue| && |r.heap| == |b.heap| + |b.queue|
            && EventOrder.Sorted(r.heap) && Older(r.heap, r.sequence)
            && (x in r.heap <==> (x in b.heap || InQueue(b, x)))
    decreases |b.queue|
  {
    hide EventOrder.Sorted;
    hide Older;
    hide Insert;
    if b.queue != [] {
      var e := Numbered(b.queue[0], b.sequence);
      InsertSorted(b.heap, e);
      InsertMember(b.heap, e, x);
      DrainedMembers(Inbox(Insert(b.heap, e), b.sequence + 1, b.queue[1..]), x);
    }
  }

  /** The message would get the number of `x`, and `x` is its entry. */
  predicate InQueue(b: Inbox, x: Entry<Msg>) {
    b.sequence <= x.sequence < b.sequence + |b.queue| && x == Numbered(b.queue[x.sequence - b.sequence], x.sequence)
  }

  function Numbered(m: Msg, k: nat): Entry<Msg> {
    Entry(m.tick, k, m)
  }

  lemma InsertMember(q: seq<Entry<Msg>>, e: Entry<Msg>, x: Entry<Msg>)
    ensures x in Insert(q, e) <==> x in q || x == e
  {
    InsertMultiset(q, e);
    assert x in Insert(q, e) <==> x in multiset(Insert(q, e));
    assert x in q <==> x in multiset(q);
  }

  lemma DueOrder(heap: seq<Entry<Msg>>, end: nat)
    requires EventOrder.Sorted(heap)
    ensures var n := DueBefore(heap, end);
            && (forall i :: 0 <= i < n ==> heap[i].tick < end) && (forall i :: n <= i < |heap| ==> heap[i].tick >= end)
            && EventOrder.Sorted(heap[..n]) && EventOrder.Sorted(heap[n..])
  {
    var n := DueBefore(heap, end);
    forall i | n <= i < |heap| ensures heap[i].tick >= end {
      if i > n {
        assert Before(heap[n], heap[i]);
      }
    }
  }

  /** The events before `end` are a prefix of the sorted heap. */
  lemma DueMembers(heap: seq<Entry<Msg>>, end: nat, x: Entry<Msg>)
    requires EventOrder.Sorted(heap)
    ensures var n := DueBefore(heap, end);
            && (x in heap[..n] <==> x in heap && x.tick < end)
            && (x in heap[n..] <==> x in heap && x.tick >= end)
            && EventOrder.Sorted(heap[..n]) && EventOrder.Sorted(heap[n..])
  {
    hide EventOrder.Sorted;
    hide DueBefore;
    DueOrder(heap, end);
    var n := DueBefore(heap, end);
    assert heap == heap[..n] + heap[n..];
    SideOf(heap[..n], heap[n..], end, x);
  }

  lemma SideOf(early: seq<Entry<Msg>>, late: seq<Entry<Msg>>, end: nat, x: Entry<Msg>)
    requires forall i :: 0 <= i < |early| ==> early[i].tick < end
    requires forall i :: 0 <= i < |late| ==> late[i].tick >= end
    ensures x in early <==> x in early + late && x.tick < end
    ensures x in late <==> x in early + late && x.tick >= end
  {
    if x in early {
      var i :| 0 <= i < |early| && early[i] == x;
    }
    if x in late {
      var i :| 0 <= i < |late| && late[i] == x;
    }
  }

  // ---- Runs of blocks ----------------------------------------------------------------------

  /** A block and the instructions put in the ring since the block before it. */
  datatype Block = Block(start: nat, frames: nat, pushed: seq<Msg>)

  function End(b: Block): nat {
    b.start + b.frames
  }

  datatype Audio = Audio(heap: seq<Entry<Msg>>, sequence: nat, queue: seq<Msg>, table: seq<Cancellation>)

  /** What a block finds: the messages left in the ring come before those pushed since. */
  function Found(a: Audio, b: Block): Inbox {
    Inbox(a.heap, a.sequence, a.queue + b.pushed)
  }

  /** The events that `process_audio_events_pre` takes from the heap in a block. */
  function Taken(a: Audio, b: Block): seq<Entry<Msg>> {
    var heap := Drained(Found(a, b)).heap;
    heap[..DueBefore(heap, End(b))]
  }

  function AfterBlock(a: Audio, b: Block): Audio {
    var inbox := Drained(Found(a, b));
    Audio(inbox.heap[DueBefore(inbox.heap, End(b))..], inbox.sequence, inbox.queue, TableThrough(Taken(a, b), a.table))
  }

  /** The state before block `k`. */
  function StateAt(blocks: seq<Block>, k: nat): Audio
    requires k <= |blocks|
  {
    if k == 0 then Audio([], 0, [], []) else AfterBlock(StateAt(blocks, k - 1), blocks[k - 1])
  }

  /** Everything pushed before block `k` is processed, in push order. */
  function History(blocks: seq<Block>, k: nat): (r: seq<Msg>)
    requires k <= |blocks|
  {
    if k == 0 then [] else History(blocks, k - 1) + blocks[k - 1].pushed
  }

  predicate Fits(b: Inbox) {
    |b.heap| + |b.queue| <= AUDIO_EVENT_HEAP_MAX
  }

  /** There is room for every message in every block. */
  predicate Room(blocks: seq<Block>) {
    forall k :: 0 <= k < |blocks| ==> Fits(Found(StateAt(blocks, k), blocks[k]))
  }

  /** Push number `i` has arrived by block `j`. */
  predicate ArrivedBy(blocks: seq<Block>, j: nat, i: nat)
    requires j < |blocks|
  {
    i < |History(blocks, j + 1)|
  }

  /** No block before `k` in which push `i` was there already reached its tick. */
  predicate NotYet(blocks: seq<Block>, k: nat, i: nat, tick: nat)
    requires k <= |blocks|
  {
    forall j :: 0 <= j < k && ArrivedBy(blocks, j, i) ==> tick >= End(blocks[j])
  }

  lemma {:induction false} HistoryGrows(blocks: seq<Block>, j: nat, k: nat)
    requires j <= k <= |blocks|
    ensures |History(blocks, j)| <= |History(blocks, k)|
    ensures History(blocks, k)[..|History(blocks, j)|] == History(blocks, j)
    decreases k
  {
    if j < k {
      HistoryGrows(blocks, j, k - 1);
      var h := History(blocks, k - 1);
      assert (h + blocks[k - 1].pushed)[..|History(blocks, j)|] == h[..|History(blocks, j)|];
    }
  }

  /** Before block `k` the heap holds exactly the messages that arrived and are not due yet. */
  predicate Holds(blocks: seq<Block>, k: nat, x: Entry<Msg>)
    requires k <= |blocks|
  {
    && x.sequence < |History(blocks, k)|
    && x == Numbered(History(blocks, k)[x.sequence], x.sequence)
    && NotYet(blocks, k, x.sequence, x.tick)
  }

  lemma {:induction false} HeapAt(blocks: seq<Block>, k: nat, x: Entry<Msg>)
    requires k <= |blocks| && Room(blocks)
    ensures var a := StateAt(blocks, k);
            && EventOrder.Sorted(a.heap) && Older(a.heap, a.sequence) && a.sequence == |History(blocks, k)|
            && a.queue == []
            && (x in a.heap <==> Holds(blocks, k, x))
    decreases k
  {
    hide EventOrder.Sorted;
    hide Older;
    hide Drained;
    hide DueBefore;
    hide TableThrough;
    hide Holds;
    hide Room;
    hide Taken;
    hide AfterBlock;
    if k == 0 {
      NothingHeld(blocks, x);
    } else {
      HeapAt(blocks, k - 1, x);
      BlockMembers(blocks, k - 1, x);
    }
  }

  lemma NothingHeld(blocks: seq<Block>, x: Entry<Msg>)
    ensures !Holds(blocks, 0, x)
    ensures EventOrder.Sorted<Msg>([]) && Older<Msg>([], 0) && x !in []
  {
  }

  /** Entries of the messages pushed for block `k`, and of those held before it. */
  lemma PushedOrHeld(blocks: seq<Block>, k: nat, heap: seq<Entry<Msg>>, x: Entry<Msg>)
    requires k < |blocks|
    ensures var h, next := History(blocks, k), History(blocks, k + 1);
            && |h| <= |next| == |h| + |blocks[k].pushed|
            && (InQueue(Inbox(heap, |h|, blocks[k].pushed), x)
                <==> |h| <= x.sequence < |next| && x == Numbered(next[x.sequence], x.sequence))
            && (Holds(blocks, k, x)
                <==> x.sequence < |h| && x == Numbered(next[x.sequence], x.sequence)
                     && NotYet(blocks, k, x.sequence, x.tick))
  {
    hide NotYet;
    hide Numbered;
  }

  lemma AllFound(a: Audio, b: Block)
    requires a.queue == []
    ensures Found(a, b) == Inbox(a.heap, a.sequence, b.pushed)
  {
    assert a.queue + b.pushed == b.pushed;
  }

  lemma RoomFor(blocks: seq<Block>, k: nat)
    requires k < |blocks| && Room(blocks)
    ensures var f := Found(StateAt(blocks, k), blocks[k]); |f.heap| + |f.queue| <= AUDIO_EVENT_HEAP_MAX
  {
    hide StateAt;
    hide Found;
  }

  /** The messages in the heap when block `k` takes its events. */
  lemma ArrivedMembers(blocks: seq<Block>, k: nat, x: Entry<Msg>)
    requires k < |blocks| && Room(blocks)
    requires var a := StateAt(blocks, k);
             && EventOrder.Sorted(a.heap) && Older(a.heap, a.sequence) && a.sequence == |History(blocks, k)|
             && a.queue == []
             && (x in a.heap <==> Holds(blocks, k, x))
    ensures var a := StateAt(blocks, k);
            var r := Drained(Found(a, blocks[k]));
            && EventOrder.Sorted(r.heap) && Older(r.heap, r.sequence) && r.sequence == |History(blocks, k + 1)|
            && r.queue == []
            && (x in r.heap <==>
                x.sequence < |History(blocks, k + 1)| && x == Numbered(History(blocks, k + 1)[x.sequence], x.sequence)
                && NotYet(blocks, k, x.sequence, x.tick))
  {
    hide *;
    var a := StateAt(blocks, k);
    AllFound(a, blocks[k]);
    RoomFor(blocks, k);
    DrainedMembers(Found(a, blocks[k]), x);
    PushedOrHeld(blocks, k, a.heap, x);
    if x.sequence >= |History(blocks, k)| {
      LateNotYet(blocks, k, x.sequence, x.tick);
    }
  }

  /** A message that arrives for block `k` was in no block before. */
  lemma LateNotYet(blocks: seq<Block>, k: nat, i: nat, tick: nat)
    requires k < |blocks| && i >= |History(blocks, k)|
    ensures NotYet(blocks, k, i, tick)
  {
    forall j | 0 <= j < k ensures !ArrivedBy(blocks, j, i) {
      HistoryGrows(blocks, j + 1, k);
    }
  }

  lemma BlockMembers(blocks: seq<Block>, k: nat, x: Entry<Msg>)
    requires k < |blocks| && Room(blocks)
    requires var a := StateAt(blocks, k);
             && EventOrder.Sorted(a.heap) && Older(a.heap, a.sequence) && a.sequence == |History(blocks, k)|
             && a.queue == []
             && (x in a.heap <==> Holds(blocks, k, x))
    ensures var a := StateAt(blocks, k + 1);
            && EventOrder.Sorted(a.heap) && Older(a.heap, a.sequence) && a.sequence == |History(blocks, k + 1)|
            && a.queue == []
            && (x in a.heap <==> Holds(blocks, k + 1, x))
  {
    hide EventOrder.Sorted;
    hide Drained;
    hide DueBefore;
    hide TableThrough;
    hide History;
    hide NotYet;
    hide Room;
    ArrivedMembers(blocks, k, x);
    var a := StateAt(blocks, k);
    var r := Drained(Found(a, blocks[k]));
    DueMembers(r.heap, End(blocks[k]), x);
    NotYetNext(blocks, k, x.sequence, x.tick);
  }

  lemma NotYetNext(blocks: seq<Block>, k: nat, i: nat, tick: nat)
    requires k < |blocks|
    ensures NotYet(blocks, k + 1, i, tick)
        <==> NotYet(blocks, k, i, tick) && (ArrivedBy(blocks, k, i) ==> tick >= End(blocks[k]))
  {
  }

  /** Over any run of blocks with room: push number `i` is taken in block `k` exactly when it has
      arrived, its tick lies before the end of block `k`, and this is the first such block. */
  lemma ExactlyOnce(blocks: seq<Block>, k: nat, x: Entry<Msg>)
    requires k < |blocks| && Room(blocks)
    ensures x in Taken(StateAt(blocks, k), blocks[k])
        <==> && ArrivedBy(blocks, k, x.sequence)
             && x == Numbered(History(blocks, k + 1)[x.sequence], x.sequence)
             && x.tick < End(blocks[k])
             && NotYet(blocks, k, x.sequence, x.tick)
  {
    hide EventOrder.Sorted;
    hide Older;
    hide Drained;
    hide DueBefore;
    hide TableThrough;
    hide History;
    hide NotYet;
    hide Room;
    hide StateAt;
    HeapAt(blocks, k, x);
    ArrivedMembers(blocks, k, x);
    var a := StateAt(blocks, k);
    DueMembers(Drained(Found(a, blocks[k])).heap, End(blocks[k]), x);
  }

  /** The events of a block come by tick, then by push number; so none comes twice. */
  lemma TakenInOrder(blocks: seq<Block>, k: nat)
    requires k < |blocks| && Room(blocks)
    ensures EventOrder.Sorted(Taken(StateAt(blocks, k), blocks[k]))
    ensures forall i, j :: 0 <= i < j < |Taken(StateAt(blocks, k), blocks[k])| ==>
                             Taken(StateAt(blocks, k), blocks[k])[i] != Taken(StateAt(blocks, k), blocks[k])[j]
  {
    hide Older;
    hide Drained;
    hide DueBefore;
    hide TableThrough;
    hide History;
    hide NotYet;
    hide Room;
    hide StateAt;
    var a := StateAt(blocks, k);
    var x := Entry(0, 0, Msg(0, None, NodeRemove(null)));
    HeapAt(blocks, k, x);
    ArrivedMembers(blocks, k, x);
    DueMembers(Drained(Found(a, blocks[k])).heap, End(blocks[k]), x);
  }

  // ---- Taken, then applied or dropped ---------------------------------------------------------

  /** The table when the event at position `i` of those taken comes up. */
  function TableFor(taken: seq<Entry<Msg>>, table: seq<Cancellation>, i: nat): seq<Cancellation>
    requires i <= |taken|
  {
    TableThrough(taken[..i], table)
  }

  lemma {:induction false} ThroughSnoc(taken: seq<Entry<Msg>>, table: seq<Cancellation>, e: Entry<Msg>)
    ensures TableThrough(taken + [e], table) == TableAfter(TableThrough(taken, table), e.item)
  {
    hide TableAfter;
    if taken == [] {
      assert taken + [e] == [e] && [e][1..] == [];
    } else {
      assert (taken + [e])[0] == taken[0] && (taken + [e])[1..] == taken[1..] + [e];
      ThroughSnoc(taken[1..], TableAfter(table, taken[0].item), e);
    }
  }

  lemma Regroup(a: seq<Entry<Msg>>, b: seq<Entry<Msg>>, c: seq<Entry<Msg>>)
    ensures a + (b + c) == a + b + c
  {
  }

  lemma {:induction false} AppliedSnoc(taken: seq<Entry<Msg>>, table: seq<Cancellation>, e: Entry<Msg>)
    ensures Applied(taken + [e], table)
         == Applied(taken, table) + (if Applies(TableThrough(taken, table), e.item) then [e] else [])
  {
    hide TableAfter;
    hide Applies;
    if taken == [] {
      assert taken + [e] == [e] && [e][1..] == [];
    } else {
      assert (taken + [e])[0] == taken[0] && (taken + [e])[1..] == taken[1..] + [e];
      AppliedSnoc(taken[1..], TableAfter(table, taken[0].item), e);
      var head := if Applies(table, taken[0].item) then [taken[0]] else [];
      var last := if Applies(TableThrough(taken, table), e.item) then [e] else [];
      Regroup(head, Applied(taken[1..], TableAfter(table, taken[0].item)), last);
    }
  }

  /** The applied events are taken events in the same order. */
  lemma {:induction false} AppliedInOrder(taken: seq<Entry<Msg>>, table: seq<Cancellation>)
    requires EventOrder.Sorted(taken)
    ensures EventOrder.Sorted(Applied(taken, table))
    ensures forall e :: e in Applied(taken, table) ==> e in taken
    decreases |taken|
  {
    hide TableThrough;
    hide Applies;
    hide Before;
    if taken != [] {
      var n := |taken| - 1;
      var front, e := taken[..n], taken[n];
      assert taken == front + [e];
      AppliedSnoc(front, table, e);
      AppliedInOrder(front, table);
      AppliedSorted(Applied(front, table), front, e);
    }
  }

  /** Of the events taken, the applied ones are exactly those that neither cancel nor are cancelled by
      an event before them. */
  lemma {:induction false} AppliedExactly(taken: seq<Entry<Msg>>, table: seq<Cancellation>, i: nat)
    requires EventOrder.Sorted(taken) && i < |taken|
    ensures taken[i] in Applied(taken, table) <==> Applies(TableFor(taken, table, i), taken[i].item)
    decreases |taken|
  {
    hide Applied;
    hide TableThrough;
    hide Applies;
    hide EventOrder.Sorted;
    var n := |taken| - 1;
    var front, e := taken[..n], taken[n];
    assert taken == front + [e];
    FrontSorted(taken, n);
    AppliedSnoc(front, table, e);
    AppliedInOrder(front, table);
    if i < n {
      AppliedExactly(front, table, i);
      assert front[i] == taken[i] && front[..i] == taken[..i];
      DifferentEvents(taken, i, n);
    } else {
      NotIn(taken, n);
      assert taken[..i] == front;
    }
  }

  lemma FrontSorted(taken: seq<Entry<Msg>>, n: nat)
    requires EventOrder.Sorted(taken) && n <= |taken|
    ensures EventOrder.Sorted(taken[..n])
  {
    hide Before;
  }

  lemma DifferentEvents(taken: seq<Entry<Msg>>, i: nat, j: nat)
    requires EventOrder.Sorted(taken) && i < j < |taken|
    ensures taken[i] != taken[j]
  {
  }

  lemma NotIn(taken: seq<Entry<Msg>>, n: nat)
    requires EventOrder.Sorted(taken) && n == |taken| - 1
    ensures taken[n] !in taken[..n]
  {
    hide Before;
    forall i | 0 <= i < n ensures taken[..n][i] != taken[n] {
      DifferentEvents(taken, i, n);
    }
  }

  lemma AppliedSorted(a: seq<Entry<Msg>>, front: seq<Entry<Msg>>, e: Entry<Msg>)
    requires EventOrder.Sorted(a) && EventOrder.Sorted(front + [e]) && forall x :: x in a ==> x in front
    ensures EventOrder.Sorted(a + [e])
  {
    hide Before;
    forall i | 0 <= i < |a| ensures Before(a[i], e) {
      assert a[i] in front;
      var j :| 0 <= j < |front| && front[j] == a[i];
      assert Before((front + [e])[j], (front + [e])[|front|]);
    }
  }

  // ---- Messages lost ------------------------------------------------------------------------

  function Held(b: Inbox): nat {
    |b.heap| + |b.queue|
  }

  /** Taking the messages of a block loses one exactly when heap and queue together are over the limit. */
  lemma {:induction false} DrainLoses(b: Inbox)
    requires |b.heap| <= AUDIO_EVENT_HEAP_MAX
    ensures Held(Drained(b)) == if Fits(b) then Held(b) else Held(b) - 1
    ensures |Drained(b).heap| <= AUDIO_EVENT_HEAP_MAX && |Drained(b).heap| >= |b.heap|
    decreases |b.queue|
  {
    hide Insert;
    if b.queue != [] && |b.heap| < AUDIO_EVENT_HEAP_MAX {
      DrainLoses(Inbox(Insert(b.heap, Numbered(b.queue[0], b.sequence)), b.sequence + 1, b.queue[1..]));
    }
  }

  /** A message that finds the heap full is gone, and nothing else changes. */
  lemma FullHeapLoses(heap: seq<Entry<Msg>>, sequence: nat, msg: Msg)
    requires |heap| == AUDIO_EVENT_HEAP_MAX
    ensures Drained(Inbox(heap, sequence, [msg])) == Inbox(heap, sequence, [])
  {
    assert [msg][1..] == [];
  }

  /** How many messages the first `k` blocks took. */
  function TakenBy(blocks: seq<Block>, k: nat): nat
    requires k <= |blocks|
  {
    if k == 0 then 0 else TakenBy(blocks, k - 1) + |Taken(StateAt(blocks, k - 1), blocks[k - 1])|
  }

  /** Every message of the first `k` blocks was taken or is still there. */
  predicate AllKept(blocks: seq<Block>, k: nat)
    requires k <= |blocks|
  {
    TakenBy(blocks, k) + |StateAt(blocks, k).heap| + |StateAt(blocks, k).queue| == |History(blocks, k)|
  }

  predicate RoomUpTo(blocks: seq<Block>, k: nat)
    requires k <= |blocks|
  {
    forall j :: 0 <= j < k ==> Fits(Found(StateAt(blocks, j), blocks[j]))
  }

  /** What one block does to the count. */
  lemma BlockCounts(a: Audio, b: Block)
    requires |a.heap| <= AUDIO_EVENT_HEAP_MAX
    ensures var r := AfterBlock(a, b);
            && |r.heap| <= AUDIO_EVENT_HEAP_MAX
            && |Taken(a, b)| + |r.heap| + |r.queue|
               == |a.heap| + |a.queue| + |b.pushed| - if Fits(Found(a, b)) then 0 else 1
  {
    hide Drained;
    hide DueBefore;
    hide TableThrough;
    DrainLoses(Found(a, b));
  }

  lemma {:induction false} LostUpTo(blocks: seq<Block>, k: nat)
    requires k <= |blocks|
    ensures |StateAt(blocks, k).heap| <= AUDIO_EVENT_HEAP_MAX
    ensures TakenBy(blocks, k) + |StateAt(blocks, k).heap| + |StateAt(blocks, k).queue| <= |History(blocks, k)|
    ensures AllKept(blocks, k) <==> RoomUpTo(blocks, k)
    decreases k
  {
    hide AfterBlock;
    hide Taken;
    hide Found;
    hide Fits;
    if k > 0 {
      LostUpTo(blocks, k - 1);
      BlockCounts(StateAt(blocks, k - 1), blocks[k - 1]);
      assert Fits(Found(StateAt(blocks, k - 1), blocks[k - 1])) || !RoomUpTo(blocks, k);
    }
  }

  /** In a run of blocks no message is lost if and only if there is room in every block. */
  lemma NothingLost(blocks: seq<Block>)
    ensures AllKept(blocks, |blocks|) <==> Room(blocks)
  {
    hide StateAt;
    hide Found;
    LostUpTo(blocks, |blocks|);
  }

  lemma {:induction false} DrainLater(b: Inbox, end: nat)
    requires (forall e :: e in b.heap ==> e.tick >= end) && (forall m :: m in b.queue ==> m.tick >= end)
    ensures forall e :: e in Drained(b).heap ==> e.tick >= end
    decreases |b.queue|
  {
    hide Insert;
    if b.queue != [] && |b.heap| < AUDIO_EVENT_HEAP_MAX {
      var e := Numbered(b.queue[0], b.sequence);
      var next := Inbox(Insert(b.heap, e), b.sequence + 1, b.queue[1..]);
      forall x | x in next.heap ensures x.tick >= end {
        InsertMember(b.heap, e, x);
      }
      DrainLater(next, end);
    }
  }

  /** A block before every message only takes them into the heap. */
  lemma QuietBlock(a: Audio, b: Block)
    requires (forall e :: e in a.heap ==> e.tick >= End(b))
             && (forall m :: m in a.queue + b.pushed ==> m.tick >= End(b))
    ensures var r := Drained(Found(a, b));
            Taken(a, b) == [] && AfterBlock(a, b) == Audio(r.heap, r.sequence, r.queue, a.table)
  {
    hide Drained;
    DrainLater(Found(a, b), End(b));
    var heap := Drained(Found(a, b)).heap;
    assert DueBefore(heap, End(b)) == 0;
    assert heap[0..] == heap && heap[..0] == [];
  }

  /** 256 messages for later fill the heap, and the next one is lost. */
  lemma OneTooMany(msg: Msg)
    requires msg.tick >= 512
    ensures var blocks := [Block(0, 256, seq(256, _ => msg)), Block(256, 256, [msg])];
            && |History(blocks, 2)| == 257 && TakenBy(blocks, 2) == 0
            && |StateAt(blocks, 2).heap| == 256 && StateAt(blocks, 2).queue == []
            && !Room(blocks)
  {
    var blocks := [Block(0, 256, seq(256, _ => msg)), Block(256, 256, [msg])];
    RunOfTwo(blocks);
    var a1 := FirstFills(msg);
    SecondLoses(a1, msg);
    assert !Fits(Found(StateAt(blocks, 1), blocks[1]));
  }

  lemma RunOfTwo(blocks: seq<Block>)
    requires |blocks| == 2
    ensures StateAt(blocks, 1) == AfterBlock(Audio([], 0, [], []), blocks[0])
    ensures StateAt(blocks, 2) == AfterBlock(StateAt(blocks, 1), blocks[1])
    ensures |History(blocks, 2)| == |blocks[0].pushed| + |blocks[1].pushed|
    ensures TakenBy(blocks, 2) == |Taken(Audio([], 0, [], []), blocks[0])| + |Taken(StateAt(blocks, 1), blocks[1])|
  {
    hide AfterBlock;
    hide Taken;
    assert StateAt(blocks, 0) == Audio([], 0, [], []);
    assert |History(blocks, 1)| == |blocks[0].pushed|;
    assert TakenBy(blocks, 1) == |Taken(StateAt(blocks, 0), blocks[0])|;
  }

  lemma FirstFills(msg: Msg) returns (a: Audio)
    requires msg.tick >= 512
    ensures var b := Block(0, 256, seq(256, _ => msg));
            && a == AfterBlock(Audio([], 0, [], []), b) && Taken(Audio([], 0, [], []), b) == []
    ensures |a.heap| == 256 && a.queue == [] && forall e :: e in a.heap ==> e.tick >= 512
  {
    hide Drained;
    hide AfterBlock;
    hide Taken;
    var start, b := Audio([], 0, [], []), Block(0, 256, seq(256, _ => msg));
    a := AfterBlock(start, b);
    assert Found(start, b) == Inbox([], 0, b.pushed) by { assert [] + b.pushed == b.pushed; }
    DrainedMembers(Found(start, b), Numbered(msg, 0));
    DrainLater(Found(start, b), 512);
    QuietBlock(start, b);
  }

  lemma SecondLoses(a: Audio, msg: Msg)
    requires |a.heap| == 256 && a.queue == [] && msg.tick >= 512 && forall e :: e in a.heap ==> e.tick >= 512
    ensures var b := Block(256, 256, [msg]);
            && Taken(a, b) == [] && AfterBlock(a, b) == a && !Fits(Found(a, b))
  {
    hide Drained;
    hide AfterBlock;
    hide Taken;
    var b := Block(256, 256, [msg]);
    assert Found(a, b) == Inbox(a.heap, a.sequence, [msg]) by { assert [] + [msg] == [msg]; }
    FullHeapLoses(a.heap, a.sequence, msg);
    QuietBlock(a, b);
  }
}
