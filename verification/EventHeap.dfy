/** The two event heaps: the growing one of the scheduler (engine/scheduling.c) and the one of 256
    events in the audio thread (engine/audio_instructions.c). Both sift in an array; the ghost
    `pending` is the same events as a sorted list. */
module EventHeap {
  import opened Wrappers
  import opened EventOrder

  const INITIAL_CAPACITY := 64

  method SwapEvents<T>(events: array<Entry<T>>, size: nat, i: nat, j: nat)
    requires i < size <= events.Length && j < size
    modifies events
    ensures events[..size] == Swap(old(events[..size]), i, j)
    ensures multiset(events[..size]) == multiset(old(events[..size]))
  {
    var temp := events[i];
    events[i] := events[j];
    events[j] := temp;
    SwapMultiset(old(events[..size]), i, j);
    assert events[..size] == Swap(old(events[..size]), i, j);
  }

  /** `heapify_up` and `heap_up` */
  method HeapifyUp<T>(events: array<Entry<T>>, size: nat, start: nat)
    requires start < size <= events.Length && HeapButUp(events[..size], start)
    modifies events
    ensures Heap(events[..size]) && multiset(events[..size]) == multiset(old(events[..size]))
  {
    hide Heap;
    hide HeapButUp;
    hide Swap;
    hide Before;
    var index: nat := start;
    while index > 0
      invariant index < size && HeapButUp(events[..size], index)
      invariant multiset(events[..size]) == multiset(old(events[..size]))
    {
      var parent: nat := Parent(index);
      UpRound(events[..size], index);
      assert events[..size][index] == events[index] && events[..size][parent] == events[parent];
      if Before(events[index], events[parent]) {
        SwapEvents(events, size, index, parent);
        index := parent;
      } else {
        return;
      }
    }
    UpDone(events[..size]);
  }

  lemma UpDone<T>(s: seq<Entry<T>>)
    requires HeapButUp(s, 0)
    ensures Heap(s)
  {
  }

  /** The comparisons of `heapify_down`: the least of `index` and its children. */
  method Smallest<T>(events: array<Entry<T>>, size: nat, index: nat) returns (smallest: nat)
    requires index < size <= events.Length
    ensures IsLeastOf(events[..size], index, smallest)
  {
    var left := 2 * index + 1;
    var right := 2 * index + 2;
    smallest := index;
    if left < size && Before(events[left], events[smallest]) {
      smallest := left;
    }
    if right < size && Before(events[right], events[smallest]) {
      smallest := right;
    }
  }

  /** `heapify_down` and `heap_down` */
  method HeapifyDown<T>(events: array<Entry<T>>, size: nat, start: nat)
    requires start < size <= events.Length && HeapButDown(events[..size], start)
    modifies events
    ensures Heap(events[..size]) && multiset(events[..size]) == multiset(old(events[..size]))
  {
    hide Heap;
    hide HeapButDown;
    hide Swap;
    hide Before;
    var index := start;
    while true
      invariant index < size && HeapButDown(events[..size], index)
      invariant multiset(events[..size]) == multiset(old(events[..size]))
      decreases size - index
    {
      var smallest := Smallest(events, size, index);
      DownRound(events[..size], index, smallest);
      if smallest != index {
        SwapEvents(events, size, index, smallest);
        index := smallest;
      } else {
        return;
      }
    }
  }

  /** A new last event sifts up. */
  method AppendEvent<T>(events: array<Entry<T>>, size: nat, e: Entry<T>)
    requires size < events.Length && Heap(events[..size])
    modifies events
    ensures Heap(events[..size + 1]) && multiset(events[..size + 1]) == multiset(old(events[..size])) + multiset{e}
  {
    hide Heap;
    hide HeapButUp;
    ghost var was := events[..size];
    events[size] := e;
    assert events[..size + 1] == was + [e];
    Appended(was, e);
    HeapifyUp(events, size + 1, size);
  }

  lemma OnlyEvent<T>(s: seq<Entry<T>>)
    requires |s| == 1
    ensures Heap(s[..0]) && multiset(s[..0]) == multiset(s) - multiset{s[0]}
  {
    assert s == [s[0]] && s[..0] == [];
  }

  /** The root leaves, the last event takes its place and sifts down. */
  method RemoveRoot<T>(events: array<Entry<T>>, size: nat) returns (earliest: Entry<T>)
    requires 0 < size <= events.Length && Heap(events[..size])
    modifies events
    ensures earliest == old(events[0]) && Heap(events[..size - 1])
    ensures multiset(events[..size - 1]) == multiset(old(events[..size])) - multiset{earliest}
  {
    hide HeapButDown;
    hide Heap;
    ghost var was := events[..size];
    earliest := events[0];
    if size > 1 {
      RootReplaced(was);
      events[0] := events[size - 1];
      assert events[..size - 1] == was[..size - 1][0 := was[size - 1]];
      HeapifyDown(events, size - 1, 0);
    } else {
      OnlyEvent(was);
      assert events[..size - 1] == was[..0];
    }
  }

  /** A heap in the first `size` elements of an array, and the same events as a sorted list. */
  ghost predicate Holds<T>(s: seq<Entry<T>>, pending: seq<Entry<T>>) {
    Heap(s) && Sorted(pending) && multiset(s) == multiset(pending)
  }

  lemma HoldsSize<T>(s: seq<Entry<T>>, pending: seq<Entry<T>>)
    requires Holds(s, pending)
    ensures |s| == |pending|
  {
    assert |multiset(s)| == |s| && |multiset(pending)| == |pending|;
  }

  lemma HoldsWhen<T>(s: seq<Entry<T>>, pending: seq<Entry<T>>)
    requires Heap(s) && Sorted(pending) && multiset(s) == multiset(pending)
    ensures Holds(s, pending)
  {
  }

  lemma HoldsMore<T>(s: seq<Entry<T>>, pending: seq<Entry<T>>, e: Entry<T>)
    requires Holds(s, pending) && Older(pending, e.sequence)
    ensures Heap(s) && Sorted(Insert(pending, e))
    ensures multiset(Insert(pending, e)) == multiset(s) + multiset{e}
  {
    hide Heap;
    hide Sorted;
    hide Insert;
    hide Older;
    InsertMultiset(pending, e);
    InsertSorted(pending, e);
  }

  lemma HoldsLess<T>(s: seq<Entry<T>>, pending: seq<Entry<T>>)
    requires Holds(s, pending) && s != []
    ensures pending != [] && s[0] == pending[0] && Heap(s)
    ensures Sorted(pending[1..]) && multiset(pending[1..]) == multiset(s) - multiset{s[0]}
  {
    hide Heap;
    hide Sorted;
    RootIsHead(s, pending);
    Popped(s, pending);
  }

  /** The heap of the scheduler. */
  class EventHeap<T(0)> {
    var events: array<Entry<T>>
    var size: nat
    ghost var pending: seq<Entry<T>>

    ghost predicate Valid()
      reads this, events
    {
      size <= events.Length && events.Length > 0 && Holds(events[..size], pending)
    }

    /** `init_heap` */
    constructor ()
      ensures Valid() && fresh(events) && pending == []
    {
      events := new Entry<T>[INITIAL_CAPACITY];
      size, pending := 0, [];
    }

    /** The array doubles when it is full. */
    method Grow()
      requires Valid()
      modifies this`events
      ensures Valid() && pending == old(pending) && size == old(size) && size < events.Length
      ensures events == old(events) || fresh(events)
    {
      hide Holds;
      if size >= events.Length {
        var bigger := new Entry<T>[events.Length * 2];
        for i := 0 to size
          invariant events == old(events) && size == old(size) && pending == old(pending) && Valid()
          invariant bigger[..i] == events[..i]
        {
          bigger[i] := events[i];
          assert bigger[..i + 1] == bigger[..i] + [bigger[i]];
          assert events[..i + 1] == events[..i] + [events[i]];
        }
        events := bigger;
      }
    }

    /** The part of `push_task_event` and `push_event` that adds an event under a new sequence number. */
    method Push(e: Entry<T>)
      requires Valid() && Older(pending, e.sequence)
      modifies this, events
      ensures Valid() && pending == Insert(old(pending), e)
      ensures events == old(events) || fresh(events)
    {
      hide Heap;
      hide Sorted;
      hide Insert;
      hide Older;
      hide Holds;
      Grow();
      HoldsMore(events[..size], pending, e);
      AppendEvent(events, size, e);
      size := size + 1;
      pending := Insert(pending, e);
      assert Holds(events[..size], pending) by {
        HoldsWhen(events[..size], pending);
      }
    }

    /** `pop_event`; `None` for the empty event of an empty heap. */
    method Pop() returns (r: Option<Entry<T>>)
      requires Valid()
      modifies this, events
      ensures Valid() && events == old(events)
      ensures old(pending) == [] ==> r == None && pending == []
      ensures old(pending) != [] ==> r == Some(old(pending)[0]) && pending == old(pending)[1..]
    {
      hide Holds;
      HoldsSize(events[..size], pending);
      if size == 0 {
        return None;
      }
      ghost var was := events[..size];
      HoldsLess(was, pending);
      assert events[0] == was[0];
      var earliest := RemoveRoot(events, size);
      size := size - 1;
      pending := pending[1..];
      HoldsWhen(events[..size], pending);
      r := Some(earliest);
    }

    /** `collect_due_events`: the earliest events due at `now`, at most 64, earliest first. */
    method CollectDue(now: nat) returns (batch: seq<Entry<T>>)
      requires Valid()
      modifies this, events
      ensures Valid() && events == old(events)
      ensures batch + pending == old(pending) && |batch| <= MAX_BATCH
      ensures forall i :: 0 <= i < |batch| ==> batch[i].tick <= now
      ensures Sorted(batch) && (|batch| < MAX_BATCH ==> forall i :: 0 <= i < |pending| ==> pending[i].tick > now)
    {
      hide Holds;
      hide Sorted;
      HoldsSorted(events[..size], pending);
      batch := [];
      HoldsSize(events[..size], pending);
      while size > 0 && Top().tick <= now && |batch| < MAX_BATCH
        invariant Valid() && events == old(events) && size == |pending|
        invariant batch + pending == old(pending) && |batch| <= MAX_BATCH
        invariant forall i :: 0 <= i < |batch| ==> batch[i].tick <= now
      {
        MovesOn(batch, pending, now);
        var e := Pop();
        batch := batch + [e.value];
        HoldsSize(events[..size], pending);
      }
      BatchSorted(batch, pending, now);
    }

    /** The root, `events[0]`. */
    function Top(): (e: Entry<T>)
      requires Valid() && size > 0
      reads this, events
      ensures pending != [] && e == pending[0]
    {
      RootIsHead(events[..size], pending);
      assert events[..size][0] == events[0];
      events[0]
    }
  }

  lemma Popped<T>(s: seq<Entry<T>>, pending: seq<Entry<T>>)
    requires Holds(s, pending) && s != [] && pending != [] && pending[0] == s[0]
    ensures Sorted(pending[1..]) && multiset(pending[1..]) == multiset(s) - multiset{s[0]}
    ensures |s| == 1 ==> pending[1..] == []
    ensures |s| == 1 ==> Holds(s[..0], [])
  {
    SortedTail(pending);
    assert pending == [pending[0]] + pending[1..];
    HoldsSize(s, pending);
  }

  /** One more event of the batch. */
  lemma MovesOn<T>(batch: seq<Entry<T>>, rest: seq<Entry<T>>, now: nat)
    requires rest != [] && rest[0].tick <= now && forall i :: 0 <= i < |batch| ==> batch[i].tick <= now
    ensures batch + [rest[0]] + rest[1..] == batch + rest
    ensures forall i :: 0 <= i < |batch + [rest[0]]| ==> (batch + [rest[0]])[i].tick <= now
  {
  }

  lemma HoldsSorted<T>(s: seq<Entry<T>>, pending: seq<Entry<T>>)
    requires Holds(s, pending)
    ensures Sorted(pending)
  {
  }

  /** Cutting the pending events leaves a batch in order, full or not, and the rest in order; nothing due stays
      behind a batch that is short. */
  lemma BatchSorted<T>(batch: seq<Entry<T>>, rest: seq<Entry<T>>, now: nat)
    requires Sorted(batch + rest) && |batch| <= MAX_BATCH
    requires |batch| < MAX_BATCH ==> rest == [] || rest[0].tick > now
    ensures Sorted(batch) && Sorted(rest)
    ensures |batch| < MAX_BATCH ==> forall i :: 0 <= i < |rest| ==> rest[i].tick > now
  {
    forall i, j | 0 <= i < j < |batch| ensures Before(batch[i], batch[j]) {
      assert Before((batch + rest)[i], (batch + rest)[j]);
    }
    forall i, j | 0 <= i < j < |rest| ensures Before(rest[i], rest[j]) {
      assert Before((batch + rest)[|batch| + i], (batch + rest)[|batch| + j]);
    }
  }

  /** The heap of the audio thread: 256 events, a full heap refuses. */
  class AudioHeap<T(0)> {
    var events: array<Entry<T>>
    var size: nat
    var sequence: nat
    ghost var pending: seq<Entry<T>>

    ghost predicate Valid()
      reads this, events
    {
      && size <= events.Length == AUDIO_EVENT_HEAP_MAX && Holds(events[..size], pending)
      && Older(pending, sequence) && size == |pending|
    }

    constructor ()
      ensures Valid() && fresh(events) && pending == [] && sequence == 0
    {
      events := new Entry<T>[AUDIO_EVENT_HEAP_MAX];
      size, sequence, pending := 0, 0, [];
    }

    /** `heap_push` */
    method Push(tick: nat, item: T) returns (ok: bool)
      requires Valid()
      modifies this, events
      ensures Valid() && events == old(events) && ok == (|old(pending)| < AUDIO_EVENT_HEAP_MAX)
      ensures ok ==> pending == Insert(old(pending), Entry(tick, old(sequence), item)) && sequence == old(sequence) + 1
      ensures !ok ==> pending == old(pending) && sequence == old(sequence)
    {
      hide Heap;
      hide Sorted;
      hide Insert;
      hide Older;
      if size >= AUDIO_EVENT_HEAP_MAX {
        return false;
      }
      var e := Entry(tick, sequence, item);
      sequence := sequence + 1;
      InsertMultiset(pending, e);
      InsertSorted(pending, e);
      AppendEvent(events, size, e);
      size := size + 1;
      pending := Insert(pending, e);
      ok := true;
    }

    /** `heap_pop` */
    method Pop() returns (e: Entry<T>)
      requires Valid() && size > 0
      modifies this, events
      ensures Valid() && events == old(events) && sequence == old(sequence)
      ensures old(pending) != [] && e == old(pending)[0] && pending == old(pending)[1..]
    {
      hide Heap;
      hide Sorted;
      ghost var was := events[..size];
      RootIsHead(was, pending);
      Popped(was, pending);
      assert events[0] == was[0];
      e := RemoveRoot(events, size);
      size := size - 1;
      pending := pending[1..];
    }

    /** The root, `event_heap[0]`. */
    function Top(): (e: Entry<T>)
      requires Valid() && size > 0
      reads this, events
      ensures pending != [] && e == pending[0]
    {
      RootIsHead(events[..size], pending);
      assert events[..size][0] == events[0];
      events[0]
    }
  }
}
