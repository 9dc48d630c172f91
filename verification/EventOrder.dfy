/** The order of timed events and binary heaps of them, as sequences: both event heaps
    (engine/scheduling.c and engine/audio_instructions.c) sift the same way. */
module EventOrder {

  /** The most events collected at once, and the most in the heap of the audio thread. */
  const MAX_BATCH := 64
  const AUDIO_EVENT_HEAP_MAX := 256

  /** An event under its key: the tick it waits for, then the order of arrival. */
  datatype Entry<T> = Entry(tick: nat, sequence: nat, item: T)

  /** `event_before` and `audio_event_before` */
  predicate Before<T>(a: Entry<T>, b: Entry<T>) {
    if a.tick != b.tick then a.tick < b.tick else a.sequence < b.sequence
  }

  // ---- Queues as sorted lists ------------------------------------------------------

  predicate Sorted<T>(q: seq<Entry<T>>) {
    forall i, j :: 0 <= i < j < |q| ==> Before(q[i], q[j])
  }

  /** Every event arrived before the next sequence number is given. */
  predicate Older<T>(q: seq<Entry<T>>, next: nat) {
    forall i :: 0 <= i < |q| ==> q[i].sequence < next
  }

  function Insert<T>(q: seq<Entry<T>>, e: Entry<T>): (r: seq<Entry<T>>)
    ensures |r| == |q| + 1
  {
    if q == [] || Before(e, q[0]) then [e] + q else [q[0]] + Insert(q[1..], e)
  }

  lemma {:induction false} InsertMultiset<T>(q: seq<Entry<T>>, e: Entry<T>)
    ensures multiset(Insert(q, e)) == multiset(q) + multiset{e}
  {
    if q == [] || Before(e, q[0]) {
    } else {
      InsertMultiset(q[1..], e);
      assert q == [q[0]] + q[1..];
    }
  }

  lemma SortedTail<T>(q: seq<Entry<T>>)
    requires Sorted(q) && q != []
    ensures Sorted(q[1..])
    ensures forall i :: 0 <= i < |q[1..]| ==> Before(q[0], q[1..][i])
  {
  }

  lemma SortedCons<T>(e: Entry<T>, q: seq<Entry<T>>)
    requires Sorted(q) && (q != [] ==> Before(e, q[0]))
    ensures Sorted([e] + q)
  {
    forall i, j | 0 <= i < j < |[e] + q| ensures Before(([e] + q)[i], ([e] + q)[j]) {
      if i == 0 && j > 1 {
        assert Before(q[0], q[j - 1]);
      }
    }
  }

  lemma {:induction false} InsertSorted<T>(q: seq<Entry<T>>, e: Entry<T>)
    requires Sorted(q) && Older(q, e.sequence)
    ensures Sorted(Insert(q, e)) && Older(Insert(q, e), e.sequence + 1)
  {
    if q == [] || Before(e, q[0]) {
      SortedCons(e, q);
    } else {
      SortedTail(q);
      assert Older(q[1..], e.sequence);
      InsertSorted(q[1..], e);
      InsertHead(q[1..], e);
      SortedCons(q[0], Insert(q[1..], e));
    }
  }

  lemma InsertHead<T>(q: seq<Entry<T>>, e: Entry<T>)
    ensures Insert(q, e)[0] == if q == [] || Before(e, q[0]) then e else q[0]
  {
  }

  /** Sorted lists of the same events are equal. */
  lemma {:induction false} SortedUnique<T>(p: seq<Entry<T>>, q: seq<Entry<T>>)
    requires Sorted(p) && Sorted(q) && multiset(p) == multiset(q)
    ensures p == q
  {
    if p == [] {
      assert |multiset(q)| == 0;
    } else {
      assert p[0] in multiset(p);
      assert q != [] by { assert |multiset(p)| == |multiset(q)|; }
      assert q[0] in multiset(q);
      HeadUnique(p, q);
      SortedTail(p);
      SortedTail(q);
      assert p == [p[0]] + p[1..] && q == [q[0]] + q[1..];
      assert multiset(p[1..]) == multiset(p) - multiset{p[0]};
      SortedUnique(p[1..], q[1..]);
    }
  }

  lemma SortedHead<T>(q: seq<Entry<T>>, i: nat)
    requires Sorted(q) && i < |q|
    ensures q[0] == q[i] || Before(q[0], q[i])
  {
  }

  lemma HeadUnique<T>(p: seq<Entry<T>>, q: seq<Entry<T>>)
    requires Sorted(p) && Sorted(q) && p != [] && q != [] && p[0] in q && q[0] in p
    ensures p[0] == q[0]
  {
    var i :| 0 <= i < |q| && q[i] == p[0];
    var j :| 0 <= j < |p| && p[j] == q[0];
    SortedHead(q, i);
    SortedHead(p, j);
  }

  // ---- Heaps in an array -----------------------------------------------------------------

  function Parent(i: nat): (p: nat)
    requires i > 0
    ensures p < i
  {
    (i - 1) / 2
  }

  predicate InOrder<T>(s: seq<Entry<T>>, i: nat)
    requires 0 < i < |s|
  {
    !Before(s[i], s[Parent(i)])
  }

  predicate Heap<T>(s: seq<Entry<T>>) {
    forall i :: 0 < i < |s| ==> InOrder(s, i)
  }

  /** In order but for `k` above its parent; what is below `k` is not before that parent. */
  predicate HeapButUp<T>(s: seq<Entry<T>>, k: nat) {
    && k < |s|
    && (forall i :: 0 < i < |s| && i != k ==> InOrder(s, i))
    && (k > 0 ==> forall i :: 0 < i < |s| && Parent(i) == k ==> !Before(s[i], s[Parent(k)]))
  }

  /** In order but for `k` above its children. */
  predicate HeapButDown<T>(s: seq<Entry<T>>, k: nat) {
    && k < |s|
    && (forall i :: 0 < i < |s| && Parent(i) != k ==> InOrder(s, i))
    && (k > 0 ==> forall i :: 0 < i < |s| && Parent(i) == k ==> !Before(s[i], s[Parent(k)]))
  }

  function Swap<T>(s: seq<Entry<T>>, i: nat, j: nat): (r: seq<Entry<T>>)
    requires i < |s| && j < |s|
    ensures |r| == |s| && r[i] == s[j] && r[j] == s[i]
    ensures forall k :: 0 <= k < |s| && k != i && k != j ==> r[k] == s[k]
  {
    s[i := s[j]][j := s[i]]
  }

  lemma SwapMultiset<T>(s: seq<Entry<T>>, i: nat, j: nat)
    requires i < |s| && j < |s|
    ensures multiset(Swap(s, i, j)) == multiset(s)
  {
  }

  lemma BeforeTotal<T>(a: Entry<T>, b: Entry<T>, c: Entry<T>)
    ensures Before(a, b) ==> !Before(b, a)
    ensures !Before(b, a) && !Before(c, b) ==> !Before(c, a)
    ensures Before(a, b) && !Before(c, b) ==> !Before(c, a)
  {
  }

  /** One round of `heapify_up`. */
  lemma UpRound<T>(s: seq<Entry<T>>, k: nat)
    requires HeapButUp(s, k) && k > 0
    ensures Before(s[k], s[Parent(k)]) ==> HeapButUp(Swap(s, k, Parent(k)), Parent(k))
    ensures !Before(s[k], s[Parent(k)]) ==> Heap(s)
  {
    hide Before;
    hide Swap;
    var p := Parent(k);
    if Before(s[k], s[p]) {
      var r := Swap(s, k, p);
      BeforeTotal(s[k], s[p], s[p]);
      forall i | 0 < i < |s| && i != p ensures InOrder(r, i) {
        if i == k {
        } else if Parent(i) == k {
        } else if Parent(i) == p {
          BeforeTotal(s[k], s[p], s[i]);
          assert InOrder(s, i);
        } else {
          assert InOrder(s, i);
        }
      }
      if p > 0 {
        assert InOrder(s, p);
        forall i | 0 < i < |s| && Parent(i) == p ensures !Before(r[i], r[Parent(p)]) {
          if i != k {
            assert InOrder(s, i);
            BeforeTotal(s[Parent(p)], s[p], s[i]);
          }
        }
      }
    } else {
      forall i | 0 < i < |s| ensures InOrder(s, i) {
      }
    }
  }

  /** The child that `heapify_down` compares with: the least of `k` and its children. */
  predicate IsLeastOf<T>(s: seq<Entry<T>>, k: nat, c: nat) {
    && k < |s| && c < |s|
    && (c == k || (c > 0 && Parent(c) == k && Before(s[c], s[k])))
    && forall i :: 0 < i < |s| && Parent(i) == k ==> !Before(s[i], s[c])
  }

  /** One round of `heapify_down`. */
  lemma DownRound<T>(s: seq<Entry<T>>, k: nat, c: nat)
    requires HeapButDown(s, k) && IsLeastOf(s, k, c)
    ensures c != k ==> HeapButDown(Swap(s, k, c), c)
    ensures c == k ==> Heap(s)
  {
    hide Before;
    hide Swap;
    if c != k {
      var r := Swap(s, k, c);
      forall i | 0 < i < |s| && Parent(i) != c ensures InOrder(r, i) {
        if i == c {
          BeforeTotal(s[c], s[k], s[k]);
        } else if Parent(i) == k {
        } else if i == k {
        } else {
          assert InOrder(s, i);
        }
      }
      forall i | 0 < i < |s| && Parent(i) == c ensures !Before(r[i], r[Parent(c)]) {
        assert InOrder(s, i);
      }
    } else {
      forall i | 0 < i < |s| ensures InOrder(s, i) {
      }
    }
  }

  /** Nothing is before the root. */
  lemma {:induction false} RootLeast<T>(s: seq<Entry<T>>, i: nat)
    requires Heap(s) && i < |s|
    ensures !Before(s[i], s[0])
    decreases i
  {
    if i > 0 {
      RootLeast(s, Parent(i));
      assert InOrder(s, i);
      BeforeTotal(s[0], s[Parent(i)], s[i]);
    }
  }

  /** The root of a heap is the head of its sorted list. */
  lemma RootIsHead<T>(s: seq<Entry<T>>, q: seq<Entry<T>>)
    requires Heap(s) && Sorted(q) && multiset(s) == multiset(q) && s != []
    ensures q != [] && q[0] == s[0]
  {
    assert s[0] in multiset(s);
    assert q != [];
    assert q[0] in multiset(q);
    var i :| 0 <= i < |s| && s[i] == q[0];
    var j :| 0 <= j < |q| && q[j] == s[0];
    RootLeast(s, i);
    SortedHead(q, j);
  }

  /** A heap with an event appended is out of order only there. */
  lemma Appended<T>(s: seq<Entry<T>>, e: Entry<T>)
    requires Heap(s)
    ensures HeapButUp(s + [e], |s|)
  {
    var r := s + [e];
    forall i | 0 < i < |r| && i != |s| ensures InOrder(r, i) {
      assert InOrder(s, i);
      assert r[i] == s[i] && r[Parent(i)] == s[Parent(i)];
    }
  }

  /** A heap whose root is replaced by the last event is out of order only there. */
  lemma RootReplaced<T>(s: seq<Entry<T>>)
    requires Heap(s) && |s| > 1
    ensures HeapButDown(s[..|s| - 1][0 := s[|s| - 1]], 0)
    ensures multiset(s[..|s| - 1][0 := s[|s| - 1]]) == multiset(s) - multiset{s[0]}
  {
    var n := |s| - 1;
    var r := s[..n][0 := s[n]];
    forall i | 0 < i < |r| && Parent(i) != 0 ensures InOrder(r, i) {
      assert InOrder(s, i);
      assert r[i] == s[i] && r[Parent(i)] == s[Parent(i)];
    }
    assert s == [s[0]] + s[1..n] + [s[n]];
    assert r == [s[n]] + s[1..n];
  }
}
