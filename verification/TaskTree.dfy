/** The task tree of the scheduler (engine/scheduling.c). A task is its index in
    `scheduler_tasks`; a child is always younger than its parent. */
module TaskTree {
  import opened Wrappers

  datatype Task = Task(cancelled: bool, audioCancelSent: bool, completed: bool, remainder: real,
                       parent: Option<nat>, children: seq<nat>)

  type Tasks = seq<Task>

  /** A child's index. */
  predicate IsChild(ts: Tasks, p: nat, c: nat) {
    p < c < |ts| && ts[c].parent == Some(p)
  }

  /** Parent and child links agree. */
  predicate Linked(ts: Tasks) {
    && (forall p, k :: 0 <= p < |ts| && 0 <= k < |ts[p].children| ==> IsChild(ts, p, ts[p].children[k]))
    && (forall c :: 0 <= c < |ts| && ts[c].parent.Some? ==>
          ts[c].parent.value < c && c in ts[ts[c].parent.value].children)
  }

  predicate Done(ts: Tasks, t: nat)
    requires t < |ts|
  {
    ts[t].cancelled || ts[t].completed
  }

  /** `d` is `a` or below it. */
  predicate Descends(ts: Tasks, a: nat, d: nat)
    requires Linked(ts)
    decreases d
  {
    d < |ts| && (d == a || (ts[d].parent.Some? && Descends(ts, a, ts[d].parent.value)))
  }

  /** Below a cancelled task every task is cancelled. */
  predicate DownClosed(ts: Tasks)
    requires Linked(ts)
  {
    forall c :: 0 <= c < |ts| && ts[c].parent.Some? && ts[ts[c].parent.value].cancelled ==> ts[c].cancelled
  }

  /** The same tree; only flags may differ. */
  predicate SameTree(ts: Tasks, us: Tasks) {
    |ts| == |us| && forall i :: 0 <= i < |ts| ==> us[i].parent == ts[i].parent && us[i].children == ts[i].children
  }

  lemma SameLinked(ts: Tasks, us: Tasks)
    requires Linked(ts) && SameTree(ts, us)
    ensures Linked(us)
  {
    forall p, k | 0 <= p < |us| && 0 <= k < |us[p].children| ensures IsChild(us, p, us[p].children[k]) {
      assert IsChild(ts, p, ts[p].children[k]);
    }
  }

  lemma {:induction false} SameDescends(ts: Tasks, us: Tasks, a: nat, d: nat)
    requires Linked(ts) && Linked(us) && SameTree(ts, us)
    ensures Descends(ts, a, d) == Descends(us, a, d)
    decreases d
  {
    if d < |ts| && ts[d].parent.Some? {
      SameDescends(ts, us, a, ts[d].parent.value);
    }
  }

  // ---- Cancelling ------------------------------------------------------------------

  function Cancelled(t: Task): Task {
    t.(cancelled := true)
  }

  /** `cancel_task_recursive`: stops at a task that is cancelled already. */
  function CancelFrom(ts: Tasks, id: nat): (us: Tasks)
    requires Linked(ts) && id < |ts|
    ensures SameTree(ts, us) && Linked(us)
    decreases |ts| - id, 1, 0
  {
    if ts[id].cancelled then ts
    else
      var marked := ts[id := Cancelled(ts[id])];
      SameLinked(ts, marked);
      CancelAll(marked, id, marked[id].children)
  }

  function CancelAll(ts: Tasks, above: nat, ids: seq<nat>): (us: Tasks)
    requires Linked(ts) && above < |ts| && forall k :: 0 <= k < |ids| ==> above < ids[k] < |ts|
    ensures SameTree(ts, us) && Linked(us)
    decreases |ts| - above, 0, |ids|
  {
    if ids == [] then ts else CancelAll(CancelFrom(ts, ids[0]), above, ids[1..])
  }

  /** Which tasks the cancellation of `id` marks, and that it changes nothing else. */
  predicate CancelsExactly(ts: Tasks, us: Tasks, hit: set<nat>) {
    |us| == |ts| && forall i :: 0 <= i < |ts| ==> us[i] == if i in hit then Cancelled(ts[i]) else ts[i]
  }

  function Below(ts: Tasks, a: nat): (r: set<nat>)
    requires Linked(ts)
  {
    set d | 0 <= d < |ts| && Descends(ts, a, d)
  }

  function BelowAny(ts: Tasks, ids: seq<nat>): (r: set<nat>)
    requires Linked(ts)
  {
    set d, k | 0 <= d < |ts| && 0 <= k < |ids| && Descends(ts, ids[k], d) :: d
  }

  /** Inside `within`, below a cancelled task every task is cancelled. */
  predicate ClosedIn(ts: Tasks, within: set<nat>)
    requires Linked(ts)
  {
    forall c :: (0 <= c < |ts| && c in within && ts[c].parent.Some? && ts[c].parent.value in within
                 && ts[ts[c].parent.value].cancelled) ==> ts[c].cancelled
  }

  lemma {:induction false} ClosedBelow(ts: Tasks, a: nat, d: nat)
    requires Linked(ts) && a < |ts| && ClosedIn(ts, Below(ts, a)) && ts[a].cancelled && Descends(ts, a, d)
    ensures ts[d].cancelled
    decreases d
  {
    if d != a {
      ClosedBelow(ts, a, ts[d].parent.value);
    }
  }

  /** Below a task are the task and what is below its children. */
  lemma {:induction false} BelowChildren(ts: Tasks, a: nat, d: nat)
    requires Linked(ts) && a < |ts| && d < |ts|
    ensures Descends(ts, a, d)
            <==> (d == a || exists k :: 0 <= k < |ts[a].children| && Descends(ts, ts[a].children[k], d))
    decreases d
  {
    if d != a {
      if ts[d].parent.Some? {
        var p := ts[d].parent.value;
        BelowChildren(ts, a, p);
        if Descends(ts, a, d) {
          if p == a {
            var k :| 0 <= k < |ts[a].children| && ts[a].children[k] == d;
            assert Descends(ts, ts[a].children[k], d);
          } else {
            var k :| 0 <= k < |ts[a].children| && Descends(ts, ts[a].children[k], p);
            assert Descends(ts, ts[a].children[k], d);
          }
        }
        if k :| 0 <= k < |ts[a].children| && Descends(ts, ts[a].children[k], d) {
          assert IsChild(ts, a, ts[a].children[k]);
          if ts[a].children[k] != d {
            assert Descends(ts, ts[a].children[k], p);
          }
        }
      } else {
        forall k | 0 <= k < |ts[a].children| ensures !Descends(ts, ts[a].children[k], d) {
          assert IsChild(ts, a, ts[a].children[k]);
        }
      }
    }
  }

  /** What is below a task is not older. */
  lemma {:induction false} DescendsLater(ts: Tasks, a: nat, d: nat)
    requires Linked(ts) && Descends(ts, a, d)
    ensures a <= d < |ts|
    decreases d
  {
    if d != a {
      DescendsLater(ts, a, ts[d].parent.value);
    }
  }

  lemma {:induction false} CancelFromExact(ts: Tasks, id: nat)
    requires Linked(ts) && id < |ts| && ClosedIn(ts, Below(ts, id))
    ensures CancelsExactly(ts, CancelFrom(ts, id), Below(ts, id))
    decreases |ts| - id, 1, 0
  {
    hide Linked;
    hide Descends;
    hide Below;
    hide BelowAny;
    hide ClosedIn;
    if ts[id].cancelled {
      AlreadyClosed(ts, id);
    } else {
      var marked := ts[id := Cancelled(ts[id])];
      SameLinked(ts, marked);
      ChildrenLater(marked, id);
      MarkedClosed(ts, id, marked);
      CancelAllExact(marked, id, marked[id].children);
      BelowMarked(ts, id, marked);
    }
  }

  lemma ChildrenLater(ts: Tasks, id: nat)
    requires Linked(ts) && id < |ts|
    ensures forall k :: 0 <= k < |ts[id].children| ==> id < ts[id].children[k] < |ts|
  {
    forall k | 0 <= k < |ts[id].children| ensures id < ts[id].children[k] < |ts| {
      assert IsChild(ts, id, ts[id].children[k]);
    }
  }

  lemma ParentsOlder(ts: Tasks)
    requires Linked(ts)
    ensures forall c :: 0 <= c < |ts| && ts[c].parent.Some? ==> ts[c].parent.value < c
  {
  }

  lemma AlreadyClosed(ts: Tasks, id: nat)
    requires Linked(ts) && id < |ts| && ClosedIn(ts, Below(ts, id)) && ts[id].cancelled
    ensures CancelsExactly(ts, ts, Below(ts, id))
  {
    hide Linked;
    hide Descends;
    hide ClosedIn;
    forall i | 0 <= i < |ts| && i in Below(ts, id) ensures ts[i].cancelled {
      ClosedBelow(ts, id, i);
    }
  }

  lemma BelowMarked(ts: Tasks, id: nat, marked: Tasks)
    requires Linked(ts) && id < |ts| && marked == ts[id := Cancelled(ts[id])] && Linked(marked)
    ensures forall i :: i in Below(ts, id) <==> i == id || i in BelowAny(marked, marked[id].children)
  {
    hide Linked;
    hide Descends;
    forall i ensures i in Below(ts, id) <==> i == id || i in BelowAny(marked, marked[id].children) {
      if 0 <= i < |ts| {
        SameDescends(ts, marked, id, i);
        BelowChildren(marked, id, i);
      }
    }
    SelfBelow(ts, id);
  }

  lemma SelfBelow(ts: Tasks, id: nat)
    requires Linked(ts) && id < |ts|
    ensures Descends(ts, id, id)
  {
  }

  lemma MarkedClosed(ts: Tasks, id: nat, marked: Tasks)
    requires Linked(ts) && id < |ts| && marked == ts[id := Cancelled(ts[id])] && Linked(marked)
    requires ClosedIn(ts, Below(ts, id))
    ensures ClosedIn(marked, BelowAny(marked, marked[id].children))
  {
    hide Linked;
    hide Descends;
    BelowMarked(ts, id, marked);
    var within := BelowAny(marked, marked[id].children);
    forall c | 0 <= c < |marked| && c in within && marked[c].parent.Some? && marked[c].parent.value in within
               && marked[marked[c].parent.value].cancelled
      ensures marked[c].cancelled
    {
      ChildrenBelow(marked, id, marked[c].parent.value);
      assert ts[c].parent == marked[c].parent;
    }
  }

  /** A task is not below its own children. */
  lemma ChildrenBelow(ts: Tasks, id: nat, d: nat)
    requires Linked(ts) && id < |ts| && d in BelowAny(ts, ts[id].children)
    ensures d > id && d < |ts|
  {
    var k :| 0 <= k < |ts[id].children| && Descends(ts, ts[id].children[k], d);
    assert IsChild(ts, id, ts[id].children[k]);
    DescendsLater(ts, ts[id].children[k], d);
  }

  lemma {:induction false} CancelAllExact(ts: Tasks, above: nat, ids: seq<nat>)
    requires Linked(ts) && above < |ts| && forall k :: 0 <= k < |ids| ==> above < ids[k] < |ts|
    requires ClosedIn(ts, BelowAny(ts, ids))
    ensures CancelsExactly(ts, CancelAll(ts, above, ids), BelowAny(ts, ids))
    decreases |ts| - above, 0, |ids|
  {
    hide Linked;
    hide Descends;
    hide Below;
    hide BelowAny;
    hide ClosedIn;
    if ids == [] {
      NothingBelow(ts);
    } else {
      FirstClosed(ts, ids);
      CancelFromExact(ts, ids[0]);
      var us := CancelFrom(ts, ids[0]);
      RestClosed(ts, us, ids);
      CancelAllExact(us, above, ids[1..]);
      BelowSplit(ts, us, ids);
    }
  }

  lemma NothingBelow(ts: Tasks)
    requires Linked(ts)
    ensures BelowAny(ts, []) == {}
  {
  }

  lemma BelowSplit(ts: Tasks, us: Tasks, ids: seq<nat>)
    requires Linked(ts) && Linked(us) && SameTree(ts, us) && ids != []
    ensures forall i :: i in BelowAny(ts, ids) <==> i in Below(ts, ids[0]) || i in BelowAny(us, ids[1..])
  {
    hide Linked;
    hide Descends;
    forall i ensures i in BelowAny(ts, ids) <==> i in Below(ts, ids[0]) || i in BelowAny(us, ids[1..]) {
      if i in BelowAny(ts, ids) {
        var k :| 0 <= k < |ids| && Descends(ts, ids[k], i);
        if k > 0 {
          SameDescends(ts, us, ids[k], i);
          assert ids[1..][k - 1] == ids[k];
        }
      }
      if i in BelowAny(us, ids[1..]) {
        var k :| 0 <= k < |ids[1..]| && Descends(us, ids[1..][k], i);
        SameDescends(ts, us, ids[k + 1], i);
        assert Descends(ts, ids[k + 1], i);
      }
    }
  }

  lemma FirstClosed(ts: Tasks, ids: seq<nat>)
    requires Linked(ts) && ids != [] && ClosedIn(ts, BelowAny(ts, ids))
    ensures ClosedIn(ts, Below(ts, ids[0]))
  {
    hide Linked;
    hide Descends;
    hide Below;
    hide BelowAny;
    SameTreeSelf(ts);
    BelowSplit(ts, ts, ids);
  }

  lemma SameTreeSelf(ts: Tasks)
    ensures SameTree(ts, ts)
  {
  }

  /** Cancelling whole subtrees keeps the rest closed. */
  lemma RestClosed(ts: Tasks, us: Tasks, ids: seq<nat>)
    requires Linked(ts) && Linked(us) && SameTree(ts, us) && ids != []
    requires ClosedIn(ts, BelowAny(ts, ids)) && CancelsExactly(ts, us, Below(ts, ids[0]))
    ensures ClosedIn(us, BelowAny(us, ids[1..]))
  {
    hide Linked;
    hide Descends;
    hide Below;
    hide BelowAny;
    BelowSplit(ts, us, ids);
    ParentsOlder(us);
    var within := BelowAny(us, ids[1..]);
    forall c | 0 <= c < |us| && c in within && us[c].parent.Some? && us[c].parent.value in within
               && us[us[c].parent.value].cancelled
      ensures us[c].cancelled
    {
      var p := us[c].parent.value;
      assert ts[c].parent == Some(p);
      if p in Below(ts, ids[0]) {
        ParentBelow(ts, ids[0], c);
      }
    }
  }

  lemma ParentBelow(ts: Tasks, a: nat, c: nat)
    requires Linked(ts) && c < |ts| && ts[c].parent.Some? && ts[c].parent.value in Below(ts, a)
    ensures c in Below(ts, a)
  {
  }

  /** Cancelling a task cancels exactly it and everything below it, and the tree stays closed. */
  lemma CancelCorrect(ts: Tasks, id: nat)
    requires Linked(ts) && DownClosed(ts) && id < |ts|
    ensures var us := CancelFrom(ts, id);
            && CancelsExactly(ts, us, Below(ts, id)) && DownClosed(us)
  {
    hide Linked;
    hide Descends;
    hide Below;
    AllClosed(ts, Below(ts, id));
    CancelFromExact(ts, id);
    var us := CancelFrom(ts, id);
    ParentsOlder(us);
    forall c | 0 <= c < |us| && us[c].parent.Some? && us[us[c].parent.value].cancelled
      ensures us[c].cancelled
    {
      var p := us[c].parent.value;
      assert ts[c].parent == Some(p);
      if p in Below(ts, id) {
        ParentBelow(ts, id, c);
      }
    }
  }

  lemma AllClosed(ts: Tasks, within: set<nat>)
    requires Linked(ts) && DownClosed(ts)
    ensures ClosedIn(ts, within)
  {
  }

  /** Below a cancelled task of a closed tree every task is cancelled. */
  lemma {:induction false} CancelledBelow(ts: Tasks, a: nat, d: nat)
    requires Linked(ts) && DownClosed(ts) && Descends(ts, a, d) && a < |ts| && ts[a].cancelled
    ensures ts[d].cancelled
    decreases d
  {
    if d != a {
      CancelledBelow(ts, a, ts[d].parent.value);
    }
  }

  // ---- New tasks ---------------------------------------------------------------------

  /** `create_task` and `task_add_child`: the new task's index is `|ts|`. */
  function CreateTask(ts: Tasks, parent: Option<nat>): (us: Tasks)
    requires parent.Some? ==> parent.value < |ts|
    ensures |us| == |ts| + 1
  {
    var linked := match parent
      case None => ts
      case Some(p) => ts[p := ts[p].(children := ts[p].children + [|ts|])];
    linked + [Task(false, false, false, 0.0, parent, [])]
  }

  lemma CreateLinked(ts: Tasks, parent: Option<nat>)
    requires Linked(ts) && (parent.Some? ==> parent.value < |ts|)
    ensures Linked(CreateTask(ts, parent))
  {
    var us := CreateTask(ts, parent);
    forall p, k | 0 <= p < |us| && 0 <= k < |us[p].children| ensures IsChild(us, p, us[p].children[k]) {
      if p < |ts| && k < |ts[p].children| {
        assert IsChild(ts, p, ts[p].children[k]);
      }
    }
    forall c | 0 <= c < |us| && us[c].parent.Some?
      ensures us[c].parent.value < c && c in us[us[c].parent.value].children
    {
      if c < |ts| {
        assert c in ts[us[c].parent.value].children;
      } else {
        assert us[parent.value].children[|ts[parent.value].children|] == c;
      }
    }
  }

  /** A fork from a live task keeps the tree closed. */
  lemma CreateClosed(ts: Tasks, parent: Option<nat>)
    requires Linked(ts) && DownClosed(ts)
    requires parent.Some? ==> parent.value < |ts| && !ts[parent.value].cancelled
    ensures Linked(CreateTask(ts, parent)) && DownClosed(CreateTask(ts, parent))
  {
    CreateLinked(ts, parent);
  }

  lemma {:induction false} CreateDescends(ts: Tasks, parent: Option<nat>, a: nat, d: nat)
    requires Linked(ts) && (parent.Some? ==> parent.value < |ts|) && Linked(CreateTask(ts, parent)) && d < |ts|
    ensures Descends(CreateTask(ts, parent), a, d) == Descends(ts, a, d)
    decreases d
  {
    if ts[d].parent.Some? {
      CreateDescends(ts, parent, a, ts[d].parent.value);
    }
  }
}
