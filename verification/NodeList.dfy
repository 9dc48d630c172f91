/** The node list of the audio graph (engine/ctx.c): the ghost `list` is the chain from `head`. */
module NodeList {
  import opened Nodes

  function NextIn(list: seq<Node>, i: nat): Node?
    requires i < |list|
  {
    if i + 1 < |list| then list[i + 1] else null
  }

  predicate Distinct(list: seq<Node>) {
    forall i, j :: 0 <= i < j < |list| ==> list[i] != list[j]
  }

  /** Where `audio_ctx_add_before` puts a node: before the target, at the end if it is not there. */
  function InsertBefore(list: seq<Node>, target: Node?, node: Node): seq<Node> {
    if list == [] then [node]
    else if list[0] == target then [node] + list
    else [list[0]] + InsertBefore(list[1..], target, node)
  }

  /** The node list with the target at position `k`, or nowhere. */
  lemma {:induction false} InsertAt(list: seq<Node>, target: Node?, node: Node, k: nat)
    requires k <= |list| && (forall i :: 0 <= i < k ==> list[i] != target) && (k < |list| ==> list[k] == target)
    ensures InsertBefore(list, target, node) == list[..k] + [node] + list[k..]
    decreases k
  {
    if k == 0 {
      assert list[..0] + [node] + list[0..] == [node] + list;
    } else {
      InsertAt(list[1..], target, node, k - 1);
      assert [list[0]] + (list[1..][..k - 1] + [node] + list[1..][k - 1..]) == list[..k] + [node] + list[k..];
    }
  }

  lemma NextOfLast(list: seq<Node>, k: nat)
    requires k < |list|
    ensures k > 0 ==> NextIn(list, k - 1) == list[k]
  {
  }

  lemma EarlierDiffer(list: seq<Node>, k: nat)
    requires Distinct(list) && 0 < k < |list|
    ensures forall i :: 0 <= i < |list| && i != k - 1 ==> list[i] != list[k - 1]
  {
  }

  lemma DistinctInsert(list: seq<Node>, k: nat, node: Node)
    requires k <= |list| && Distinct(list) && node !in list
    ensures Distinct(list[..k] + [node] + list[k..])
  {
    var r := list[..k] + [node] + list[k..];
    forall i, j | 0 <= i < j < |r| ensures r[i] != r[j] {
      assert r[i] == if i < k then list[i] else if i == k then node else list[i - 1];
      assert r[j] == if j < k then list[j] else if j == k then node else list[j - 1];
    }
  }

  /** The successors in the longer list. */
  lemma InsertedNext(list: seq<Node>, k: nat, node: Node)
    requires k < |list|
    ensures var r := list[..k] + [node] + list[k..];
            && NextIn(r, k) == list[k] && (k > 0 ==> NextIn(r, k - 1) == node)
            && (forall i :: 0 <= i < k - 1 ==> NextIn(r, i) == NextIn(list, i))
            && (forall i :: k < i < |r| ==> NextIn(r, i) == NextIn(list, i - 1))
  {
  }

  function Only(node: Node?): set<Node> {
    if node == null then {} else {node}
  }

  class NodeGraph {
    var head: Node?
    var tail: Node?
    var generation: nat
    ghost var list: seq<Node>

    ghost predicate Valid()
      reads this, list`next
    {
      && Distinct(list)
      && (if list == [] then head == null else head == list[0] && tail == list[|list| - 1])
      && forall i :: 0 <= i < |list| ==> list[i].next == NextIn(list, i)
    }

    lemma Links(k: nat)
      requires Valid() && k <= |list|
      ensures head == if list == [] then null else list[0]
      ensures k < |list| ==> list[k].next == NextIn(list, k)
    {
    }

    constructor ()
      ensures Valid() && list == []
    {
      head, tail, generation, list := null, null, 0, [];
    }

    /** `audio_ctx_add` */
    method Add(node: Node?)
      requires Valid() && (node != null ==> node !in list)
      modifies this, Only(node)`next, Only(node)`writeToOutput, list`next
      ensures Valid() && list == if node == null then old(list) else old(list) + [node]
      ensures generation == if node == null then old(generation) else old(generation) + 1
      ensures node != null ==> node.writeToOutput
    {
      if node == null {
        return;
      }
      node.writeToOutput := true;
      node.next := null;
      if head == null {
        head := node;
        tail := node;
      } else {
        tail.next := node;
        tail := node;
      }
      list := list + [node];
      generation := generation + 1;
    }

    /** The search of `audio_ctx_add_before`: the target and the node before it. */
    method Position(target: Node?) returns (prev: Node?, current: Node?, ghost k: nat)
      requires Valid()
      ensures k <= |list| && current == (if k < |list| then list[k] else null)
      ensures prev == if k > 0 then list[k - 1] else null
      ensures (forall i :: 0 <= i < k ==> list[i] != target) && (k < |list| ==> current == target)
    {
      prev, current, k := null, head, 0;
      while current != null && current != target
        invariant k <= |list| && (if k < |list| then current == list[k] else current == null)
        invariant if k > 0 then prev == list[k - 1] else prev == null
        invariant forall i :: 0 <= i < k ==> list[i] != target
        decreases |list| - k
      {
        assert list[k].next == NextIn(list, k);
        prev := current;
        current := current.next;
        k := k + 1;
      }
    }

    /** `audio_ctx_add_before` */
    method AddBefore(target: Node?, node: Node?)
      requires Valid() && (node != null ==> node !in list)
      modifies this, Only(node)`next, Only(node)`writeToOutput, list`next
      ensures Valid() && list == if node == null then old(list) else InsertBefore(old(list), target, node)
      ensures generation == if node == null then old(generation) else old(generation) + 1
      ensures node != null ==> node.writeToOutput
    {
      if node == null {
        return;
      }
      node.writeToOutput := true;
      if head == null {
        node.next := null;
        head := node;
        tail := node;
        list := [node];
        generation := generation + 1;
        return;
      }
      ghost var k: nat;
      var prev, current;
      prev, current, k := Position(target);
      if current == null {
        AddLast(node);
        InsertAt(old(list), target, node, |old(list)|);
        assert old(list)[..|old(list)|] + [node] + old(list)[|old(list)|..] == old(list) + [node];
      } else {
        InsertAt(list, target, node, k);
        LinkAt(prev, node, k);
      }
      generation := generation + 1;
    }

    /** The target was not found: walk to the last node and append. */
    method AddLast(node: Node)
      requires Valid() && list != [] && node !in list
      modifies this`tail, this`list, node`next, list`next
      ensures Valid() && list == old(list) + [node]
    {
      var current := head;
      ghost var k := 0;
      while current.next != null
        invariant k < |list| && current == list[k]
        decreases |list| - k
      {
        assert list[k].next == NextIn(list, k);
        current := current.next;
        k := k + 1;
      }
      assert list[k].next == NextIn(list, k);
      current.next := node;
      node.next := null;
      tail := node;
      list := list + [node];
    }

    /** Links the node between its neighbours at position `k`. */
    method LinkAt(prev: Node?, node: Node, ghost k: nat)
      requires Valid() && k < |list| && node !in list
      requires if k > 0 then prev == list[k - 1] else prev == null
      modifies this`head, this`list, node`next, list`next
      ensures Valid() && list == old(list[..k]) + [node] + old(list[k..])
    {
      hide NextIn;
      hide Distinct;
      assert forall i :: 0 <= i < |list| ==> list[i].next == NextIn(list, i);
      NextOfLast(list, k);
      if k > 0 {
        EarlierDiffer(list, k);
      }
      if prev == null {
        node.next := head;
        head := node;
      } else {
        node.next := prev.next;
        prev.next := node;
      }
      ghost var was := list;
      list := was[..k] + [node] + was[k..];
      DistinctInsert(was, k, node);
      InsertedNext(was, k, node);
      assert node.next == was[k];
      forall i | 0 <= i < |list| ensures list[i].next == NextIn(list, i) {
        if i == k - 1 {
        } else if i < k {
          assert list[i] == was[i];
          assert old(was[i].next) == NextIn(was, i);
        } else if i > k {
          assert list[i] == was[i - 1];
          assert old(was[i - 1].next) == NextIn(was, i - 1);
        }
      }
    }
  }
}
