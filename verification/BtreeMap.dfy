/** The map of lang/btree_map.c: nodes with parent pointers, changed in place. The ghost `tree` is
    the tree the nodes hold; every method says what it does to it and to the map it stands for. */
module BtreeMap {
  import opened RbTree
  import opened RbStore
  import opened StringKeys

  function Depth(p: RefPath): nat {
    if p.Top? then 0 else 1 + Depth(p.up)
  }

  class BTreeMap {
    var root: BTreeNode?
    var size: nat
    ghost var nodes: set<BTreeNode>
    ghost var tree: RefTree

    ghost function Store(): (s: Store)
      reads this`nodes, nodes
      ensures s.Keys == nodes
    {
      map n | n in nodes :: Cell(n.value, n.red, n.left, n.right, n.parent)
    }

    ghost predicate Valid()
      reads this, nodes
    {
      Shape(Store(), Top, tree, root) && RedBlack(tree) && size == |Contents(tree)|
    }

    /** `btreemap_new` */
    constructor ()
      ensures Valid() && Contents(tree) == map[] && nodes == {}
    {
      root, size, nodes, tree := null, 0, {}, Leaf;
    }

    lemma StoreFields(n: BTreeNode)
      requires n in nodes
      ensures Store()[n] == Cell(n.value, n.red, n.left, n.right, n.parent)
    {
    }

    /** On which side of its parent the cut is. */
    lemma Side(s: Store, p: RefPath, t: RefTree, root: BTreeNode?)
      requires s == Store() && Shape(s, p, t, root) && t.Node?
      ensures !p.Top? ==>
                p.at in nodes && p.at != t.at && (p.LeftOf? <==> p.at.left == t.at)
                && (p.RightOf? <==> p.at.right == t.at)
    {
      if !p.Top? {
        AtParent(s, p, t, root);
      }
    }

    /** Assignments to one link of a node, as the snapshot sees them. */
    method SetLeft(n: BTreeNode, child: BTreeNode?)
      requires n in nodes
      modifies n`left
      ensures n.left == child && Store() == old(Store())[n := old(Store())[n].(left := child)]
    {
      n.left := child;
    }

    method SetRight(n: BTreeNode, child: BTreeNode?)
      requires n in nodes
      modifies n`right
      ensures n.right == child && Store() == old(Store())[n := old(Store())[n].(right := child)]
    {
      n.right := child;
    }

    method SetParent(n: BTreeNode, parent: BTreeNode?)
      requires n in nodes
      modifies n`parent
      ensures n.parent == parent && Store() == old(Store())[n := old(Store())[n].(parent := parent)]
    {
      n.parent := parent;
    }

    /** The parent pointer of a node that may be absent. */
    method SetParentOf(n: BTreeNode?, parent: BTreeNode?)
      requires n != null ==> n in nodes
      modifies (if n == null then {} else {n})`parent
      ensures n != null ==> n.parent == parent
      ensures Store() == WithParent(old(Store()), n, parent)
    {
      if n != null {
        SetParent(n, parent);
      }
    }

    /** The link from the parent of `x` leads to `y` now. */
    method ReplaceChild(x: BTreeNode, y: BTreeNode)
      requires x in nodes && (x.parent != null ==> x.parent in nodes)
      modifies this`root, (if x.parent == null then {} else {x.parent})`left,
          (if x.parent == null then {} else {x.parent})`right
      ensures root == if old(x.parent) == null then y else old(root)
      ensures Store() == WithChild(old(Store()), old(x.parent), old(x.parent != null && x == x.parent.left), y)
    {
      if x.parent == null {
        root := y;
      } else if x == x.parent.left {
        SetLeft(x.parent, y);
      } else {
        SetRight(x.parent, y);
      }
    }

    /** The first half of `rotate_left`: the middle subtree moves over, `y` takes the parent of `x`. */
    method MoveLeftward(x: BTreeNode, y: BTreeNode)
      requires x in nodes && y in nodes && x != y && (y.left != null ==> y.left in nodes && y.left != x && y.left != y)
      modifies x`right, (if y.left == null then {} else {y.left})`parent, y`parent
      ensures x.parent == old(x.parent)
      ensures Store() == LeftHalf(old(Store()), x, y, old(y.left), old(x.parent))
    {
      hide Store;
      SetRight(x, y.left);
      SetParentOf(y.left, x);
      SetParent(y, x.parent);
    }

    /** The first half of `rotate_right`: the middle subtree moves over, `y` takes the parent of `x`. */
    method MoveRightward(x: BTreeNode, y: BTreeNode)
      requires x in nodes && y in nodes && x != y
               && (y.right != null ==> y.right in nodes && y.right != x && y.right != y)
      modifies x`left, (if y.right == null then {} else {y.right})`parent, y`parent
      ensures x.parent == old(x.parent)
      ensures Store() == RightHalf(old(Store()), x, y, old(y.right), old(x.parent))
    {
      hide Store;
      SetLeft(x, y.right);
      SetParentOf(y.right, x);
      SetParent(y, x.parent);
    }

    /** `rotate_left` at the root of the subtree `t` below `p`. */
    method RotateLeft(x: BTreeNode, ghost p: RefPath, ghost t: RefTree)
      requires Shape(Store(), p, t, root) && t.Node? && t.right.Node? && x == t.at
      modifies this`root, nodes
      ensures Shape(Store(), p, LeftRotation(t), root)
    {
      hide Shape;
      hide Store;
      LeftAssigned(Store(), p, t, root);
      AtCut(Store(), p, t, root);
      AtRight(Store(), p, t, root);
      StoreFields(x);
      StoreFields(t.right.at);
      var y := x.right;
      ghost var s1 := LeftAssignments(Store(), x, y, RootOf(t.right.left), ParentAt(p), p.LeftOf?);
      Side(Store(), p, t, root);
      MoveLeftward(x, y);
      ReplaceChild(x, y);
      SetLeft(y, x);
      SetParent(x, y);
      assert Store() == s1;
    }

    /** `rotate_right` at the root of the subtree `t` below `p`. */
    method RotateRight(x: BTreeNode, ghost p: RefPath, ghost t: RefTree)
      requires Shape(Store(), p, t, root) && t.Node? && t.left.Node? && x == t.at
      modifies this`root, nodes
      ensures Shape(Store(), p, RightRotation(t), root)
    {
      hide Shape;
      hide Store;
      RightAssigned(Store(), p, t, root);
      AtCut(Store(), p, t, root);
      AtLeft(Store(), p, t, root);
      StoreFields(x);
      StoreFields(t.left.at);
      var y := x.left;
      ghost var s1 := RightAssignments(Store(), x, y, RootOf(t.left.right), ParentAt(p), p.RightOf?);
      Side(Store(), p, t, root);
      MoveRightward(x, y);
      ReplaceChild(x, y);
      SetRight(y, x);
      SetParent(x, y);
      assert Store() == s1;
    }

    /** `tree_search` from the root. */
    method Search(key: string) returns (node: BTreeNode?)
      requires Valid()
      ensures node == RootOf(Descend(tree, key, Top).found)
      ensures key in Contents(tree) <==> node != null
      ensures node != null ==> node in nodes && node.key == key && node.value == Contents(tree)[key]
    {
      hide RedBlack;
      hide Contents;
      hide Shape;
      SearchCorrect(tree, key);
      node := root;
      ghost var p: RefPath := Top;
      ghost var t := tree;
      AtRoot(Store(), tree, root);
      while node != null
        invariant Shape(Store(), p, t, root) && node == RootOf(t)
        invariant Descend(t, key, p) == Descend(tree, key, Top)
        decreases t
      {
        AtCut(Store(), p, t, root);
        var cmp := Strcmp(key, node.key);
        if cmp == 0 {
          return;
        } else if cmp < 0 {
          DownLeft(Store(), p, t, root);
          p, t := LeftOf(t.at, t.red, t.key, t.value, t.right, p), t.left;
          node := node.left;
        } else {
          DownRight(Store(), p, t, root);
          p, t := RightOf(t.at, t.red, t.key, t.value, t.left, p), t.right;
          node := node.right;
        }
      }
    }

    /** `btreemap_get` */
    method Get(key: string) returns (value: Pointer)
      requires Valid()
      ensures value == Lookup(Contents(tree), key)
    {
      hide RedBlack;
      hide Contents;
      hide Shape;
      hide Descend;
      var node := Search(key);
      value := if node != null then node.value else NULL;
    }

    /** `btreemap_len` */
    method Len() returns (n: nat)
      requires Valid()
      ensures n == |Contents(tree)|
    {
      n := size;
    }

    /** Sets the colour of the root of the subtree `t` below `p`. */
    method Paint(x: BTreeNode, red: bool, ghost p: RefPath, ghost t: RefTree)
      requires Shape(Store(), p, t, root) && t.Node? && x == t.at
      modifies x`red
      ensures Shape(Store(), p, t.(red := red), root)
    {
      hide Shape;
      ghost var s := Store();
      AtCut(s, p, t, root);
      x.red := red;
      Repaint(s, Store(), p, t, root, red, t.value);
    }

    /** Parent black, uncle black, grandparent red. */
    method PaintFamily(z: BTreeNode, y: BTreeNode, ghost p: RefPath, ghost t: RefTree)
      requires Shape(Store(), p, t, root) && t.Node? && z == t.at && !p.Top? && !p.up.Top?
      requires IsRed(p.up.sibling) && y == p.up.sibling.at
      modifies nodes`red
      ensures Shape(Store(), p.up.up, Recolour(p, t), root)
    {
      hide Shape;
      ghost var parent := Joined(p, t);
      AtCut(Store(), p, t, root);
      AtParent(Store(), p, t, root);
      MoveUp(Store(), p, t, root);
      Paint(z.parent, false, p.up, parent);
      ghost var painted := parent.(red := false);
      MoveUp(Store(), p.up, painted, root);
      ghost var grand := Joined(p.up, painted);
      AtCut(Store(), p.up.up, grand, root);
      ghost var beside := Beside(p.up, painted);
      if p.up.LeftOf? {
        DownRight(Store(), p.up.up, grand, root);
      } else {
        DownLeft(Store(), p.up.up, grand, root);
      }
      AtCut(Store(), beside, p.up.sibling, root);
      Paint(y, false, beside, p.up.sibling);
      ghost var uncle := p.up.sibling.(red := false);
      MoveUp(Store(), beside, uncle, root);
      Paint(z.parent.parent, true, p.up.up, Joined(beside, uncle));
    }

    /** Parent black and grandparent red, when `z` is the outer grandchild. */
    method PaintTwo(z: BTreeNode, ghost p: RefPath, ghost t: RefTree)
      requires Shape(Store(), p, t, root) && t.Node? && z == t.at && !p.Top? && !p.up.Top?
      modifies nodes`red
      ensures z.parent == p.at && p.at in nodes && p.at.parent == p.up.at
      ensures Shape(Store(), p.up.up, Grown(p, t), root)
    {
      hide Shape;
      ghost var parent := Joined(p, t);
      AtCut(Store(), p, t, root);
      AtParent(Store(), p, t, root);
      MoveUp(Store(), p, t, root);
      Paint(z.parent, false, p.up, parent);
      ghost var painted := parent.(red := false);
      MoveUp(Store(), p.up, painted, root);
      ghost var grand := Joined(p.up, painted);
      AtCut(Store(), p.up.up, grand, root);
      Paint(z.parent.parent, true, p.up.up, grand);
    }

    /** The uncle is black and the parent a left child: at most two rotations end the repair. */
    method TurnLeftSide(z0: BTreeNode, ghost p: RefPath, ghost t: RefTree)
        returns (z: BTreeNode, ghost q: RefPath, ghost u: RefTree)
      requires Shape(Store(), p, t, root) && t.Node? && z0 == t.at && !p.Top? && p.up.LeftOf? && !IsRed(p.up.sibling)
      modifies this`root, nodes
      ensures Shape(Store(), q, u, root) && u.Node? && z == u.at && Spot(q, u) == Settled(p, t)
    {
      hide Shape;
      z, q, u := z0, p, t;
      AtCut(Store(), p, t, root);
      AtParent(Store(), p, t, root);
      if z == z.parent.right {
        z := z.parent;
        MoveUp(Store(), p, t, root);
        RotateLeft(z, p.up, Joined(p, t));
        DownLeft(Store(), p.up, LeftRotation(Joined(p, t)), root);
        q, u := Straightened(p, t).path, Straightened(p, t).found;
      }
      PaintTwo(z, q, u);
      RotateRight(z.parent.parent, q.up.up, Grown(q, u));
      DownLeft(Store(), q.up.up, RightRotation(Grown(q, u)), root);
      q, u := Settled(p, t).path, Settled(p, t).found;
    }

    method TurnRightSide(z0: BTreeNode, ghost p: RefPath, ghost t: RefTree)
        returns (z: BTreeNode, ghost q: RefPath, ghost u: RefTree)
      requires Shape(Store(), p, t, root) && t.Node? && z0 == t.at && !p.Top? && p.up.RightOf? && !IsRed(p.up.sibling)
      modifies this`root, nodes
      ensures Shape(Store(), q, u, root) && u.Node? && z == u.at && Spot(q, u) == Settled(p, t)
    {
      hide Shape;
      z, q, u := z0, p, t;
      AtCut(Store(), p, t, root);
      AtParent(Store(), p, t, root);
      if z == z.parent.left {
        z := z.parent;
        MoveUp(Store(), p, t, root);
        RotateRight(z, p.up, Joined(p, t));
        DownRight(Store(), p.up, RightRotation(Joined(p, t)), root);
        q, u := Straightened(p, t).path, Straightened(p, t).found;
      }
      PaintTwo(z, q, u);
      RotateLeft(z.parent.parent, q.up.up, Grown(q, u));
      DownRight(Store(), q.up.up, LeftRotation(Grown(q, u)), root);
      q, u := Settled(p, t).path, Settled(p, t).found;
    }

    /** One round of `insert_fixup`. */
    method FixRound(z0: BTreeNode, ghost p: RefPath, ghost t: RefTree, ghost n: nat)
      returns (z: BTreeNode, ghost q: RefPath, ghost u: RefTree, ghost m: nat)
      requires Shape(Store(), p, t, root) && t.Node? && z0 == t.at && Fixable(p, t, n) && IsRedPath(p)
      requires z0 in nodes && z0.parent == p.at
      modifies this`root, nodes
      ensures Shape(Store(), q, u, root) && u.Node? && z == u.at && Fixable(q, u, m)
      ensures Fix(q, u) == Fix(p, t) && Depth(q) < Depth(p)
    {
      hide Shape;
      hide Fixable;
      hide Recolour;
      hide Rotated;
      hide Settled;
      hide Plug;
      z := z0;
      RecolourFixable(p, t, n);
      Grandparent(Store(), p, t, root);
      if z.parent == z.parent.parent.left {
        var y := z.parent.parent.right;
        if y != null && y.red {
          PaintFamily(z, y, p, t);
          z := z.parent.parent;
          q, u, m := p.up.up, Recolour(p, t), n + 1;
        } else {
          SettledFixable(p, t, n);
          z, q, u := TurnLeftSide(z, p, t);
          m := n;
        }
      } else {
        var y := z.parent.parent.left;
        if y != null && y.red {
          PaintFamily(z, y, p, t);
          z := z.parent.parent;
          q, u, m := p.up.up, Recolour(p, t), n + 1;
        } else {
          SettledFixable(p, t, n);
          z, q, u := TurnRightSide(z, p, t);
          m := n;
        }
      }
    }

    /** `insert_fixup` */
    method InsertFixup(z0: BTreeNode, ghost p0: RefPath, ghost t0: RefTree, ghost n0: nat)
      requires Shape(Store(), p0, t0, root) && t0.Node? && z0 == t0.at && Fixable(p0, t0, n0)
      modifies this`root, nodes
      ensures Shape(Store(), Top, Fix(p0, t0), root)
    {
      hide Shape;
      hide Fixable;
      hide Recolour;
      hide Rotated;
      hide Settled;
      hide Plug;
      var z := z0;
      ghost var p, t, n := p0, t0, n0;
      AtCut(Store(), p, t, root);
      ParentColour(Store(), p, t, root);
      while z.parent != null && z.parent.red
        invariant Shape(Store(), p, t, root) && t.Node? && z == t.at && Fixable(p, t, n) && z in nodes
        invariant z.parent == ParentAt(p) && (!p.Top? ==> p.at in nodes && p.at.red == p.red)
        invariant Fix(p, t) == Fix(p0, t0)
        decreases Depth(p)
      {
        z, p, t, n := FixRound(z, p, t, n);
        AtCut(Store(), p, t, root);
        ParentColour(Store(), p, t, root);
      }
      FixEnds(p, t);
      MoveToTop(Store(), p, t, root);
      PlugNode(p, t);
      AtCut(Store(), Top, Plug(p, t), root);
      Paint(root, false, Top, Plug(p, t));
    }

    /** `btreemap_insert`: the old value of the key is returned, `NULL` if there was none. */
    method Insert(key: string, value: Pointer) returns (was: Pointer)
      requires Valid()
      modifies this, nodes
      ensures Valid()
      ensures Contents(tree) == old(Contents(tree))[key := value]
      ensures was == Lookup(old(Contents(tree)), key)
      ensures nodes >= old(nodes) && fresh(nodes - old(nodes))
    {
      hide Shape;
      hide RedBlack;
      hide Contents;
      hide Fix;
      hide Plug;
      hide Located;
      var y: BTreeNode? := null;
      var x := root;
      ghost var p: RefPath := Top;
      ghost var t := tree;
      AtRoot(Store(), tree, root);
      while x != null
        invariant Shape(Store(), p, t, root) && x == RootOf(t) && y == ParentAt(p)
        invariant p.LeftOf? ==> Strcmp(key, p.key) < 0
        invariant p.RightOf? ==> Strcmp(key, p.key) > 0
        invariant Descend(t, key, p) == Descend(tree, key, Top)
        invariant Valid() && tree == old(tree) && nodes == old(nodes)
        decreases t
      {
        y := x;
        AtCut(Store(), p, t, root);
        var cmp := Strcmp(key, x.key);
        if cmp == 0 {
          was := x.value;
          Overwrite(x, value, key, p, t);
          return;
        } else if cmp < 0 {
          DownLeft(Store(), p, t, root);
          p, t := LeftOf(t.at, t.red, t.key, t.value, t.right, p), t.left;
          x := x.left;
        } else {
          DownRight(Store(), p, t, root);
          p, t := RightOf(t.at, t.red, t.key, t.value, t.left, p), t.right;
          x := x.right;
        }
      }
      AddLeaf(y, key, value, p);
      was := NULL;
    }

    /** The branch of `btreemap_insert` for a key that is there already. */
    method Overwrite(x: BTreeNode, value: Pointer, key: string, ghost p: RefPath, ghost t: RefTree)
      requires Valid() && Shape(Store(), p, t, root) && t.Node? && x == t.at && Spot(p, t) == Descend(tree, key, Top)
      modifies x`value, this`tree
      ensures Valid() && Contents(tree) == old(Contents(tree))[key := value]
      ensures old(x.value) == Lookup(old(Contents(tree)), key)
    {
      hide Shape;
      hide RedBlack;
      hide Contents;
      hide Descend;
      hide Plug;
      AtCut(Store(), p, t, root);
      SpotPlugged(tree, key);
      OverwriteCorrect(tree, x, key, value);
      ghost var s := Store();
      x.value := value;
      Repaint(s, Store(), p, t, root, t.red, value);
      MoveToTop(Store(), p, t.(value := value), root);
      tree := Plug(p, t.(value := value));
    }

    /** The new node below `y`. */
    method Link(z: BTreeNode, y: BTreeNode?, ghost p: RefPath)
      requires Shape(Store(), p, Leaf, root) && y == ParentAt(p) && z !in nodes
      requires z.red && z.left == null && z.right == null
      requires p.LeftOf? ==> Strcmp(z.key, p.key) < 0
      requires p.RightOf? ==> Strcmp(z.key, p.key) > 0
      modifies this`root, this`nodes, nodes, z
      ensures nodes == old(nodes) + {z}
      ensures Shape(Store(), p, Node(z, true, z.key, old(z.value), Leaf, Leaf), root)
    {
      hide Shape;
      ghost var s, root0 := Store(), root;
      if !p.Top? {
        AtParent(s, p, Leaf, root);
      }
      nodes := nodes + {z};
      z.parent := y;
      if y == null {
        root := z;
      } else if Strcmp(z.key, y.key) < 0 {
        y.left := z;
      } else {
        y.right := z;
      }
      Attach(s, Store(), p, z, z.value, root0, root);
    }

    /** The end of `btreemap_insert`: a new red node below `y`, then the repair. */
    method AddLeaf(y: BTreeNode?, key: string, value: Pointer, ghost p: RefPath)
      requires Valid() && Shape(Store(), p, Leaf, root) && y == ParentAt(p) && Spot(p, Leaf) == Descend(tree, key, Top)
      requires p.LeftOf? ==> Strcmp(key, p.key) < 0
      requires p.RightOf? ==> Strcmp(key, p.key) > 0
      modifies this, nodes
      ensures Valid() && Contents(tree) == old(Contents(tree))[key := value]
      ensures Lookup(old(Contents(tree)), key) == NULL
      ensures nodes >= old(nodes) && fresh(nodes - old(nodes))
    {
      hide Shape;
      hide RedBlack;
      hide Contents;
      hide Descend;
      hide Fix;
      hide Fixable;
      hide Plug;
      var z := new BTreeNode(key, value);
      NewCorrect(tree, z, p, key, value);
      Link(z, y, p);
      size := size + 1;
      ghost var leaf := Node(z, true, key, value, Leaf, Leaf);
      InsertFixup(z, p, leaf, 0);
      tree := Fix(p, leaf);
    }
  }

  /** The spot of a key is a cut of the tree. */
  lemma SpotPlugged(t: RefTree, key: string)
    requires RedBlack(t)
    ensures var c := Descend(t, key, Top); Plug(c.path, c.found) == t
  {
    hide Located;
    hide RedBlack;
    StartLocated(t, key);
    DescendLocated(t, key, Top, BlackHeight(t));
    PlugTop(t);
  }

  /** Inserting a bound key replaces the value at its spot. */
  lemma OverwriteCorrect(t: RefTree, x: BTreeNode, key: string, value: Pointer)
    requires RedBlack(t) && Descend(t, key, Top).found.Node?
    ensures var c := Descend(t, key, Top);
            var t' := Plug(c.path, c.found.(value := value));
            && RedBlack(t') && Contents(t') == Contents(t)[key := value] && |Contents(t')| == |Contents(t)|
            && c.found.value == Lookup(Contents(t), key)
  {
    hide RedBlack;
    hide Contents;
    hide Descend;
    hide Plug;
    InsertCorrect(t, x, key, value);
    SearchCorrect(t, key);
    UpdateSize(Contents(t), key, value);
  }

  lemma UpdateSize(m: map<string, Pointer>, key: string, value: Pointer)
    ensures |m[key := value]| == if key in m then |m| else |m| + 1
  {
    if key in m {
      assert m[key := value].Keys == m.Keys;
    } else {
      assert m[key := value].Keys == m.Keys + {key};
    }
  }

  /** Inserting an unbound key repairs the tree with a red leaf at its spot. */
  lemma NewCorrect(t: RefTree, z: BTreeNode, p: RefPath, key: string, value: Pointer)
    requires RedBlack(t) && Descend(t, key, Top) == Spot(p, Leaf)
    ensures var leaf := Node(z, true, key, value, Leaf, Leaf);
            && Fixable(p, leaf, 0)
            && RedBlack(Fix(p, leaf)) && Contents(Fix(p, leaf)) == Contents(t)[key := value]
            && |Contents(Fix(p, leaf))| == |Contents(t)| + 1
            && Lookup(Contents(t), key) == NULL
  {
    hide RedBlack;
    hide Contents;
    hide Descend;
    hide Plug;
    hide Fixable;
    hide Fix;
    hide Located;
    InsertCorrect(t, z, key, value);
    SearchCorrect(t, key);
    UpdateSize(Contents(t), key, value);
    StartLocated(t, key);
    DescendLocated(t, key, Top, BlackHeight(t));
    LeafHeight();
    NewFixable(p, z, key, value);
  }

  lemma LeafHeight()
    ensures BlackHeight<BTreeNode>(Leaf) == 0
  {
  }

  lemma ParentColour(s: Store, p: RefPath, t: RefTree, root: BTreeNode?)
    requires Shape(s, p, t, root)
    ensures !p.Top? ==> p.at in s && s[p.at].red == p.red
  {
  }

  /** The grandparent and the uncle, and the side they are on. */
  lemma Grandparent(s: Store, p: RefPath, t: RefTree, root: BTreeNode?)
    requires Shape(s, p, t, root) && !p.Top? && !p.up.Top?
    ensures p.at in s && p.up.at in s && s[p.at].parent == p.up.at
    ensures p.up.LeftOf? <==> s[p.up.at].left == p.at
    ensures p.up.LeftOf? ==> s[p.up.at].right == RootOf(p.up.sibling)
    ensures p.up.RightOf? ==> s[p.up.at].left == RootOf(p.up.sibling)
    ensures p.up.sibling.Node? ==> p.up.sibling.at in s && s[p.up.sibling.at].red == p.up.sibling.red
    ensures p.up.sibling.Node? ==> p.up.sibling.at == RootOf(p.up.sibling)
  {
    MoveUp(s, p, t, root);
    AtParent(s, p, t, root);
    AtParent(s, p.up, Joined(p, t), root);
  }

  lemma FixEnds(p: RefPath, t: RefTree)
    requires t.Node? && !IsRedPath(p)
    ensures Plug(p, t).Node? && Fix(p, t) == Plug(p, t).(red := false)
  {
    PlugNode(p, t);
  }

  /** After the rotations the loop ends, on what the repair was to become. */
  lemma SettledFixable(p: RefPath, t: RefTree, n: nat)
    requires Fixable(p, t, n) && IsRedPath(p) && !p.up.Top? && !IsRed(p.up.sibling)
    ensures var c := Settled(p, t);
            && c.found.Node? && Fixable(c.path, c.found, n) && Depth(c.path) < Depth(p)
            && Fix(c.path, c.found) == Fix(p, t)
  {
    hide Fix;
    TwoUp(p, n);
    RotatedFixed(p, t, n);
    Opened(Rotated(p, t), n + 1);
    Opened(t, n);
    FixRotated(p, t);
  }

  lemma FixRotated(p: RefPath, t: RefTree)
    requires t.Node? && IsRedPath(p) && !p.up.Top? && !IsRed(p.up.sibling) && IsRed(t)
    ensures var c := Settled(p, t); c.found.Node? && Fix(c.path, c.found) == Fix(p, t)
  {
  }

  /** The grandparent's subtree with the parent black and the grandparent red. */
  function Grown(p: RefPath, t: RefTree): RefTree
    requires !p.Top? && !p.up.Top?
  {
    var parent := Joined(p, t);
    var grand := Joined(p.up, parent.(red := false));
    grand.(red := true)
  }

  /** After the rotation at the parent: the former parent is the outer grandchild. */
  function Straightened(p: RefPath, t: RefTree): Spot<BTreeNode>
    requires t.Node? && !p.Top?
  {
    if p.RightOf? then
      Spot(LeftOf(t.at, t.red, t.key, t.value, t.right, p.up), Node(p.at, p.red, p.key, p.value, p.sibling, t.left))
    else
      Spot(RightOf(t.at, t.red, t.key, t.value, t.left, p.up), Node(p.at, p.red, p.key, p.value, t.right, p.sibling))
  }

  /** Where `z` is after the rotation at the grandparent. */
  function Settled(p: RefPath, t: RefTree): Spot<BTreeNode>
    requires t.Node? && !p.Top? && !p.up.Top?
  {
    var r := Rotated(p, t);
    if p.up.LeftOf? then Spot(LeftOf(r.at, r.red, r.key, r.value, r.right, p.up.up), r.left)
    else Spot(RightOf(r.at, r.red, r.key, r.value, r.left, p.up.up), r.right)
  }

  /** The path to the sibling. */
  function Beside(p: RefPath, t: RefTree): RefPath
    requires !p.Top?
  {
    if p.LeftOf? then RightOf(p.at, p.red, p.key, p.value, t, p.up)
    else LeftOf(p.at, p.red, p.key, p.value, t, p.up)
  }

  lemma AtRoot(s: Store, t: RefTree, root: BTreeNode?)
    requires Shape(s, Top, t, root)
    ensures root == RootOf(t)
  {
  }
}
