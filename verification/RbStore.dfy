/** How the nodes of lang/btree_map.c hold a tree: every child and parent pointer, seen as a
    snapshot of the node fields, and what the pointer changes of a rotation, a recolouring and a
    new leaf do to the tree held. */
module RbStore {
  import opened RbTree
  import opened StringKeys

  class BTreeNode {
    const key: string
    var value: Pointer
    var red: bool
    var left: BTreeNode?
    var right: BTreeNode?
    var parent: BTreeNode?

    /** `node_new`: a red node without links. */
    constructor (key: string, value: Pointer)
      ensures this.key == key && this.value == value && red && left == null && right == null && parent == null
    {
      this.key, this.value, red := key, value, true;
      left, right, parent := null, null, null;
    }
  }

  /** The fields of a node. */
  datatype Cell = Cell(value: Pointer, red: bool, left: BTreeNode?, right: BTreeNode?, parent: BTreeNode?)

  type Store = map<BTreeNode, Cell>

  type RefTree = Tree<BTreeNode>

  type RefPath = Path<BTreeNode>

  function RootOf(t: RefTree): BTreeNode? {
    if t.Leaf? then null else t.at
  }

  function ParentAt(p: RefPath): BTreeNode? {
    if p.Top? then null else p.at
  }

  /** The nodes from `RootOf(t)` down hold the tree `t`, parent pointers included. */
  ghost predicate Rep(s: Store, t: RefTree, parent: BTreeNode?) {
    match t
    case Leaf => true
    case Node(n, red, k, v, l, r) =>
      && n in s && n.key == k && s[n] == Cell(v, red, RootOf(l), RootOf(r), parent)
      && Rep(s, l, n) && Rep(s, r, n)
  }

  /** The nodes above `hole` hold the path, up to the root pointer of the map. */
  ghost predicate RepUp(s: Store, p: RefPath, hole: BTreeNode?, root: BTreeNode?) {
    match p
    case Top => hole == root
    case LeftOf(n, red, k, v, sib, up) =>
      && n in s && n.key == k && s[n] == Cell(v, red, hole, RootOf(sib), ParentAt(up))
      && Rep(s, sib, n) && RepUp(s, up, n, root)
    case RightOf(n, red, k, v, sib, up) =>
      && n in s && n.key == k && s[n] == Cell(v, red, RootOf(sib), hole, ParentAt(up))
      && Rep(s, sib, n) && RepUp(s, up, n, root)
  }

  function Refs(t: RefTree): set<BTreeNode> {
    match t
    case Leaf => {}
    case Node(n, _, _, _, l, r) => {n} + Refs(l) + Refs(r)
  }

  function RefsUp(p: RefPath): set<BTreeNode> {
    if p.Top? then {} else {p.at} + Refs(p.sibling) + RefsUp(p.up)
  }

  /** No node is used twice. */
  predicate Apart(t: RefTree) {
    match t
    case Leaf => true
    case Node(n, _, _, _, l, r) =>
      n !in Refs(l) && n !in Refs(r) && Refs(l) !! Refs(r) && Apart(l) && Apart(r)
  }

  predicate ApartUp(p: RefPath) {
    p.Top? || (&& p.at !in Refs(p.sibling) && p.at !in RefsUp(p.up) && Refs(p.sibling) !! RefsUp(p.up)
               && Apart(p.sibling) && ApartUp(p.up))
  }

  /** The map with root pointer `root` holds `Plug(p, t)`, cut at `t`. */
  ghost predicate Shape(s: Store, p: RefPath, t: RefTree, root: BTreeNode?) {
    && Rep(s, t, ParentAt(p)) && RepUp(s, p, RootOf(t), root)
    && Apart(t) && ApartUp(p) && Refs(t) !! RefsUp(p)
  }

  // ---- Moving the cut --------------------------------------------------------------------

  lemma DownLeft(s: Store, p: RefPath, t: RefTree, root: BTreeNode?)
    requires Shape(s, p, t, root) && t.Node?
    ensures Shape(s, LeftOf(t.at, t.red, t.key, t.value, t.right, p), t.left, root)
  {
  }

  lemma DownRight(s: Store, p: RefPath, t: RefTree, root: BTreeNode?)
    requires Shape(s, p, t, root) && t.Node?
    ensures Shape(s, RightOf(t.at, t.red, t.key, t.value, t.left, p), t.right, root)
  {
  }

  /** The subtree one level up. */
  function Joined(p: RefPath, t: RefTree): (r: RefTree)
    requires !p.Top?
    ensures r.Node?
  {
    if p.LeftOf? then Node(p.at, p.red, p.key, p.value, t, p.sibling)
    else Node(p.at, p.red, p.key, p.value, p.sibling, t)
  }

  lemma MoveUp(s: Store, p: RefPath, t: RefTree, root: BTreeNode?)
    requires Shape(s, p, t, root) && !p.Top?
    ensures Shape(s, p.up, Joined(p, t), root)
  {
  }

  lemma {:induction false} MoveToTop(s: Store, p: RefPath, t: RefTree, root: BTreeNode?)
    requires Shape(s, p, t, root)
    ensures Shape(s, Top, Plug(p, t), root)
    decreases p
  {
    hide Shape;
    if !p.Top? {
      MoveUp(s, p, t, root);
      MoveToTop(s, p.up, Joined(p, t), root);
    }
  }

  // ---- Framing ----------------------------------------------------------------------------

  ghost predicate SameOn(s: Store, s': Store, refs: set<BTreeNode>) {
    forall n :: n in refs && n in s ==> n in s' && s'[n] == s[n]
  }

  lemma {:induction false} RepFrame(s: Store, s': Store, t: RefTree, parent: BTreeNode?)
    requires Rep(s, t, parent) && SameOn(s, s', Refs(t))
    ensures Rep(s', t, parent)
  {
    match t
    case Leaf =>
    case Node(n, _, _, _, l, r) =>
      RepFrame(s, s', l, n);
      RepFrame(s, s', r, n);
  }

  lemma {:induction false} RepUpFrame(s: Store, s': Store, p: RefPath, hole: BTreeNode?, root: BTreeNode?)
    requires RepUp(s, p, hole, root) && SameOn(s, s', RefsUp(p))
    ensures RepUp(s', p, hole, root)
    decreases p
  {
    if !p.Top? {
      RepFrame(s, s', p.sibling, p.at);
      RepUpFrame(s, s', p.up, p.at, root);
    }
  }

  /** Only the root of a subtree changed, and only in its parent pointer. */
  lemma Reparent(s: Store, s': Store, t: RefTree, parent: BTreeNode?, parent': BTreeNode?)
    requires Rep(s, t, parent) && Apart(t)
    requires t.Node? ==> t.at in s' && s'[t.at] == s[t.at].(parent := parent') && SameOn(s, s', Refs(t) - {t.at})
    ensures Rep(s', t, parent')
  {
    if t.Node? {
      RepFrame(s, s', t.left, t.at);
      RepFrame(s, s', t.right, t.at);
    }
  }

  /** The link from above now leads to `hole'`: the root pointer or a child pointer. */
  ghost predicate Relinked(s: Store, s': Store, p: RefPath, hole': BTreeNode?, root: BTreeNode?, root': BTreeNode?) {
    if p.Top? then root' == hole'
    else
      && root' == root && p.at in s && p.at in s'
      && s'[p.at] == (if p.LeftOf? then s[p.at].(left := hole') else s[p.at].(right := hole'))
  }

  lemma Rehang(s: Store, s': Store, p: RefPath, hole: BTreeNode?, hole': BTreeNode?, root: BTreeNode?,
               root': BTreeNode?)
    requires RepUp(s, p, hole, root) && ApartUp(p) && Relinked(s, s', p, hole', root, root')
    requires !p.Top? ==> SameOn(s, s', RefsUp(p) - {p.at})
    ensures RepUp(s', p, hole', root')
  {
    if !p.Top? {
      RepFrame(s, s', p.sibling, p.at);
      RepUpFrame(s, s', p.up, p.at, root);
    }
  }

  // ---- Pointers at the cut ------------------------------------------------------------------

  /** What the pointers at the cut lead to. */
  lemma AtCut(s: Store, p: RefPath, t: RefTree, root: BTreeNode?)
    requires Shape(s, p, t, root) && t.Node?
    ensures t.at in s && t.at.key == t.key
    ensures s[t.at] == Cell(t.value, t.red, RootOf(t.left), RootOf(t.right), ParentAt(p))
    ensures p.Top? ==> root == t.at
  {
  }

  /** What the pointers at the parent lead to, and on which side the cut is. */
  lemma AtParent(s: Store, p: RefPath, t: RefTree, root: BTreeNode?)
    requires Shape(s, p, t, root) && !p.Top?
    ensures p.at in s && p.at.key == p.key && s[p.at].red == p.red && s[p.at].parent == ParentAt(p.up)
    ensures p.LeftOf? ==> s[p.at].left == RootOf(t) && s[p.at].right == RootOf(p.sibling)
    ensures p.RightOf? ==> s[p.at].right == RootOf(t) && s[p.at].left == RootOf(p.sibling)
    ensures t.Node? ==> p.at != t.at && RootOf(p.sibling) != t.at
  {
    AtInRefs(t);
    AtInRefs(p.sibling);
  }

  lemma AtLeft(s: Store, p: RefPath, t: RefTree, root: BTreeNode?)
    requires Shape(s, p, t, root) && t.Node? && t.left.Node?
    ensures var y := t.left;
            && y.at in s && y.at != t.at && y.at != ParentAt(p)
            && s[y.at].left == RootOf(y.left) && s[y.at].right == RootOf(y.right)
            && (y.right.Node? ==>
                  y.right.at in s && y.right.at != t.at && y.right.at != y.at && y.right.at != ParentAt(p))
  {
    assert Rep(s, t.left, t.at) && Apart(t.left) && Rep(s, t.left.right, t.left.at);
    TurnOthers(t);
    AtInRefs(t.left.right);
    assert !p.Top? ==> p.at in RefsUp(p);
  }

  lemma AtRight(s: Store, p: RefPath, t: RefTree, root: BTreeNode?)
    requires Shape(s, p, t, root) && t.Node? && t.right.Node?
    ensures var y := t.right;
            && y.at in s && y.at != t.at && y.at != ParentAt(p)
            && s[y.at].left == RootOf(y.left) && s[y.at].right == RootOf(y.right)
            && (y.left.Node? ==>
                  y.left.at in s && y.left.at != t.at && y.left.at != y.at && y.left.at != ParentAt(p))
  {
    assert Rep(s, t.right, t.at) && Apart(t.right) && Rep(s, t.right.left, t.right.at);
    TurnOthers(t);
    AtInRefs(t.right.left);
    assert !p.Top? ==> p.at in RefsUp(p);
  }

  // ---- Rotations ----------------------------------------------------------------------------

  function LeftRotation(t: RefTree): RefTree
    requires t.Node? && t.right.Node?
  {
    var y := t.right;
    Node(y.at, y.red, y.key, y.value, Node(t.at, t.red, t.key, t.value, t.left, y.left), y.right)
  }

  function RightRotation(t: RefTree): RefTree
    requires t.Node? && t.left.Node?
  {
    var y := t.left;
    Node(y.at, y.red, y.key, y.value, y.left, Node(t.at, t.red, t.key, t.value, y.right, t.right))
  }

  /** The stores before and after the assignments of `rotate_left` at the root of `t`. */
  ghost predicate LeftTurned(s: Store, s': Store, p: RefPath, t: RefTree)
    requires t.Node? && t.right.Node?
  {
    var x, y, b := t.at, t.right.at, RootOf(t.right.left);
    && x in s && y in s && x in s' && y in s'
    && s'[x] == s[x].(right := b, parent := y)
    && s'[y] == s[y].(left := x, parent := ParentAt(p))
    && (b != null ==> b in s && b in s' && s'[b] == s[b].(parent := x))
    && forall n :: n in s && n != x && n != y && n != b && n != ParentAt(p) ==> n in s' && s'[n] == s[n]
  }

  lemma LeftTurn(s: Store, s': Store, p: RefPath, t: RefTree, root: BTreeNode?, root': BTreeNode?)
    requires Shape(s, p, t, root) && t.Node? && t.right.Node?
    requires LeftTurned(s, s', p, t) && Relinked(s, s', p, t.right.at, root, root')
    ensures Shape(s', p, LeftRotation(t), root')
  {
    LeftTurnRep(s, s', p, t);
    LeftTurnUp(s, s', p, t, root, root');
    LeftTurnApart(p, t);
  }

  lemma LeftTurnApart(p: RefPath, t: RefTree)
    requires t.Node? && t.right.Node? && Apart(t)
    ensures Apart(LeftRotation(t)) && Refs(LeftRotation(t)) == Refs(t)
  {
  }

  lemma LeftTurnUp(s: Store, s': Store, p: RefPath, t: RefTree, root: BTreeNode?, root': BTreeNode?)
    requires Shape(s, p, t, root) && t.Node? && t.right.Node?
    requires LeftTurned(s, s', p, t) && Relinked(s, s', p, t.right.at, root, root')
    ensures RepUp(s', p, t.right.at, root')
  {
    TurnOthers(t);
    Rehang(s, s', p, t.at, t.right.at, root, root');
  }

  lemma TurnOthers(t: RefTree)
    ensures t.Node? && t.right.Node? ==> {t.at, t.right.at} <= Refs(t)
    ensures t.Node? && t.left.Node? ==> {t.at, t.left.at} <= Refs(t)
    ensures t.Node? && t.right.Node? && t.right.left.Node? ==> t.right.left.at in Refs(t)
    ensures t.Node? && t.left.Node? && t.left.right.Node? ==> t.left.right.at in Refs(t)
  {
  }

  lemma LeftTurnRep(s: Store, s': Store, p: RefPath, t: RefTree)
    requires Rep(s, t, ParentAt(p)) && Apart(t) && Refs(t) !! RefsUp(p) && t.Node? && t.right.Node?
    requires LeftTurned(s, s', p, t)
    ensures Rep(s', LeftRotation(t), ParentAt(p))
  {
    var x, y := t.at, t.right.at;
    var b := t.right.left;
    LeftTurnSame(s, s', p, t);
    RepFrame(s, s', t.left, x);
    RepFrame(s, s', t.right.right, y);
    Reparent(s, s', b, y, x);
  }

  lemma LeftTurnSame(s: Store, s': Store, p: RefPath, t: RefTree)
    requires Apart(t) && Refs(t) !! RefsUp(p) && t.Node? && t.right.Node?
    requires LeftTurned(s, s', p, t)
    ensures SameOn(s, s', Refs(t.left)) && SameOn(s, s', Refs(t.right.right))
    ensures t.right.left.Node? ==> SameOn(s, s', Refs(t.right.left) - {t.right.left.at})
  {
    TurnOthers(t);
    TurnOthers(t.right);
    AtInRefs(t.right.left);
    assert !p.Top? ==> p.at in RefsUp(p);
  }

  lemma AtInRefs(t: RefTree)
    ensures t.Node? ==> t.at in Refs(t)
  {
  }

  /** The stores before and after the assignments of `rotate_right` at the root of `t`. */
  ghost predicate RightTurned(s: Store, s': Store, p: RefPath, t: RefTree)
    requires t.Node? && t.left.Node?
  {
    var x, y, b := t.at, t.left.at, RootOf(t.left.right);
    && x in s && y in s && x in s' && y in s'
    && s'[x] == s[x].(left := b, parent := y)
    && s'[y] == s[y].(right := x, parent := ParentAt(p))
    && (b != null ==> b in s && b in s' && s'[b] == s[b].(parent := x))
    && forall n :: n in s && n != x && n != y && n != b && n != ParentAt(p) ==> n in s' && s'[n] == s[n]
  }

  lemma RightTurn(s: Store, s': Store, p: RefPath, t: RefTree, root: BTreeNode?, root': BTreeNode?)
    requires Shape(s, p, t, root) && t.Node? && t.left.Node?
    requires RightTurned(s, s', p, t) && Relinked(s, s', p, t.left.at, root, root')
    ensures Shape(s', p, RightRotation(t), root')
  {
    RightTurnRep(s, s', p, t);
    RightTurnUp(s, s', p, t, root, root');
    RightTurnApart(p, t);
  }

  lemma RightTurnApart(p: RefPath, t: RefTree)
    requires t.Node? && t.left.Node? && Apart(t)
    ensures Apart(RightRotation(t)) && Refs(RightRotation(t)) == Refs(t)
  {
  }

  lemma RightTurnUp(s: Store, s': Store, p: RefPath, t: RefTree, root: BTreeNode?, root': BTreeNode?)
    requires Shape(s, p, t, root) && t.Node? && t.left.Node?
    requires RightTurned(s, s', p, t) && Relinked(s, s', p, t.left.at, root, root')
    ensures RepUp(s', p, t.left.at, root')
  {
    TurnOthers(t);
    Rehang(s, s', p, t.at, t.left.at, root, root');
  }

  lemma RightTurnRep(s: Store, s': Store, p: RefPath, t: RefTree)
    requires Rep(s, t, ParentAt(p)) && Apart(t) && Refs(t) !! RefsUp(p) && t.Node? && t.left.Node?
    requires RightTurned(s, s', p, t)
    ensures Rep(s', RightRotation(t), ParentAt(p))
  {
    var x, y := t.at, t.left.at;
    var b := t.left.right;
    RightTurnSame(s, s', p, t);
    RepFrame(s, s', t.right, x);
    RepFrame(s, s', t.left.left, y);
    Reparent(s, s', b, y, x);
  }

  lemma RightTurnSame(s: Store, s': Store, p: RefPath, t: RefTree)
    requires Apart(t) && Refs(t) !! RefsUp(p) && t.Node? && t.left.Node?
    requires RightTurned(s, s', p, t)
    ensures SameOn(s, s', Refs(t.right)) && SameOn(s, s', Refs(t.left.left))
    ensures t.left.right.Node? ==> SameOn(s, s', Refs(t.left.right) - {t.left.right.at})
  {
    TurnOthers(t);
    TurnOthers(t.left);
    AtInRefs(t.left.right);
    assert !p.Top? ==> p.at in RefsUp(p);
  }

  function WithParent(s: Store, n: BTreeNode?, parent: BTreeNode?): (r: Store)
    requires n != null ==> n in s
    ensures r.Keys == s.Keys
  {
    if n == null then s else s[n := s[n].(parent := parent)]
  }

  /** One child link of `up`, if there is an `up`. */
  function WithChild(s: Store, up: BTreeNode?, onLeft: bool, y: BTreeNode): (r: Store)
    requires up != null ==> up in s
    ensures r.Keys == s.Keys
  {
    if up == null then s
    else if onLeft then s[up := s[up].(left := y)]
    else s[up := s[up].(right := y)]
  }

  ghost function LeftHalf(s: Store, x: BTreeNode, y: BTreeNode, mid: BTreeNode?, up: BTreeNode?): (r: Store)
    requires x in s && y in s && (mid != null ==> mid in s)
    ensures r.Keys == s.Keys
  {
    var s1 := s[x := s[x].(right := mid)];
    var s2 := WithParent(s1, mid, x);
    s2[y := s2[y].(parent := up)]
  }

  /** The assignments of `rotate_left` one after the other, on the snapshot. */
  ghost function LeftAssignments(s: Store, x: BTreeNode, y: BTreeNode, mid: BTreeNode?, up: BTreeNode?,
                                 onLeft: bool): Store
    requires x in s && y in s && (mid != null ==> mid in s) && (up != null ==> up in s)
  {
    var s3 := LeftHalf(s, x, y, mid, up);
    var s4 := WithChild(s3, up, onLeft, y);
    var s5 := s4[y := s4[y].(left := x)];
    s5[x := s5[x].(parent := y)]
  }

  lemma LeftAssigned(s: Store, p: RefPath, t: RefTree, root: BTreeNode?)
    requires Shape(s, p, t, root) && t.Node? && t.right.Node?
    ensures t.at in s && t.right.at in s && (t.right.left.Node? ==> t.right.left.at in s) && (!p.Top? ==> p.at in s)
    ensures Shape(LeftAssignments(s, t.at, t.right.at, RootOf(t.right.left), ParentAt(p), p.LeftOf?),
                  p, LeftRotation(t), if p.Top? then t.right.at else root)
  {
    hide Rep;
    hide RepUp;
    hide Apart;
    hide ApartUp;
    hide Refs;
    hide RefsUp;
    AtCut(s, p, t, root);
    AtRight(s, p, t, root);
    if !p.Top? {
      AtParent(s, p, t, root);
    }
    var s' := LeftAssignments(s, t.at, t.right.at, RootOf(t.right.left), ParentAt(p), p.LeftOf?);
    LeftTurn(s, s', p, t, root, if p.Top? then t.right.at else root);
  }

  ghost function RightHalf(s: Store, x: BTreeNode, y: BTreeNode, mid: BTreeNode?, up: BTreeNode?): (r: Store)
    requires x in s && y in s && (mid != null ==> mid in s)
    ensures r.Keys == s.Keys
  {
    var s1 := s[x := s[x].(left := mid)];
    var s2 := WithParent(s1, mid, x);
    s2[y := s2[y].(parent := up)]
  }

  /** The assignments of `rotate_right` one after the other, on the snapshot. */
  ghost function RightAssignments(s: Store, x: BTreeNode, y: BTreeNode, mid: BTreeNode?, up: BTreeNode?,
                                  onRight: bool): Store
    requires x in s && y in s && (mid != null ==> mid in s) && (up != null ==> up in s)
  {
    var s3 := RightHalf(s, x, y, mid, up);
    var s4 := WithChild(s3, up, !onRight, y);
    var s5 := s4[y := s4[y].(right := x)];
    s5[x := s5[x].(parent := y)]
  }

  lemma RightAssigned(s: Store, p: RefPath, t: RefTree, root: BTreeNode?)
    requires Shape(s, p, t, root) && t.Node? && t.left.Node?
    ensures t.at in s && t.left.at in s && (t.left.right.Node? ==> t.left.right.at in s) && (!p.Top? ==> p.at in s)
    ensures Shape(RightAssignments(s, t.at, t.left.at, RootOf(t.left.right), ParentAt(p), p.RightOf?),
                  p, RightRotation(t), if p.Top? then t.left.at else root)
  {
    hide Rep;
    hide RepUp;
    hide Apart;
    hide ApartUp;
    hide Refs;
    hide RefsUp;
    AtCut(s, p, t, root);
    AtLeft(s, p, t, root);
    if !p.Top? {
      AtParent(s, p, t, root);
    }
    var s' := RightAssignments(s, t.at, t.left.at, RootOf(t.left.right), ParentAt(p), p.RightOf?);
    RightTurn(s, s', p, t, root, if p.Top? then t.left.at else root);
  }

  // ---- One node changed ------------------------------------------------------------------------

  /** The root of the subtree at the cut changes its value and colour only. */
  lemma Repaint(s: Store, s': Store, p: RefPath, t: RefTree, root: BTreeNode?, red: bool, value: Pointer)
    requires Shape(s, p, t, root) && t.Node?
    requires t.at in s && t.at in s' && s'[t.at] == s[t.at].(red := red, value := value)
    requires SameOn(s, s', s.Keys - {t.at})
    ensures Shape(s', p, t.(red := red, value := value), root)
  {
    AtInRefs(t);
    RepFrame(s, s', t.left, t.at);
    RepFrame(s, s', t.right, t.at);
    RepUpFrame(s, s', p, t.at, root);
  }

  /** A new red leaf in place of an empty subtree. */
  lemma Attach(s: Store, s': Store, p: RefPath, z: BTreeNode, v: Pointer, root: BTreeNode?, root': BTreeNode?)
    requires Shape(s, p, Leaf, root) && z !in s
    requires z in s' && s'[z] == Cell(v, true, null, null, ParentAt(p))
    requires Relinked(s, s', p, z, root, root') && SameOn(s, s', s.Keys - {ParentAt(p)})
    ensures Shape(s', p, Node(z, true, z.key, v, Leaf, Leaf), root')
  {
    RefsUpStored(s, p, null, root);
    Rehang(s, s', p, null, z, root, root');
  }

  lemma {:induction false} RefsStored(s: Store, t: RefTree, parent: BTreeNode?)
    requires Rep(s, t, parent)
    ensures Refs(t) <= s.Keys
  {
    if t.Node? {
      RefsStored(s, t.left, t.at);
      RefsStored(s, t.right, t.at);
    }
  }

  lemma {:induction false} RefsUpStored(s: Store, p: RefPath, hole: BTreeNode?, root: BTreeNode?)
    requires RepUp(s, p, hole, root)
    ensures RefsUp(p) <= s.Keys
    decreases p
  {
    if !p.Top? {
      RefsStored(s, p.sibling, p.at);
      RefsUpStored(s, p.up, p.at, root);
    }
  }
}
