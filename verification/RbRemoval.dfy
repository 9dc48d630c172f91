/** Removal of one key from a red-black tree (`btreemap_remove` in lang/btree_map.c): the bindings are
    always right, the black heights only when the node spliced out was red, or had a child, or was alone. */
module RbRemoval {
  import opened Wrappers
  import opened StringKeys
  import opened RbTree

  /** `tree_minimum`, with the path walked. */
  function Minimum<N>(t: Tree<N>, p: Path<N>): (r: Spot<N>)
    requires t.Node?
    ensures r.found.Node? && r.found.left.Leaf?
  {
    if t.left.Leaf? then Spot(p, t) else Minimum(t.left, LeftOf(t.at, t.red, t.key, t.value, t.right, p))
  }

  /** The node that leaves its place and what is above that place afterwards: the node of the key, or,
      if that has two children, its successor, which then stands where the node of the key stood. */
  function SplicedOut<N>(t: Tree<N>, k: string): (r: Option<Spot<N>>)
    ensures r.Some? ==> r.value.found.Node? && (r.value.found.left.Leaf? || r.value.found.right.Leaf?)
  {
    var s := Descend(t, k, Top);
    var z := s.found;
    if z.Leaf? then None
    else if z.left.Leaf? || z.right.Leaf? then Some(s)
    else
      var y := Minimum(z.right, Top).found;
      Some(Minimum(z.right, RightOf(y.at, z.red, y.key, y.value, z.left, s.path)))
  }

  function OnlyChild<N>(y: Tree<N>): Tree<N>
    requires y.Node?
  {
    if y.left.Leaf? then y.right else y.left
  }

  /** The child takes the place. `delete_fixup` is called if the node was black: a red child turns black;
      where there is no child the repair stops at once and paints the root. */
  function Spliced<N>(s: Spot<N>): Tree<N>
    requires s.found.Node?
  {
    var x := OnlyChild(s.found);
    if s.found.red then Plug(s.path, x)
    else if x.Leaf? then Blacken(Plug(s.path, Leaf))
    else Plug(s.path, Blacken(x))
  }

  /** `btreemap_remove`: the new tree and whether the key was there. */
  function Remove<N>(t: Tree<N>, k: string): (r: (Tree<N>, bool))
    requires RedBlack(t)
  {
    match SplicedOut(t, k)
    case None => (t, false)
    case Some(s) => (Spliced(s), true)
  }

  /** The repair leaves equal black heights. */
  predicate Balanced<N>(s: Spot<N>)
    requires s.found.Node?
  {
    s.found.red || OnlyChild(s.found).Node? || s.path.Top?
  }

  // ---- Colours ------------------------------------------------------------------------

  /** The colours of a subtree and of the path above it fit. */
  predicate Fits<N>(p: Path<N>, t: Tree<N>, n: nat) {
    && NoRedRed(t) && RedsUp(p, IsRed(t)) && BlackRoot(p) && Blacks(t, n) && BlacksUp(p, n) && (p.Top? ==> !IsRed(t))
  }

  lemma {:induction false} MinimumFits<N>(t: Tree<N>, p: Path<N>, n: nat)
    requires t.Node? && Fits(p, t, n) && !p.Top?
    ensures var s := Minimum(t, p);
            && !s.path.Top? && Fits(s.path, s.found, BlackHeight(s.found))
    decreases t
  {
    if t.left.Leaf? {
      BlacksUnique(t, n);
    } else {
      MinimumFits(t.left, LeftOf(t.at, t.red, t.key, t.value, t.right, p), if t.red then n else n - 1);
    }
  }

  /** In a red-black tree an only child is red, and its parent black. */
  lemma OnlyChildRed<N>(p: Path<N>, y: Tree<N>, n: nat)
    requires Fits(p, y, n) && y.Node? && (y.left.Leaf? || y.right.Leaf?)
    ensures var x := OnlyChild(y);
            && NoRedRed(x) && Blacks(x, 0) && n == (if y.red then 0 else 1)
            && (x.Node? ==> x.red && !y.red && NoRedRed(Blacken(x)) && Blacks(Blacken(x), 1))
  {
    var x, m := OnlyChild(y), if y.red then n else n - 1;
    assert Blacks(y.left, m) && Blacks(y.right, m) && NoRedRed(y.left) && NoRedRed(y.right);
    assert m == 0;
    if x.Node? {
      assert x.red && Blacks(x.left, 0) && Blacks(x.right, 0);
    }
  }

  lemma ThinnerFits<N>(p: Path<N>, red: bool)
    requires RedsUp(p, red)
    ensures RedsUp(p, false)
  {
  }

  /** No number of black nodes is right for every path. */
  predicate Uneven<N>(t: Tree<N>) {
    !Blacks(t, BlackHeight(t))
  }

  lemma {:induction false} UnevenUp<N>(p: Path<N>, t: Tree<N>)
    requires Uneven(t)
    ensures Uneven(Plug(p, t))
    decreases p
  {
    match p
    case Top =>
    case LeftOf(at, red, k, v, s, up) =>
      UnevenChild(Node(at, red, k, v, t, s), t);
      UnevenUp(up, Node(at, red, k, v, t, s));
    case RightOf(at, red, k, v, s, up) =>
      UnevenChild(Node(at, red, k, v, s, t), t);
      UnevenUp(up, Node(at, red, k, v, s, t));
  }

  lemma UnevenChild<N>(t: Tree<N>, child: Tree<N>)
    requires Uneven(child) && t.Node? && (child == t.left || child == t.right)
    ensures Uneven(t)
  {
    var n := BlackHeight(t);
    if Blacks(t, n) {
      BlacksUnique(child, if t.red then n else n - 1);
    }
  }

  lemma UnevenHole<N>(t: Tree<N>, sibling: Tree<N>, n: nat)
    requires Blacks(sibling, n) && n > 0 && t.Node?
    requires (t.left == sibling && t.right.Leaf?) || (t.left.Leaf? && t.right == sibling)
    ensures Uneven(t)
  {
    var h := BlackHeight(t);
    BlacksUnique(sibling, n);
    if Blacks(t, h) {
      var m := if t.red then h else h - 1;
      assert Blacks(t.left, m) && Blacks(t.right, m);
      BlacksUnique(sibling, m);
    }
  }

  /** A missing black node is missed everywhere else. */
  lemma HoleUneven<N>(p: Path<N>, n: nat)
    requires !p.Top? && n > 0 && BlacksUp(p, n)
    ensures Uneven(Plug(p, Leaf))
  {
    var t := if p.LeftOf? then Node(p.at, p.red, p.key, p.value, Leaf, p.sibling)
             else Node(p.at, p.red, p.key, p.value, p.sibling, Leaf);
    UnevenHole(t, p.sibling, n);
    UnevenUp(p.up, t);
  }

  /** Splicing keeps the colour rules, and the black heights exactly when it is balanced. */
  lemma SplicedColours<N>(s: Spot<N>)
    requires s.found.Node? && (s.found.left.Leaf? || s.found.right.Leaf?)
    requires Fits(s.path, s.found, BlackHeight(s.found))
    ensures var r := Spliced(s);
            && !IsRed(r) && NoRedRed(r) && (Blacks(r, BlackHeight(r)) <==> Balanced(s))
  {
    hide Blacks;
    hide NoRedRed;
    hide Plug;
    hide BlackHeight;
    hide RedsUp;
    hide BlacksUp;
    hide BlackRoot;
    var p, y := s.path, s.found;
    var x, n := OnlyChild(y), BlackHeight(y);
    OnlyChildRed(p, y, n);
    ThinnerFits(p, IsRed(y));
    PlugTop(x);
    if x.Node? {
      PlugFits(p, Blacken(x), n);
    } else if y.red {
      LeafFits<N>();
      PlugFits(p, Leaf, n);
    } else if p.Top? {
      LeafFits<N>();
      PlugTop<N>(Leaf);
    } else {
      LeafFits<N>();
      PlugReds(p, Leaf);
      HoleUneven(p, n);
      PlugLeafRoot(p);
    }
  }

  lemma LeafFits<N>()
    ensures NoRedRed<N>(Leaf) && Blacks<N>(Leaf, 0) && BlackHeight<N>(Leaf) == 0
  {
  }

  lemma {:induction false} PlugLeafRoot<N>(p: Path<N>)
    requires !p.Top? && BlackRoot(p)
    ensures !IsRed(Plug(p, Leaf)) && Blacken(Plug(p, Leaf)) == Plug(p, Leaf)
  {
    if p.LeftOf? {
      var t := Node(p.at, p.red, p.key, p.value, Leaf, p.sibling);
      PlugNode(p.up, t);
      PlugTop(t);
    } else {
      var t := Node(p.at, p.red, p.key, p.value, p.sibling, Leaf);
      PlugNode(p.up, t);
      PlugTop(t);
    }
  }

  lemma PlugFits<N>(p: Path<N>, t: Tree<N>, n: nat)
    requires !IsRed(t) && NoRedRed(t) && RedsUp(p, false) && BlackRoot(p) && Blacks(t, n) && BlacksUp(p, n)
    ensures var r := Plug(p, t);
            !IsRed(r) && NoRedRed(r) && Blacks(r, BlackHeight(r))
  {
    PlugReds(p, t);
    PlugBlacks(p, t, n);
    BlacksUnique(Plug(p, t), Total(p, n));
    if t.Node? {
      PlugNode(p, t);
    } else if !p.Top? {
      PlugLeafRoot(p);
    }
  }

  // ---- Bindings -----------------------------------------------------------------------

  lemma {:induction false} MinimumFirst<N>(t: Tree<N>, p: Path<N>)
    requires t.Node?
    ensures var s := Minimum(t, p);
            && Plug(s.path, s.found) == Plug(p, t) && Before(s.path) == Before(p) && s.found == Minimum(t, Top).found
    decreases t
  {
    if !t.left.Leaf? {
      MinimumFirst(t.left, LeftOf(t.at, t.red, t.key, t.value, t.right, p));
      MinimumFirst(t.left, LeftOf(t.at, t.red, t.key, t.value, t.right, Top));
    }
  }

  lemma FlatBlacken<N>(t: Tree<N>)
    ensures Flat(Blacken(t)) == Flat(t)
  {
  }

  /** The child is all that stays of the node spliced out. */
  lemma SplicedFlat<N>(s: Spot<N>)
    requires s.found.Node? && (s.found.left.Leaf? || s.found.right.Leaf?)
    ensures Flat(Spliced(s)) == Before(s.path) + Flat(OnlyChild(s.found)) + After(s.path)
  {
    var x := OnlyChild(s.found);
    FlatPlug(s.path, x);
    FlatPlug(s.path, Blacken(x));
    FlatBlacken(x);
    FlatBlacken(Plug(s.path, Leaf));
  }

  /** Of all the bindings only that of the key is gone. */
  lemma RemovedFlat<N>(t: Tree<N>, k: string, p: Path<N>, z: Tree<N>)
    requires Descend(t, k, Top) == Spot(p, z) && z.Node? && Plug(p, z) == t
    ensures SplicedOut(t, k).Some?
    ensures Flat(Spliced(SplicedOut(t, k).value)) == (Before(p) + Flat(z.left)) + (Flat(z.right) + After(p))
    ensures Flat(t) == (Before(p) + Flat(z.left)) + [Binding(z.key, z.value)] + (Flat(z.right) + After(p))
  {
    hide Descend;
    hide Plug;
    hide Spliced;
    var s := SplicedOut(t, k).value;
    FlatPlug(p, z);
    SpotBindings(Before(p), Flat(z.left), z.key, z.value, Flat(z.right), After(p));
    SplicedFlat(s);
    if z.left.Leaf? || z.right.Leaf? {
      OneSide(Before(p), Flat(z.left), Flat(z.right), After(p));
    } else {
      SuccessorFlat(p, z, s);
    }
  }

  lemma OneSide(a: seq<Binding>, l: seq<Binding>, r: seq<Binding>, b: seq<Binding>)
    ensures l == [] ==> (a + l) + (r + b) == a + r + b
    ensures r == [] ==> (a + l) + (r + b) == a + l + b
  {
  }

  lemma SuccessorFlat<N>(p: Path<N>, z: Tree<N>, s: Spot<N>)
    requires z.Node? && z.right.Node?
    requires var y := Minimum(z.right, Top).found;
             s == Minimum(z.right, RightOf(y.at, z.red, y.key, y.value, z.left, p))
    ensures Before(s.path) + Flat(OnlyChild(s.found)) + After(s.path)
            == (Before(p) + Flat(z.left)) + (Flat(z.right) + After(p))
  {
    hide Minimum;
    hide Plug;
    var y := Minimum(z.right, Top).found;
    var q := RightOf(y.at, z.red, y.key, y.value, z.left, p);
    MinimumFirst(z.right, q);
    FlatPlug(s.path, y);
    FlatPlug(q, z.right);
    MovesUp(Before(p), Flat(z.left), Binding(y.key, y.value), Flat(y.right), After(s.path), Flat(z.right), After(p));
  }

  lemma MovesUp(a: seq<Binding>, l: seq<Binding>, y: Binding, x: seq<Binding>, b: seq<Binding>, r: seq<Binding>,
                c: seq<Binding>)
    requires (a + l + [y]) + ([] + [y] + x) + b == (a + l + [y]) + r + c
    ensures (a + l + [y]) + x + b == (a + l) + (r + c)
  {
    var front := a + l + [y];
    assert (front + ([] + [y] + x) + b)[|front|..] == [y] + x + b;
    assert (front + r + c)[|front|..] == r + c;
    assert front + x + b == (a + l) + ([y] + x + b);
  }

  /** A binding in the middle of a sorted list is dropped. */
  lemma MiddleDropped(a: seq<Binding>, k: string, v: Pointer, b: seq<Binding>)
    requires Sorted(a + [Binding(k, v)] + b)
    ensures Sorted(a + b) && MapOf(a + b) == MapOf(a + [Binding(k, v)] + b) - {k}
    ensures k in MapOf(a + [Binding(k, v)] + b)
  {
    hide Less;
    hide MapOf;
    SortedParts(a, k, v, b);
    BelowDiffers(a, k);
    BelowDiffers(b, k);
    MapOfMiddle(a, k, v, b);
    MapOfKeys(a + b, k);
    var all := a + [Binding(k, v)] + b;
    forall i, j | 0 <= i < j < |a + b| ensures Less((a + b)[i].key, (a + b)[j].key) {
      var i', j' := if i < |a| then i else i + 1, if j < |a| then j else j + 1;
      assert all[i'] == (a + b)[i] && all[j'] == (a + b)[j];
    }
  }

  // ---- Removal ------------------------------------------------------------------------

  /** The spliced node and its path fit as they did in the tree. */
  lemma SplicedOutFits<N>(t: Tree<N>, k: string)
    requires RedBlack(t) && SplicedOut(t, k).Some?
    ensures var s := SplicedOut(t, k).value;
            && Descend(t, k, Top).found.Node?
            && Fits(s.path, s.found, BlackHeight(s.found))
  {
    hide Descend;
    hide Located;
    hide Minimum;
    StartLocated(t, k);
    DescendLocated(t, k, Top, BlackHeight(t));
    var s := Descend(t, k, Top);
    var p, z := s.path, s.found;
    LocatedFits(p, z, k, BlackHeight(z));
    if !z.left.Leaf? && !z.right.Leaf? {
      var y := Minimum(z.right, Top).found;
      var q := RightOf(y.at, z.red, y.key, y.value, z.left, p);
      RightFits(p, z, BlackHeight(z), q);
      MinimumFits(z.right, q, if z.red then BlackHeight(z) else BlackHeight(z) - 1);
    }
  }

  lemma LocatedFits<N>(p: Path<N>, t: Tree<N>, k: string, n: nat)
    requires Located(p, t, k, n)
    ensures Fits(p, t, n)
  {
  }

  lemma RightFits<N>(p: Path<N>, z: Tree<N>, n: nat, q: Path<N>)
    requires Fits(p, z, n) && z.Node? && z.right.Node?
    requires q.RightOf? && q.red == z.red && q.sibling == z.left && q.up == p
    ensures z.red || n > 0
    ensures Fits(q, z.right, if z.red then n else n - 1)
  {
  }

  /** Removing a key removes its binding and no other, reports whether it was there, and keeps search order
      and the colour rules; the tree is red-black again exactly when the splice was balanced. */
  lemma RemoveCorrect<N>(t: Tree<N>, k: string)
    requires RedBlack(t)
    ensures var (r, found) := Remove(t, k);
            && found == (k in Contents(t))
            && Contents(r) == Contents(t) - {k}
            && Sorted(Flat(r)) && NoRedRed(r) && !IsRed(r)
            && (RedBlack(r) <==> !found || Balanced(SplicedOut(t, k).value))
  {
    hide Located;
    hide Descend;
    hide RedBlack;
    hide Flat;
    hide MapOf;
    hide Sorted;
    hide Plug;
    hide Spliced;
    hide SplicedOut;
    SearchCorrect(t, k);
    StartLocated(t, k);
    DescendLocated(t, k, Top, BlackHeight(t));
    PlugTop(t);
    RedBlackMeans(t);
    SplicedOutSome(t, k);
    if k in Contents(t) {
      var s := Descend(t, k, Top);
      RemovedFlat(t, k, s.path, s.found);
      MiddleDropped(Before(s.path) + Flat(s.found.left), k, s.found.value, Flat(s.found.right) + After(s.path));
      SplicedOutFits(t, k);
      SplicedColours(SplicedOut(t, k).value);
      RedBlackMeans(Spliced(SplicedOut(t, k).value));
    } else {
      assert Contents(t) - {k} == Contents(t);
    }
  }

  lemma SplicedOutSome<N>(t: Tree<N>, k: string)
    ensures SplicedOut(t, k).Some? <==> Descend(t, k, Top).found.Node?
  {
    hide Descend;
  }

  lemma RedBlackMeans<N>(t: Tree<N>)
    ensures RedBlack(t) <==> !IsRed(t) && NoRedRed(t) && Blacks(t, BlackHeight(t)) && Sorted(Flat(t))
  {
  }

  lemma SingleNode<N>(t: Tree<N>)
    requires t.Node? && t.left.Leaf? && t.right.Leaf? && !t.red
    ensures Flat(t) == [Binding(t.key, t.value)] && NoRedRed(t) && Blacks(t, 1) && BlackHeight(t) == 1
  {
  }

  /** Removing a black node without children loses a black node on one side. */
  lemma LostBlack<N>(x: N, y: N, z: N)
    ensures var t := Node(y, false, "b", 2, Node(x, false, "a", 1, Leaf, Leaf), Node(z, false, "c", 3, Leaf, Leaf));
            && RedBlack(t)
            && Remove(t, "a").0 == Node(y, false, "b", 2, Leaf, Node(z, false, "c", 3, Leaf, Leaf))
            && !RedBlack(Remove(t, "a").0)
  {
    var a, c := Node(x, false, "a", 1, Leaf, Leaf), Node(z, false, "c", 3, Leaf, Leaf);
    var t := Node(y, false, "b", 2, a, c);
    assert Strcmp("a", "b") < 0 && Strcmp("b", "c") < 0 && Strcmp("a", "c") < 0;
    SingleNode(a);
    SingleNode(c);
    assert Flat(t) == [Binding("a", 1), Binding("b", 2), Binding("c", 3)];
    assert Blacks(t, 2);
    var up := LeftOf(y, false, "b", 2, c, Top);
    assert Descend(t, "a", Top) == Descend(a, "a", up) == Spot(up, a);
    var r := Node(y, false, "b", 2, Leaf, c);
    assert Plug(up, Leaf) == Plug(Top, r) == r;
    assert Uneven(r);
  }
}
