/** Red-black insertion (lang/btree_map.c) on trees as values: the descent as a walk that keeps
    the path above it, the repair loop as a function of that path, and what they keep.

    `RbStore` ties the pointers to these trees and `BTreeMap` holds the loops. */
module RbTree {
  import opened StringKeys
  import opened Bits

  /** A `void *`; 0 is `NULL`. */
  type Pointer = nat

  const NULL: Pointer := 0

  /** `at` names the C node that holds this tree node. */
  datatype Tree<N> = Leaf | Node(at: N, red: bool, key: string, value: Pointer, left: Tree<N>, right: Tree<N>)

  /** What lies above a subtree: `LeftOf` when the subtree is the left child. */
  datatype Path<N> =
    | Top
    | LeftOf(at: N, red: bool, key: string, value: Pointer, sibling: Tree<N>, up: Path<N>)
    | RightOf(at: N, red: bool, key: string, value: Pointer, sibling: Tree<N>, up: Path<N>)

  function Plug<N>(p: Path<N>, t: Tree<N>): Tree<N> {
    match p
    case Top => t
    case LeftOf(at, red, key, value, s, up) => Plug(up, Node(at, red, key, value, t, s))
    case RightOf(at, red, key, value, s, up) => Plug(up, Node(at, red, key, value, s, t))
  }

  // ---- Contents -------------------------------------------------------------------

  datatype Binding = Binding(key: string, value: Pointer)

  /** The bindings from left to right. */
  function Flat<N>(t: Tree<N>): seq<Binding> {
    match t
    case Leaf => []
    case Node(_, _, k, v, l, r) => Flat(l) + [Binding(k, v)] + Flat(r)
  }

  function Before<N>(p: Path<N>): seq<Binding> {
    match p
    case Top => []
    case LeftOf(_, _, k, v, s, up) => Before(up)
    case RightOf(_, _, k, v, s, up) => Before(up) + Flat(s) + [Binding(k, v)]
  }

  function After<N>(p: Path<N>): seq<Binding> {
    match p
    case Top => []
    case LeftOf(_, _, k, v, s, up) => [Binding(k, v)] + Flat(s) + After(up)
    case RightOf(_, _, k, v, s, up) => After(up)
  }

  /** The bindings of the subtree one level up, around those of the subtree below. */
  function Around<N>(p: Path<N>, mid: seq<Binding>): seq<Binding>
    requires !p.Top?
  {
    if p.LeftOf? then mid + [Binding(p.key, p.value)] + Flat(p.sibling)
    else Flat(p.sibling) + [Binding(p.key, p.value)] + mid
  }

  lemma OneUp<N>(p: Path<N>, mid: seq<Binding>)
    requires !p.Top?
    ensures Before(p) + mid + After(p) == Before(p.up) + Around(p, mid) + After(p.up)
  {
    hide Flat;
    var x, s := [Binding(p.key, p.value)], Flat(p.sibling);
    var a, b := Before(p.up), After(p.up);
    if p.LeftOf? {
      assert a + (mid + x + s) + b == a + mid + (x + s + b);
    } else {
      assert a + (s + x + mid) + b == (a + s + x) + mid + b;
    }
  }

  lemma {:induction false} FlatPlug<N>(p: Path<N>, t: Tree<N>)
    ensures Flat(Plug(p, t)) == Before(p) + Flat(t) + After(p)
    decreases p
  {
    match p
    case Top =>
      assert [] + Flat(t) + [] == Flat(t);
    case LeftOf(at, red, k, v, s, up) =>
      OneUp(p, Flat(t));
      FlatPlug(up, Node(at, red, k, v, t, s));
    case RightOf(at, red, k, v, s, up) =>
      OneUp(p, Flat(t));
      FlatPlug(up, Node(at, red, k, v, s, t));
  }

  /** Search order. */
  predicate Sorted(xs: seq<Binding>) {
    forall i, j :: 0 <= i < j < |xs| ==> Less(xs[i].key, xs[j].key)
  }

  predicate AllBelow(xs: seq<Binding>, k: string) {
    forall i :: 0 <= i < |xs| ==> Less(xs[i].key, k)
  }

  predicate AllAbove(xs: seq<Binding>, k: string) {
    forall i :: 0 <= i < |xs| ==> Less(k, xs[i].key)
  }

  function MapOf(xs: seq<Binding>): map<string, Pointer> {
    if xs == [] then map[] else MapOf(xs[1..])[xs[0].key := xs[0].value]
  }

  /** The map a tree stands for. */
  function Contents<N>(t: Tree<N>): map<string, Pointer> {
    MapOf(Flat(t))
  }

  /** `btreemap_get` of a map: the value, `NULL` when there is none. */
  function Lookup(m: map<string, Pointer>, k: string): Pointer {
    if k in m then m[k] else NULL
  }

  lemma {:induction false} MapOfKeys(xs: seq<Binding>, k: string)
    ensures k in MapOf(xs) <==> exists i :: 0 <= i < |xs| && xs[i].key == k
  {
    if xs != [] {
      MapOfKeys(xs[1..], k);
      if k in MapOf(xs[1..]) {
        var i :| 0 <= i < |xs[1..]| && xs[1..][i].key == k;
        assert xs[i + 1].key == k;
      }
      if i :| 0 <= i < |xs| && xs[i].key == k {
        if i > 0 {
          assert xs[1..][i - 1].key == k;
        }
      }
    }
  }

  /** A binding between others with different keys is an update of the map of the others. */
  lemma {:induction false} MapOfMiddle(a: seq<Binding>, k: string, v: Pointer, b: seq<Binding>)
    requires forall i :: 0 <= i < |a| ==> a[i].key != k
    ensures MapOf(a + [Binding(k, v)] + b) == MapOf(a + b)[k := v]
  {
    var mid := [Binding(k, v)];
    if a == [] {
      assert a + mid + b == mid + b && a + b == b;
      assert (mid + b)[1..] == b && (mid + b)[0] == mid[0];
    } else {
      assert (a + mid + b)[0] == a[0] && (a + mid + b)[1..] == a[1..] + mid + b;
      assert (a + b)[0] == a[0] && (a + b)[1..] == a[1..] + b;
      MapOfMiddle(a[1..], k, v, b);
    }
  }

  lemma SortedParts(a: seq<Binding>, k: string, v: Pointer, b: seq<Binding>)
    ensures Sorted(a + [Binding(k, v)] + b) <==> Sorted(a + b) && AllBelow(a, k) && AllAbove(b, k)
  {
    hide Less;
    var mid := a + [Binding(k, v)] + b;
    var n := |a|;
    if Sorted(mid) {
      assert mid[n].key == k;
      forall i | 0 <= i < |a| ensures Less(a[i].key, k) { assert mid[i] == a[i]; }
      forall i | 0 <= i < |b| ensures Less(k, b[i].key) { assert mid[n + 1 + i] == b[i]; }
      forall i, j | 0 <= i < j < |a + b| ensures Less((a + b)[i].key, (a + b)[j].key) {
        assert (a + b)[i] == mid[if i < n then i else i + 1];
        assert (a + b)[j] == mid[if j < n then j else j + 1];
      }
    }
    if Sorted(a + b) && AllBelow(a, k) && AllAbove(b, k) {
      forall i, j | 0 <= i < j < |mid| ensures Less(mid[i].key, mid[j].key) {
        if i != n && j != n {
          assert mid[i] == (a + b)[if i < n then i else i - 1];
          assert mid[j] == (a + b)[if j < n then j else j - 1];
        } else if i == n {
          assert mid[j] == b[j - n - 1];
        } else {
          assert mid[i] == a[i];
        }
      }
    }
  }

  lemma BelowDiffers(a: seq<Binding>, k: string)
    requires AllBelow(a, k) || AllAbove(a, k)
    ensures forall i :: 0 <= i < |a| ==> a[i].key != k
  {
    hide Less;
    forall i | 0 <= i < |a| ensures a[i].key != k {
      NotLessSelf(k);
    }
  }

  lemma NotLessSelf(k: string)
    ensures !Less(k, k)
  {
    StrcmpSigns(k, k);
  }

  /** A sorted list binds each key once. */
  lemma {:induction false} MapOfSize(xs: seq<Binding>)
    requires Sorted(xs)
    ensures |MapOf(xs)| == |xs|
  {
    hide Less;
    if xs != [] {
      assert Sorted(xs[1..]) by {
        assert forall i :: 0 <= i < |xs[1..]| ==> xs[1..][i] == xs[i + 1];
      }
      MapOfSize(xs[1..]);
      MapOfKeys(xs[1..], xs[0].key);
      if xs[0].key in MapOf(xs[1..]) {
        var i :| 0 <= i < |xs[1..]| && xs[1..][i].key == xs[0].key;
        assert Less(xs[0].key, xs[i + 1].key);
        NotLessSelf(xs[0].key);
        assert false;
      }
      assert MapOf(xs).Keys == MapOf(xs[1..]).Keys + {xs[0].key};
    }
  }

  // ---- Colours and heights ------------------------------------------------------------

  predicate IsRed<N>(t: Tree<N>) {
    t.Node? && t.red
  }

  /** No red node has a red child. */
  predicate NoRedRed<N>(t: Tree<N>) {
    match t
    case Leaf => true
    case Node(_, red, _, _, l, r) => NoRedRed(l) && NoRedRed(r) && (red ==> (!IsRed(l) && !IsRed(r)))
  }

  /** Every path down to a leaf passes `n` black nodes. */
  predicate Blacks<N>(t: Tree<N>, n: nat) {
    match t
    case Leaf => n == 0
    case Node(_, red, _, _, l, r) =>
      if red then Blacks(l, n) && Blacks(r, n) else n > 0 && Blacks(l, n - 1) && Blacks(r, n - 1)
  }

  /** The black nodes on the left spine. */
  function BlackHeight<N>(t: Tree<N>): nat {
    match t
    case Leaf => 0
    case Node(_, red, _, _, l, _) => BlackHeight(l) + (if red then 0 else 1)
  }

  predicate RedBlack<N>(t: Tree<N>) {
    !IsRed(t) && NoRedRed(t) && Blacks(t, BlackHeight(t)) && Sorted(Flat(t))
  }

  lemma {:induction false} BlacksUnique<N>(t: Tree<N>, n: nat)
    requires Blacks(t, n)
    ensures n == BlackHeight(t)
  {
    match t
    case Leaf =>
    case Node(_, red, _, _, l, _) => BlacksUnique(l, if red then n else n - 1);
  }

  function Height<N>(t: Tree<N>): nat {
    match t
    case Leaf => 0
    case Node(_, _, _, _, l, r) => 1 + (if Height(l) > Height(r) then Height(l) else Height(r))
  }

  /** Going left for true and right for false, the path ends at a node of the tree. */
  predicate Along<N>(t: Tree<N>, path: seq<bool>) {
    match t
    case Leaf => false
    case Node(_, _, _, _, l, r) => path == [] || Along(if path[0] then l else r, path[1..])
  }

  /** The height is the number of nodes on the longest path. */
  lemma {:induction false} HeightIsLongest<N>(t: Tree<N>)
    ensures forall path: seq<bool> :: Along(t, path) ==> |path| < Height(t)
    ensures t.Node? ==> exists path: seq<bool> :: Along(t, path) && |path| + 1 == Height(t)
  {
    match t
    case Leaf =>
    case Node(_, _, _, _, l, r) =>
      HeightIsLongest(l);
      HeightIsLongest(r);
      var left := Height(l) > Height(r);
      var under := if left then l else r;
      if under.Node? {
        var path: seq<bool> :| Along(under, path) && |path| + 1 == Height(under);
        assert ([left] + path)[1..] == path;
        assert Along(t, [left] + path);
      } else {
        assert Along(t, []);
      }
  }

  /** A tree with `n` black nodes on every path has at least 2^n - 1 nodes, and is at most 2n + 1 high. */
  lemma {:induction false} BlacksBound<N>(t: Tree<N>, n: nat)
    requires Blacks(t, n) && NoRedRed(t)
    ensures |Flat(t)| + 1 >= Pow2(n)
    ensures Height(t) <= 2 * n + (if IsRed(t) then 1 else 0)
  {
    match t
    case Leaf =>
    case Node(_, red, _, _, l, r) =>
      BlacksBound(l, if red then n else n - 1);
      BlacksBound(r, if red then n else n - 1);
  }

  /** The height is at most twice the binary logarithm of one more than the number of keys. */
  lemma HeightLogarithmic<N>(t: Tree<N>)
    requires RedBlack(t)
    ensures Pow2(Height(t)) <= (|Contents(t)| + 1) * (|Contents(t)| + 1)
  {
    hide Pow2;
    hide Flat;
    hide NoRedRed;
    hide Blacks;
    hide BlackHeight;
    hide Height;
    hide Sorted;
    hide MapOf;
    var n := BlackHeight(t);
    BlacksBound(t, n);
    MapOfSize(Flat(t));
    Pow2Monotone(Height(t), 2 * n);
    Pow2Add(n, n);
    Square(|Flat(t)| + 1, Pow2(n));
  }

  lemma Square(a: int, b: int)
    requires a >= b >= 0
    ensures a * a >= b * b
  {
  }

  // ---- Insertion -----------------------------------------------------------------------

  function Blacken<N>(t: Tree<N>): Tree<N> {
    match t
    case Leaf => Leaf
    case Node(at, _, k, v, l, r) => Node(at, false, k, v, l, r)
  }

  predicate IsRedPath<N>(p: Path<N>) {
    !p.Top? && p.red
  }

  /** `insert_fixup`: `t` is the red subtree `z` points to, `p` the path above it. */
  function Fix<N>(p: Path<N>, t: Tree<N>): (r: Tree<N>)
    requires t.Node?
    decreases p
  {
    if !IsRedPath(p) || p.up.Top? then Blacken(Plug(p, t))
    else if IsRed(p.up.sibling) then Fix(p.up.up, Recolour(p, t))
    else Blacken(Plug(p.up.up, Rotated(p, t)))
  }

  /** The parent and the uncle turn black and the grandparent red. */
  function Recolour<N>(p: Path<N>, t: Tree<N>): (r: Tree<N>)
    requires !p.Top? && !p.up.Top?
    ensures r.Node? && r.at == p.up.at
  {
    var parent := if p.LeftOf? then Node(p.at, false, p.key, p.value, t, p.sibling)
                  else Node(p.at, false, p.key, p.value, p.sibling, t);
    var g := p.up;
    if g.LeftOf? then Node(g.at, true, g.key, g.value, parent, Blacken(g.sibling))
    else Node(g.at, true, g.key, g.value, Blacken(g.sibling), parent)
  }

  /** The subtree of the grandparent after the rotations at the parent and at the grandparent. */
  function Rotated<N>(p: Path<N>, t: Tree<N>): (r: Tree<N>)
    requires t.Node? && !p.Top? && !p.up.Top?
    ensures r.Node?
  {
    var g := p.up;
    if g.LeftOf? then
      if p.RightOf? then
        Node(t.at, false, t.key, t.value, Node(p.at, p.red, p.key, p.value, p.sibling, t.left),
             Node(g.at, true, g.key, g.value, t.right, g.sibling))
      else
        Node(p.at, false, p.key, p.value, t, Node(g.at, true, g.key, g.value, p.sibling, g.sibling))
    else
      if p.LeftOf? then
        Node(t.at, false, t.key, t.value, Node(g.at, true, g.key, g.value, g.sibling, t.left),
             Node(p.at, p.red, p.key, p.value, t.right, p.sibling))
      else
        Node(p.at, false, p.key, p.value, Node(g.at, true, g.key, g.value, g.sibling, p.sibling), t)
  }

  lemma FlatBlacken<N>(t: Tree<N>)
    ensures Flat(Blacken(t)) == Flat(t)
  {
  }

  lemma FlatRecolour<N>(p: Path<N>, t: Tree<N>)
    requires !p.Top? && !p.up.Top?
    ensures Flat(Plug(p.up.up, Recolour(p, t))) == Flat(Plug(p, t))
  {
    FlatPlug(p, t);
    FlatPlug(p.up.up, Recolour(p, t));
    FlatBlacken(p.up.sibling);
    FlatTwoUp(p, t);
  }

  lemma FlatTwoUp<N>(p: Path<N>, t: Tree<N>)
    requires !p.Top? && !p.up.Top?
    ensures Before(p) + Flat(t) + After(p) == Before(p.up.up) + Around(p.up, Around(p, Flat(t))) + After(p.up.up)
  {
    hide Flat;
    hide Around;
    OneUp(p, Flat(t));
    OneUp(p.up, Around(p, Flat(t)));
  }

  lemma FlatRotated<N>(p: Path<N>, t: Tree<N>)
    requires t.Node? && !p.Top? && !p.up.Top?
    ensures Flat(Plug(p.up.up, Rotated(p, t))) == Flat(Plug(p, t))
  {
    FlatPlug(p, t);
    FlatPlug(p.up.up, Rotated(p, t));
    FlatTwoUp(p, t);
    RotatedBindings(p, t);
  }

  lemma RotatedBindings<N>(p: Path<N>, t: Tree<N>)
    requires t.Node? && !p.Top? && !p.up.Top?
    ensures Flat(Rotated(p, t)) == Around(p.up, Around(p, Flat(t)))
  {
    var x, y, z := Binding(p.key, p.value), Binding(p.up.key, p.up.value), Binding(t.key, t.value);
    if p.up.LeftOf? && p.RightOf? {
      Regroup(Flat(p.sibling), x, Flat(t.left), z, Flat(t.right), y, Flat(p.up.sibling));
    } else if p.RightOf? {
      Regroup(Flat(p.up.sibling), y, Flat(p.sibling), x, Flat(t.left), z, Flat(t.right));
    } else if p.up.RightOf? {
      Regroup(Flat(p.up.sibling), y, Flat(t.left), z, Flat(t.right), x, Flat(p.sibling));
    } else {
      Regroup(Flat(t.left), z, Flat(t.right), x, Flat(p.sibling), y, Flat(p.up.sibling));
    }
  }

  lemma Regroup(a: seq<Binding>, x: Binding, b: seq<Binding>, y: Binding, c: seq<Binding>, z: Binding, d: seq<Binding>)
    ensures (a + [x] + b) + [y] + (c + [z] + d) == (a + [x] + (b + [y] + c)) + [z] + d
    ensures (a + [x] + b) + [y] + (c + [z] + d) == a + [x] + ((b + [y] + c) + [z] + d)
    ensures (a + [x] + b) + [y] + (c + [z] + d) == a + [x] + (b + [y] + (c + [z] + d))
    ensures (a + [x] + b) + [y] + (c + [z] + d) == ((a + [x] + b) + [y] + c) + [z] + d
  {
  }

  /** The repair changes no binding and no order. */
  lemma {:induction false} FixKeepsBindings<N>(p: Path<N>, t: Tree<N>)
    requires t.Node?
    ensures Flat(Fix(p, t)) == Flat(Plug(p, t))
    decreases p
  {
    if !IsRedPath(p) || p.up.Top? {
      FlatBlacken(Plug(p, t));
    } else if IsRed(p.up.sibling) {
      FlatRecolour(p, t);
      FixKeepsBindings(p.up.up, Recolour(p, t));
    } else {
      FlatRotated(p, t);
      FlatBlacken(Plug(p.up.up, Rotated(p, t)));
    }
  }

  // ---- The invariants along a path ----------------------------------------------------

  /** Plugging in a subtree with `n` blacks on every path keeps all paths equal. */
  predicate BlacksUp<N>(p: Path<N>, n: nat) {
    p.Top? || (Blacks(p.sibling, n) && BlacksUp(p.up, if p.red then n else n + 1))
  }

  /** No red node has a red child, with a subtree plugged in whose root is red or not. */
  predicate RedsUp<N>(p: Path<N>, red: bool) {
    p.Top? || (&& NoRedRed(p.sibling) && (p.red ==> (!IsRed(p.sibling) && !red))
               && RedsUp(p.up, p.red))
  }

  /** The root of the whole tree is black, if it is on the path. */
  predicate BlackRoot<N>(p: Path<N>) {
    p.Top? || (if p.up.Top? then !p.red else BlackRoot(p.up))
  }

  function Total<N>(p: Path<N>, n: nat): nat {
    if p.Top? then n else Total(p.up, if p.red then n else n + 1)
  }

  lemma {:induction false} PlugBlacks<N>(p: Path<N>, t: Tree<N>, n: nat)
    requires Blacks(t, n) && BlacksUp(p, n)
    ensures Blacks(Plug(p, t), Total(p, n))
    decreases p
  {
    match p
    case Top =>
    case LeftOf(at, red, k, v, s, up) => PlugBlacks(up, Node(at, red, k, v, t, s), if red then n else n + 1);
    case RightOf(at, red, k, v, s, up) => PlugBlacks(up, Node(at, red, k, v, s, t), if red then n else n + 1);
  }

  lemma {:induction false} PlugReds<N>(p: Path<N>, t: Tree<N>)
    requires NoRedRed(t) && RedsUp(p, IsRed(t))
    ensures NoRedRed(Plug(p, t))
    decreases p
  {
    match p
    case Top =>
    case LeftOf(at, red, k, v, s, up) => PlugReds(up, Node(at, red, k, v, t, s));
    case RightOf(at, red, k, v, s, up) => PlugReds(up, Node(at, red, k, v, s, t));
  }

  lemma {:induction false} PlugNode<N>(p: Path<N>, t: Tree<N>)
    requires t.Node?
    ensures Plug(p, t).Node?
    ensures !p.Top? && BlackRoot(p) ==> !IsRed(Plug(p, t))
    decreases p
  {
    match p
    case Top =>
    case LeftOf(at, red, k, v, s, up) => PlugNode(up, Node(at, red, k, v, t, s));
    case RightOf(at, red, k, v, s, up) => PlugNode(up, Node(at, red, k, v, s, t));
  }

  lemma BlackenRedBlack<N>(t: Tree<N>, n: nat)
    requires NoRedRed(t) && Blacks(t, n)
    ensures NoRedRed(Blacken(t)) && Blacks(Blacken(t), if IsRed(t) then n + 1 else n) && !IsRed(Blacken(t))
  {
  }

  /** What the repair loop relies on: red-black but for the root of `t` under a red parent. */
  predicate Fixable<N>(p: Path<N>, t: Tree<N>, n: nat) {
    IsRed(t) && NoRedRed(t) && Blacks(t, n) && BlacksUp(p, n) && RedsUp(p, false) && BlackRoot(p)
  }

  lemma RecolourFixable<N>(p: Path<N>, t: Tree<N>, n: nat)
    requires Fixable(p, t, n) && IsRedPath(p)
    ensures !p.up.Top?
    ensures IsRed(p.up.sibling) ==> Fixable(p.up.up, Recolour(p, t), n + 1)
  {
    TwoUp(p, n);
    if IsRed(p.up.sibling) {
      BlackenRedBlack(p.up.sibling, n);
      Opened(Recolour(p, t), n + 1);
    }
  }

  /** The parent is red, so the grandparent exists and is black. */
  lemma TwoUp<N>(p: Path<N>, n: nat)
    requires BlacksUp(p, n) && RedsUp(p, false) && BlackRoot(p) && IsRedPath(p)
    ensures !p.up.Top? && !p.up.red && NoRedRed(p.sibling) && !IsRed(p.sibling) && Blacks(p.sibling, n)
    ensures NoRedRed(p.up.sibling) && Blacks(p.up.sibling, n)
    ensures BlacksUp(p.up.up, n + 1) && RedsUp(p.up.up, false) && BlackRoot(p.up.up)
  {
    assert RedsUp(p.up, true) && BlacksUp(p.up, n) && BlackRoot(p.up);
  }

  lemma Opened<N>(t: Tree<N>, n: nat)
    ensures t.Node? ==>
              (Blacks(t, n) <==>
               if t.red then Blacks(t.left, n) && Blacks(t.right, n)
               else n > 0 && Blacks(t.left, n - 1) && Blacks(t.right, n - 1))
  {
  }

  lemma RotatedFixed<N>(p: Path<N>, t: Tree<N>, n: nat)
    requires Fixable(p, t, n) && IsRedPath(p) && !p.up.Top? && !IsRed(p.up.sibling)
    ensures NoRedRed(Rotated(p, t)) && !IsRed(Rotated(p, t))
    ensures Blacks(Rotated(p, t), n + 1) && BlacksUp(p.up.up, n + 1) && RedsUp(p.up.up, false)
  {
    TwoUp(p, n);
    var r := Rotated(p, t);
    Opened(t, n);
    Opened(r.left, n);
    Opened(r.right, n);
  }

  lemma {:induction false} FixRedBlack<N>(p: Path<N>, t: Tree<N>, n: nat)
    requires Fixable(p, t, n)
    ensures !IsRed(Fix(p, t)) && NoRedRed(Fix(p, t)) && Blacks(Fix(p, t), BlackHeight(Fix(p, t)))
    decreases p
  {
    hide Plug;
    if !IsRedPath(p) {
      PlugBlacks(p, t, n);
      ReplaceHole(p, IsRed(t));
      PlugReds(p, t);
      Finish(Plug(p, t), Total(p, n));
    } else {
      RecolourFixable(p, t, n);
      if IsRed(p.up.sibling) {
        FixRedBlack(p.up.up, Recolour(p, t), n + 1);
      } else {
        RotatedFixed(p, t, n);
        PlugBlacks(p.up.up, Rotated(p, t), n + 1);
        PlugReds(p.up.up, Rotated(p, t));
        Finish(Plug(p.up.up, Rotated(p, t)), Total(p.up.up, n + 1));
      }
    }
  }

  lemma ReplaceHole<N>(p: Path<N>, red: bool)
    requires RedsUp(p, false) && !IsRedPath(p)
    ensures RedsUp(p, red)
  {
  }

  lemma Finish<N>(t: Tree<N>, n: nat)
    requires NoRedRed(t) && Blacks(t, n)
    ensures !IsRed(Blacken(t)) && NoRedRed(Blacken(t)) && Blacks(Blacken(t), BlackHeight(Blacken(t)))
  {
    BlackenRedBlack(t, n);
    BlacksUnique(Blacken(t), if IsRed(t) then n + 1 else n);
  }

  // ---- The descent -----------------------------------------------------------------------

  /** Where the descent stops: the path and the subtree below it, a leaf or the node with the key. */
  datatype Spot<N> = Spot(path: Path<N>, found: Tree<N>)

  function Descend<N>(t: Tree<N>, k: string, p: Path<N>): (r: Spot<N>)
  {
    match t
    case Leaf => Spot(p, Leaf)
    case Node(at, red, key, v, l, r) =>
      if Strcmp(k, key) == 0 then Spot(p, t)
      else if Strcmp(k, key) < 0 then Descend(l, k, LeftOf(at, red, key, v, r, p))
      else Descend(r, k, RightOf(at, red, key, v, l, p))
  }

  /** `btreemap_insert`: the new tree and the value returned. */
  function Insert<N>(t: Tree<N>, at: N, k: string, v: Pointer): (r: (Tree<N>, Pointer)) {
    var spot := Descend(t, k, Top);
    match spot.found
    case Node(at', red, key, was, l, r) => (Plug(spot.path, Node(at', red, key, v, l, r)), was)
    case Leaf => (Fix(spot.path, Node(at, true, k, v, Leaf, Leaf)), NULL)
  }

  /** The invariants of a subtree and the path above it. */
  predicate Located<N>(p: Path<N>, t: Tree<N>, k: string, n: nat) {
    && NoRedRed(t) && RedsUp(p, IsRed(t)) && BlackRoot(p) && Blacks(t, n) && BlacksUp(p, n)
    && (p.Top? ==> !IsRed(t))
    && AllBelow(Before(p), k) && AllAbove(After(p), k) && Sorted(Before(p) + Flat(t) + After(p))
  }

  /** The search key lies on one side of a sorted subtree's root. */
  lemma SidesOf(a: seq<Binding>, k: string, v: Pointer, b: seq<Binding>, q: string)
    requires Sorted(a + [Binding(k, v)] + b)
    ensures Less(q, k) ==> AllAbove([Binding(k, v)] + b, q)
    ensures Less(k, q) ==> AllBelow(a + [Binding(k, v)], q)
  {
    hide Less;
    SortedParts(a, k, v, b);
    if Less(q, k) {
      forall i | 0 <= i < |[Binding(k, v)] + b| ensures Less(q, ([Binding(k, v)] + b)[i].key) {
        if i > 0 {
          LessTransitive(q, k, b[i - 1].key);
        }
      }
    }
    if Less(k, q) {
      forall i | 0 <= i < |a + [Binding(k, v)]| ensures Less((a + [Binding(k, v)])[i].key, q) {
        if i < |a| {
          LessTransitive(a[i].key, k, q);
        }
      }
    }
  }

  lemma StepSides(a: seq<Binding>, l: seq<Binding>, k: string, v: Pointer, r: seq<Binding>, b: seq<Binding>, q: string)
    requires Sorted(a + (l + [Binding(k, v)] + r) + b)
    ensures Less(q, k) ==> AllAbove([Binding(k, v)] + r + b, q)
    ensures Less(k, q) ==> AllBelow(a + l + [Binding(k, v)], q)
  {
    hide Less;
    hide Sorted;
    hide AllBelow;
    hide AllAbove;
    SpotBindings(a, l, k, v, r, b);
    SidesOf(a + l, k, v, r + b, q);
    assert [Binding(k, v)] + (r + b) == [Binding(k, v)] + r + b;
  }

  lemma StepLeft<N>(p: Path<N>, t: Tree<N>, k: string, n: nat)
    requires Located(p, t, k, n) && t.Node? && Less(k, t.key)
    ensures Located(LeftOf(t.at, t.red, t.key, t.value, t.right, p), t.left, k, if t.red then n else n - 1)
  {
    hide Less;
    hide Sorted;
    hide AllBelow;
    hide AllAbove;
    var q := LeftOf(t.at, t.red, t.key, t.value, t.right, p);
    OneUp(q, Flat(t.left));
    assert Around(q, Flat(t.left)) == Flat(t);
    StepSides(Before(p), Flat(t.left), t.key, t.value, Flat(t.right), After(p), k);
  }

  lemma StepRight<N>(p: Path<N>, t: Tree<N>, k: string, n: nat)
    requires Located(p, t, k, n) && t.Node? && Less(t.key, k)
    ensures Located(RightOf(t.at, t.red, t.key, t.value, t.left, p), t.right, k, if t.red then n else n - 1)
  {
    hide Less;
    hide Sorted;
    hide AllBelow;
    hide AllAbove;
    var q := RightOf(t.at, t.red, t.key, t.value, t.left, p);
    OneUp(q, Flat(t.right));
    assert Around(q, Flat(t.right)) == Flat(t);
    StepSides(Before(p), Flat(t.left), t.key, t.value, Flat(t.right), After(p), k);
  }

  /** The spot reached keeps the tree and its invariants, and finds the key if it is there. */
  lemma {:induction false} DescendLocated<N>(t: Tree<N>, k: string, p: Path<N>, n: nat)
    requires Located(p, t, k, n)
    ensures var s := Descend(t, k, p);
            && Plug(s.path, s.found) == Plug(p, t)
            && Located(s.path, s.found, k, BlackHeight(s.found))
            && (s.found.Node? ==> s.found.key == k)
    decreases t
  {
    hide Located;
    hide Less;
    match t
    case Leaf => LocatedHeight(p, t, k, n);
    case Node(at, red, key, v, l, r) =>
      LocatedPositive(p, t, k, n);
      StrcmpSigns(k, key);
      assert Less(k, key) <==> Strcmp(k, key) < 0 by { LessMeans(k, key); }
      assert Less(key, k) <==> Strcmp(k, key) > 0 by { LessMeans(key, k); }
      if Strcmp(k, key) == 0 {
        LocatedHeight(p, t, k, n);
      } else if Strcmp(k, key) < 0 {
        StepLeft(p, t, k, n);
        DescendLocated(l, k, LeftOf(at, red, key, v, r, p), if red then n else n - 1);
      } else {
        StepRight(p, t, k, n);
        DescendLocated(r, k, RightOf(at, red, key, v, l, p), if red then n else n - 1);
      }
  }

  lemma LessMeans(a: string, b: string)
    ensures Less(a, b) <==> Strcmp(a, b) < 0
  {
  }

  lemma LocatedHeight<N>(p: Path<N>, t: Tree<N>, k: string, n: nat)
    requires Located(p, t, k, n)
    ensures n == BlackHeight(t)
  {
    BlacksUnique(t, n);
  }

  lemma LocatedPositive<N>(p: Path<N>, t: Tree<N>, k: string, n: nat)
    requires Located(p, t, k, n) && t.Node?
    ensures t.red || n > 0
  {
  }

  lemma StartLocated<N>(t: Tree<N>, k: string)
    requires RedBlack(t)
    ensures Located(Top, t, k, BlackHeight(t))
  {
    assert [] + Flat(t) + [] == Flat(t);
  }

  /** The new node may be repaired: it is red under a possibly red parent. */
  lemma NewFixable<N>(p: Path<N>, at: N, k: string, v: Pointer)
    requires Located(p, Leaf, k, 0)
    ensures Fixable(p, Node(at, true, k, v, Leaf, Leaf), 0)
  {
  }

  /** Contents with a new value at the spot. */
  lemma SpotContents<N>(p: Path<N>, t: Tree<N>, k: string, n: nat, at: N, red: bool, v: Pointer)
    requires Located(p, t, k, n) && (t.Leaf? || t.key == k)
    ensures var (l, r) := if t.Leaf? then (Leaf, Leaf) else (t.left, t.right);
            var t' := Node(at, red, k, v, l, r);
            && Flat(Plug(p, t')) == Before(p) + Flat(l) + [Binding(k, v)] + (Flat(r) + After(p))
            && Sorted(Flat(Plug(p, t')))
            && Contents(Plug(p, t')) == Contents(Plug(p, t))[k := v]
            && (t.Leaf? <==> k !in Contents(Plug(p, t)))
            && (t.Node? ==> Contents(Plug(p, t))[k] == t.value)
  {
    hide Less;
    hide Sorted;
    hide AllBelow;
    hide AllAbove;
    hide MapOf;
    var (l, r) := if t.Leaf? then (Leaf, Leaf) else (t.left, t.right);
    FlatPlug(p, t);
    FlatPlug(p, Node(at, red, k, v, l, r));
    SpotBindings(Before(p), Flat(l), k, v, Flat(r), After(p));
    if t.Leaf? {
      SpotAbsent(Before(p), k, v, After(p));
    } else {
      SpotBindings(Before(p), Flat(l), k, t.value, Flat(r), After(p));
      SpotPresent(Before(p) + Flat(l), k, t.value, v, Flat(r) + After(p));
    }
  }

  lemma SpotBindings(a: seq<Binding>, l: seq<Binding>, k: string, v: Pointer, r: seq<Binding>, b: seq<Binding>)
    ensures a + (l + [Binding(k, v)] + r) + b == (a + l) + [Binding(k, v)] + (r + b)
  {
  }

  lemma SpotAbsent(a: seq<Binding>, k: string, v: Pointer, b: seq<Binding>)
    requires Sorted(a + [] + b) && AllBelow(a, k) && AllAbove(b, k)
    ensures Sorted((a + []) + [Binding(k, v)] + ([] + b))
    ensures MapOf((a + []) + [Binding(k, v)] + ([] + b)) == MapOf(a + [] + b)[k := v]
    ensures k !in MapOf(a + [] + b)
  {
    hide Less;
    hide MapOf;
    hide Sorted;
    assert a + [] == a && [] + b == b;
    SortedParts(a, k, v, b);
    BelowDiffers(a, k);
    BelowDiffers(b, k);
    MapOfMiddle(a, k, v, b);
    MapOfKeys(a + b, k);
  }

  lemma SpotPresent(a: seq<Binding>, k: string, was: Pointer, v: Pointer, b: seq<Binding>)
    requires Sorted(a + [Binding(k, was)] + b)
    ensures Sorted(a + [Binding(k, v)] + b)
    ensures MapOf(a + [Binding(k, v)] + b) == MapOf(a + [Binding(k, was)] + b)[k := v]
    ensures k in MapOf(a + [Binding(k, was)] + b) && MapOf(a + [Binding(k, was)] + b)[k] == was
  {
    hide Less;
    hide MapOf;
    hide Sorted;
    SortedParts(a, k, was, b);
    SortedParts(a, k, v, b);
    BelowDiffers(a, k);
    MapOfMiddle(a, k, was, b);
    MapOfMiddle(a, k, v, b);
  }

  lemma OverwriteRedBlack<N>(p: Path<N>, t: Tree<N>, k: string, v: Pointer)
    requires Located(p, t, k, BlackHeight(t)) && t.Node? && t.key == k
    requires Sorted(Flat(Plug(p, t.(value := v))))
    ensures RedBlack(Plug(p, t.(value := v)))
  {
    hide Sorted;
    hide Flat;
    hide AllBelow;
    hide AllAbove;
    var t' := t.(value := v);
    PlugReds(p, t');
    PlugBlacks(p, t', BlackHeight(t));
    BlacksUnique(Plug(p, t'), Total(p, BlackHeight(t)));
    PlugNode(p, t');
  }

  /** One insertion keeps every invariant, updates the map and returns the old value. */
  lemma InsertCorrect<N>(t: Tree<N>, at: N, k: string, v: Pointer)
    requires RedBlack(t)
    ensures var (t', was) := Insert(t, at, k, v);
            && RedBlack(t')
            && Contents(t') == Contents(t)[k := v]
            && was == Lookup(Contents(t), k)
  {
    hide Located;
    hide Descend;
    hide Fix;
    hide RedBlack;
    hide Flat;
    hide MapOf;
    hide Sorted;
    hide Plug;
    StartLocated(t, k);
    DescendLocated(t, k, Top, BlackHeight(t));
    var s := Descend(t, k, Top);
    PlugTop(t);
    match s.found
    case Node(at', red, key, was, l, r) =>
      SpotContents(s.path, s.found, k, BlackHeight(s.found), at', red, v);
      OverwriteRedBlack(s.path, s.found, k, v);
    case Leaf =>
      var z := Node(at, true, k, v, Leaf, Leaf);
      SpotContents(s.path, s.found, k, BlackHeight(s.found), at, true, v);
      NewFixable(s.path, at, k, v);
      FixRedBlack(s.path, z, 0);
      FixKeepsBindings(s.path, z);
      assert RedBlack(Fix(s.path, z)) by { WholeRedBlack(Fix(s.path, z)); }
  }

  lemma PlugTop<N>(t: Tree<N>)
    ensures Plug(Top, t) == t
  {
  }

  lemma WholeRedBlack<N>(t: Tree<N>)
    requires !IsRed(t) && NoRedRed(t) && Blacks(t, BlackHeight(t)) && Sorted(Flat(t))
    ensures RedBlack(t)
  {
  }

  /** `tree_search` finds what the map binds. */
  lemma SearchCorrect<N>(t: Tree<N>, k: string)
    requires RedBlack(t)
    ensures var s := Descend(t, k, Top);
            && (s.found.Node? <==> k in Contents(t))
            && (s.found.Node? ==> s.found.key == k && Contents(t)[k] == s.found.value)
  {
    hide Located;
    hide Descend;
    hide RedBlack;
    hide Flat;
    hide MapOf;
    hide Sorted;
    hide Plug;
    StartLocated(t, k);
    DescendLocated(t, k, Top, BlackHeight(t));
    var s := Descend(t, k, Top);
    PlugTop(t);
    if s.found.Node? {
      SpotContents(s.path, s.found, k, BlackHeight(s.found), s.found.at, s.found.red, NULL);
    } else {
      EmptySpot(s.path, s.found, k);
    }
  }

  lemma EmptySpot<N>(p: Path<N>, t: Tree<N>, k: string)
    requires Located(p, t, k, BlackHeight(t)) && t.Leaf?
    ensures k !in Contents(Plug(p, t))
  {
    hide Sorted;
    hide AllBelow;
    hide AllAbove;
    hide MapOf;
    FlatPlug(p, t);
    SpotAbsent(Before(p), k, NULL, After(p));
  }

  // ---- Runs --------------------------------------------------------------------------------

  datatype Insertion<N> = Insertion(at: N, key: string, value: Pointer)

  function InsertAll<N>(t: Tree<N>, ops: seq<Insertion<N>>): Tree<N>
    decreases |ops|
  {
    if ops == [] then t else InsertAll(Insert(t, ops[0].at, ops[0].key, ops[0].value).0, ops[1..])
  }

  function UpdateAll<N>(m: map<string, Pointer>, ops: seq<Insertion<N>>): map<string, Pointer>
    decreases |ops|
  {
    if ops == [] then m else UpdateAll(m[ops[0].key := ops[0].value], ops[1..])
  }

  /** After every sequence of insertions into an empty tree: search order, black root, no red node
      with a red child, equal black heights, logarithmic height, and the contents of the map. */
  lemma EveryRun<N>(ops: seq<Insertion<N>>)
    ensures var t := InsertAll(Leaf, ops);
            && RedBlack(t) && Contents(t) == UpdateAll(map[], ops)
            && Pow2(Height(t)) <= (|UpdateAll(map[], ops)| + 1) * (|UpdateAll(map[], ops)| + 1)
  {
    hide RedBlack;
    hide Contents;
    EmptyRedBlack<N>();
    RunFrom(Leaf, ops);
    HeightLogarithmic(InsertAll(Leaf, ops));
  }

  lemma EmptyRedBlack<N>()
    ensures RedBlack<N>(Leaf) && Contents<N>(Leaf) == map[]
  {
  }

  lemma {:induction false} RunFrom<N>(t: Tree<N>, ops: seq<Insertion<N>>)
    requires RedBlack(t)
    ensures RedBlack(InsertAll(t, ops)) && Contents(InsertAll(t, ops)) == UpdateAll(Contents(t), ops)
    decreases |ops|
  {
    hide RedBlack;
    hide Contents;
    hide Insert;
    if ops != [] {
      InsertCorrect(t, ops[0].at, ops[0].key, ops[0].value);
      RunFrom(Insert(t, ops[0].at, ops[0].key, ops[0].value).0, ops[1..]);
    }
  }
}
