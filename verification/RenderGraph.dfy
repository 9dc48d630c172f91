/** The order in which nodes are rendered (engine/engine_core.c), on the graph as a value: who is in
    the plan, once each, and every source before its user. */
module RenderGraph {
  import opened Nodes

  /** A node as the plan sees it; `inputs` are the connected sources in slot order. */
  datatype Vertex = Vertex(live: bool, renderable: bool, inputs: seq<Node>, mix: seq<Node>)

  type Graph = map<Node, Vertex>

  /** Ranks that fall along every input and mix edge: the graph has no cycle. */
  type Ranks = map<Node, nat>

  predicate EdgeDown(g: Graph, rank: Ranks, n: Node, c: Node) {
    c in g && n in rank && c in rank && rank[c] < rank[n]
  }

  predicate Ranked(g: Graph, rank: Ranks) {
    && g.Keys <= rank.Keys
    && (forall n, k :: n in g && 0 <= k < |g[n].inputs| ==> EdgeDown(g, rank, n, g[n].inputs[k]))
    && (forall n, k :: n in g && 0 <= k < |g[n].mix| ==> EdgeDown(g, rank, n, g[n].mix[k]))
  }

  predicate AllBelow(g: Graph, rank: Ranks, bound: nat, ns: seq<Node>) {
    forall k :: 0 <= k < |ns| ==> ns[k] in g && ns[k] in rank && rank[ns[k]] < bound
  }

  lemma ChildrenBelow(g: Graph, rank: Ranks, n: Node)
    requires Ranked(g, rank) && n in g
    ensures n in rank && AllBelow(g, rank, rank[n], g[n].inputs) && AllBelow(g, rank, rank[n], g[n].mix)
  {
    forall k | 0 <= k < |g[n].inputs| ensures rank[g[n].inputs[k]] < rank[n] {
      assert EdgeDown(g, rank, n, g[n].inputs[k]);
    }
    forall k | 0 <= k < |g[n].mix| ensures rank[g[n].mix[k]] < rank[n] {
      assert EdgeDown(g, rank, n, g[n].mix[k]);
    }
  }

  // ---- Building the plan ----------------------------------------------------------------

  /** `render_plan_add_node`: the plan after it. */
  function Visit(g: Graph, rank: Ranks, plan: seq<Node>, n: Node): (r: seq<Node>)
    requires Ranked(g, rank) && n in g
    decreases rank[n], 1, 0
  {
    if !g[n].live || n in plan then plan
    else
      ChildrenBelow(g, rank, n);
      var sources := VisitAll(g, rank, rank[n], VisitAll(g, rank, rank[n], plan, g[n].inputs), g[n].mix);
      if g[n].renderable then sources + [n] else sources
  }

  function VisitAll(g: Graph, rank: Ranks, bound: nat, plan: seq<Node>, ns: seq<Node>): (r: seq<Node>)
    requires Ranked(g, rank) && AllBelow(g, rank, bound, ns)
    decreases bound, 0, |ns|
  {
    if ns == [] then plan else VisitAll(g, rank, bound, Visit(g, rank, plan, ns[0]), ns[1..])
  }

  // ---- What is reached ---------------------------------------------------------------------

  /** The live nodes reached from `n` through live nodes. */
  function Cone(g: Graph, rank: Ranks, n: Node): (r: set<Node>)
    requires Ranked(g, rank) && n in g
    decreases rank[n], 1, 0
  {
    if !g[n].live then {}
    else
      ChildrenBelow(g, rank, n);
      {n} + ConeAll(g, rank, rank[n], g[n].inputs) + ConeAll(g, rank, rank[n], g[n].mix)
  }

  function ConeAll(g: Graph, rank: Ranks, bound: nat, ns: seq<Node>): (r: set<Node>)
    requires Ranked(g, rank) && AllBelow(g, rank, bound, ns)
    decreases bound, 0, |ns|
  {
    if ns == [] then {} else Cone(g, rank, ns[0]) + ConeAll(g, rank, bound, ns[1..])
  }

  lemma {:induction false} ConeRanks(g: Graph, rank: Ranks, n: Node, m: Node)
    requires Ranked(g, rank) && n in g && m in Cone(g, rank, n)
    ensures m in g && g[m].live && rank[m] <= rank[n] && (m != n ==> rank[m] < rank[n])
    decreases rank[n], 1, 0
  {
    hide Ranked;
    ChildrenBelow(g, rank, n);
    if m != n {
      if m in ConeAll(g, rank, rank[n], g[n].inputs) {
        ConeAllRanks(g, rank, rank[n], g[n].inputs, m);
      } else {
        ConeAllRanks(g, rank, rank[n], g[n].mix, m);
      }
    }
  }

  lemma {:induction false} ConeAllRanks(g: Graph, rank: Ranks, bound: nat, ns: seq<Node>, m: Node)
    requires Ranked(g, rank) && AllBelow(g, rank, bound, ns) && m in ConeAll(g, rank, bound, ns)
    ensures m in g && m in rank && g[m].live && rank[m] < bound
    decreases bound, 0, |ns|
  {
    hide Ranked;
    if m in Cone(g, rank, ns[0]) {
      ConeRanks(g, rank, ns[0], m);
      InRanks(g, rank, m);
    } else {
      ConeAllRanks(g, rank, bound, ns[1..], m);
    }
  }

  lemma InRanks(g: Graph, rank: Ranks, m: Node)
    requires Ranked(g, rank) && m in g
    ensures m in rank
  {
  }

  /** What the plan must hold for `s`: the renderable nodes among them. */
  predicate Covers(g: Graph, plan: seq<Node>, s: set<Node>) {
    forall m :: m in s && m in g && g[m].renderable ==> m in plan
  }

  predicate NoRepeats(plan: seq<Node>) {
    forall i, j :: 0 <= i < j < |plan| ==> plan[i] != plan[j]
  }

  /** The plan so far: no node twice, each live and renderable, and everything a node needs is not after it. */
  predicate Good(g: Graph, rank: Ranks, plan: seq<Node>)
    requires Ranked(g, rank)
  {
    && NoRepeats(plan)
    && (forall i :: 0 <= i < |plan| ==> plan[i] in g && g[plan[i]].live && g[plan[i]].renderable)
    && (forall i :: 0 <= i < |plan| && plan[i] in g ==> Covers(g, plan[..i + 1], Cone(g, rank, plan[i])))
  }

  /** From `plan` to `r`: `r` goes on after `plan` with exactly the renderable nodes of `s`. */
  predicate Extends(g: Graph, plan: seq<Node>, r: seq<Node>, s: set<Node>) {
    && plan <= r && Covers(g, r, s)
    && (forall m :: m in r ==> m in plan || (m in s && m in g && g[m].renderable))
  }

  lemma ExtendsTwice(g: Graph, a: seq<Node>, b: seq<Node>, c: seq<Node>, s: set<Node>, t: set<Node>)
    requires Extends(g, a, b, s) && Extends(g, b, c, t)
    ensures Extends(g, a, c, s + t)
  {
    assert forall m :: m in b ==> m in c;
  }

  lemma {:induction false} VisitExtends(g: Graph, rank: Ranks, plan: seq<Node>, n: Node)
    requires Ranked(g, rank) && n in g && Good(g, rank, plan)
    ensures var r := Visit(g, rank, plan, n); Good(g, rank, r) && Extends(g, plan, r, Cone(g, rank, n))
    decreases rank[n], 1, 0
  {
    hide Ranked;
    hide Good;
    hide Extends;
    if !g[n].live || n in plan {
      if n in plan {
        AlreadyIn(g, rank, plan, n);
      } else {
        ExtendsSelf(g, plan, {});
      }
    } else {
      ChildrenBelow(g, rank, n);
      var (i, x) := (ConeAll(g, rank, rank[n], g[n].inputs), ConeAll(g, rank, rank[n], g[n].mix));
      var p1 := VisitAll(g, rank, rank[n], plan, g[n].inputs);
      VisitAllExtends(g, rank, rank[n], plan, g[n].inputs);
      var p2 := VisitAll(g, rank, rank[n], p1, g[n].mix);
      VisitAllExtends(g, rank, rank[n], p1, g[n].mix);
      ExtendsTwice(g, plan, p1, p2, i, x);
      NotYetIn(g, rank, plan, p2, n);
      if g[n].renderable {
        AddLast(g, rank, plan, p2, n, i + x);
      } else {
        ExtendsMore(g, plan, p2, i + x, n);
      }
      assert {n} + i + x == i + x + {n};
    }
  }

  lemma {:induction false} VisitAllExtends(g: Graph, rank: Ranks, bound: nat, plan: seq<Node>, ns: seq<Node>)
    requires Ranked(g, rank) && AllBelow(g, rank, bound, ns) && Good(g, rank, plan)
    ensures var r := VisitAll(g, rank, bound, plan, ns);
            Good(g, rank, r) && Extends(g, plan, r, ConeAll(g, rank, bound, ns))
    decreases bound, 0, |ns|
  {
    hide Ranked;
    hide Good;
    hide Extends;
    if ns == [] {
      ExtendsSelf(g, plan, {});
    } else {
      var p := Visit(g, rank, plan, ns[0]);
      VisitExtends(g, rank, plan, ns[0]);
      VisitAllExtends(g, rank, bound, p, ns[1..]);
      ExtendsTwice(g, plan, p, VisitAll(g, rank, bound, p, ns[1..]), Cone(g, rank, ns[0]),
                   ConeAll(g, rank, bound, ns[1..]));
    }
  }

  lemma ExtendsSelf(g: Graph, plan: seq<Node>, s: set<Node>)
    requires Covers(g, plan, s)
    ensures Extends(g, plan, plan, s)
  {
  }

  /** A node in the plan brought everything it needs. */
  lemma AlreadyIn(g: Graph, rank: Ranks, plan: seq<Node>, n: Node)
    requires Ranked(g, rank) && Good(g, rank, plan) && n in plan && n in g
    ensures Extends(g, plan, plan, Cone(g, rank, n))
  {
    hide Ranked;
    hide Cone;
    var i :| 0 <= i < |plan| && plan[i] == n;
    assert Covers(g, plan[..i + 1], Cone(g, rank, n));
    forall m | m in Cone(g, rank, n) && m in g && g[m].renderable ensures m in plan {
      assert m in plan[..i + 1];
    }
  }

  /** A node is not among what it needs. */
  lemma NotYetIn(g: Graph, rank: Ranks, plan: seq<Node>, p: seq<Node>, n: Node)
    requires Ranked(g, rank) && n in g && n !in plan && AllBelow(g, rank, rank[n], g[n].inputs)
    requires AllBelow(g, rank, rank[n], g[n].mix)
    requires Extends(g, plan, p, ConeAll(g, rank, rank[n], g[n].inputs) + ConeAll(g, rank, rank[n], g[n].mix))
    ensures n !in p
  {
    hide Ranked;
    hide ConeAll;
    InRanks(g, rank, n);
    if n in ConeAll(g, rank, rank[n], g[n].inputs) {
      ConeAllRanks(g, rank, rank[n], g[n].inputs, n);
    }
    if n in ConeAll(g, rank, rank[n], g[n].mix) {
      ConeAllRanks(g, rank, rank[n], g[n].mix, n);
    }
  }

  lemma AddLast(g: Graph, rank: Ranks, plan: seq<Node>, p: seq<Node>, n: Node, s: set<Node>)
    requires Ranked(g, rank) && Good(g, rank, p) && n in g && g[n].live && g[n].renderable && n !in p
    requires Extends(g, plan, p, s) && Cone(g, rank, n) == s + {n}
    ensures Good(g, rank, p + [n]) && Extends(g, plan, p + [n], s + {n})
  {
    hide Ranked;
    hide Cone;
    hide Covers;
    hide Extends;
    var r := p + [n];
    assert r[|p|] == n;
    ExtendsLast(g, plan, p, n, s);
    forall i | 0 <= i < |r| ensures r[i] in g && Covers(g, r[..i + 1], Cone(g, rank, r[i])) {
      if i < |p| {
        assert r[i] == p[i];
        assert r[..i + 1] == p[..i + 1];
      } else {
        assert r[..i + 1] == r;
      }
    }
  }

  lemma ExtendsLast(g: Graph, plan: seq<Node>, p: seq<Node>, n: Node, s: set<Node>)
    requires Extends(g, plan, p, s) && n in g && g[n].renderable
    ensures Extends(g, plan, p + [n], s + {n}) && Covers(g, p + [n], s + {n})
  {
  }

  lemma ExtendsMore(g: Graph, plan: seq<Node>, p: seq<Node>, s: set<Node>, n: Node)
    requires Extends(g, plan, p, s) && n in g && !g[n].renderable
    ensures Extends(g, plan, p, s + {n})
  {
  }

  // ---- The whole plan -------------------------------------------------------------------------

  /** `render_plan_build` over the node list. */
  function Build(g: Graph, rank: Ranks, plan: seq<Node>, list: seq<Node>): (r: seq<Node>)
    requires Ranked(g, rank) && forall k :: 0 <= k < |list| ==> list[k] in g
    decreases |list|
  {
    if list == [] then plan else Build(g, rank, Visit(g, rank, plan, list[0]), list[1..])
  }

  function Reached(g: Graph, rank: Ranks, list: seq<Node>): (r: set<Node>)
    requires Ranked(g, rank) && forall k :: 0 <= k < |list| ==> list[k] in g
  {
    if list == [] then {} else Cone(g, rank, list[0]) + Reached(g, rank, list[1..])
  }

  lemma {:induction false} BuildExtends(g: Graph, rank: Ranks, plan: seq<Node>, list: seq<Node>)
    requires Ranked(g, rank) && Good(g, rank, plan) && forall k :: 0 <= k < |list| ==> list[k] in g
    ensures var r := Build(g, rank, plan, list);
            Good(g, rank, r) && Extends(g, plan, r, Reached(g, rank, list))
    decreases |list|
  {
    hide Ranked;
    hide Good;
    hide Extends;
    hide Cone;
    if list == [] {
      ExtendsSelf(g, plan, {});
    } else {
      var p := Visit(g, rank, plan, list[0]);
      VisitExtends(g, rank, plan, list[0]);
      BuildExtends(g, rank, p, list[1..]);
      ExtendsTwice(g, plan, p, Build(g, rank, p, list[1..]), Cone(g, rank, list[0]), Reached(g, rank, list[1..]));
    }
  }

  /** The plan holds exactly the renderable live nodes reached from the list through live nodes, each
      once, and every live renderable node that a node needs, directly or through others, is before it. */
  lemma PlanIsTopological(g: Graph, rank: Ranks, list: seq<Node>)
    requires Ranked(g, rank) && forall k :: 0 <= k < |list| ==> list[k] in g
    ensures var r := Build(g, rank, [], list);
            && NoRepeats(r)
            && (forall m :: m in r <==> m in Reached(g, rank, list) && m in g && g[m].renderable)
            && (forall i, m :: (0 <= i < |r| && r[i] in g && m in Cone(g, rank, r[i]) && m != r[i]
                                && m in g && g[m].renderable) ==> m in r[..i])
  {
    hide Ranked;
    hide Cone;
    hide Reached;
    BuildExtends(g, rank, [], list);
    var r := Build(g, rank, [], list);
    forall i, m | 0 <= i < |r| && r[i] in g && m in Cone(g, rank, r[i]) && m != r[i] && m in g && g[m].renderable
      ensures m in r[..i]
    {
      assert Covers(g, r[..i + 1], Cone(g, rank, r[i]));
      assert r[..i + 1] == r[..i] + [r[i]];
    }
  }

  /** In particular the live renderable sources connected to a node come before it. */
  lemma SourcesFirst(g: Graph, rank: Ranks, list: seq<Node>, i: nat, c: Node)
    requires Ranked(g, rank) && forall k :: 0 <= k < |list| ==> list[k] in g
    requires i < |Build(g, rank, [], list)|
    requires var n := Build(g, rank, [], list)[i];
             n in g && (c in g[n].inputs || c in g[n].mix) && c in g && g[c].live && g[c].renderable
    ensures c in Build(g, rank, [], list)[..i]
  {
    hide Reached;
    hide Good;
    var r := Build(g, rank, [], list);
    PlanIsTopological(g, rank, list);
    NothingGood(g, rank);
    BuildExtends(g, rank, [], list);
    LiveInPlan(g, rank, r, i);
    var n := r[i];
    ChildrenBelow(g, rank, n);
    if c in g[n].inputs {
      ConeOfOne(g, rank, rank[n], g[n].inputs, c);
    } else {
      ConeOfOne(g, rank, rank[n], g[n].mix, c);
    }
  }

  lemma NothingGood(g: Graph, rank: Ranks)
    requires Ranked(g, rank)
    ensures Good(g, rank, [])
  {
  }

  lemma LiveInPlan(g: Graph, rank: Ranks, plan: seq<Node>, i: nat)
    requires Ranked(g, rank) && Good(g, rank, plan) && i < |plan|
    ensures plan[i] in g && g[plan[i]].live
  {
  }

  lemma {:induction false} ConeOfOne(g: Graph, rank: Ranks, bound: nat, ns: seq<Node>, c: Node)
    requires Ranked(g, rank) && AllBelow(g, rank, bound, ns) && c in ns && c in g && g[c].live
    ensures c in ConeAll(g, rank, bound, ns) && rank[c] < bound
    decreases |ns|
  {
    if c != ns[0] {
      ConeOfOne(g, rank, bound, ns[1..], c);
    }
  }

  /** The cone is reachability: a live child of a node in it is in it. */
  lemma {:induction false} ConeClosed(g: Graph, rank: Ranks, n: Node, m: Node, c: Node)
    requires Ranked(g, rank) && n in g && m in Cone(g, rank, n) && m in g
    requires c in g && g[c].live && (c in g[m].inputs || c in g[m].mix)
    ensures c in Cone(g, rank, n)
    decreases rank[n], 1, 0
  {
    hide Ranked;
    ChildrenBelow(g, rank, n);
    if m == n {
      if c in g[n].inputs {
        ConeOfOne(g, rank, rank[n], g[n].inputs, c);
      } else {
        ConeOfOne(g, rank, rank[n], g[n].mix, c);
      }
    } else if m in ConeAll(g, rank, rank[n], g[n].inputs) {
      ConeAllClosed(g, rank, rank[n], g[n].inputs, m, c);
    } else {
      ConeAllClosed(g, rank, rank[n], g[n].mix, m, c);
    }
  }

  lemma {:induction false} ConeAllClosed(g: Graph, rank: Ranks, bound: nat, ns: seq<Node>, m: Node, c: Node)
    requires Ranked(g, rank) && AllBelow(g, rank, bound, ns) && m in ConeAll(g, rank, bound, ns) && m in g
    requires c in g && g[c].live && (c in g[m].inputs || c in g[m].mix)
    ensures c in ConeAll(g, rank, bound, ns)
    decreases bound, 0, |ns|
  {
    hide Ranked;
    if m in Cone(g, rank, ns[0]) {
      ConeClosed(g, rank, ns[0], m, c);
    } else {
      ConeAllClosed(g, rank, bound, ns[1..], m, c);
    }
  }

  // ---- Mix lists -----------------------------------------------------------------------------------

  /** A mix list without its finished sources. */
  function LiveOnly(g: Graph, ns: seq<Node>): (r: seq<Node>)
    ensures |r| <= |ns|
  {
    if ns == [] then []
    else (if ns[0] in g && g[ns[0]].live then [ns[0]] else []) + LiveOnly(g, ns[1..])
  }

  /** The mix lists of the nodes in `s` pruned. */
  function Prune(g: Graph, mixes: map<Node, seq<Node>>, s: set<Node>): (r: map<Node, seq<Node>>)
    ensures r.Keys == mixes.Keys
  {
    map m | m in mixes :: if m in s && m in g then LiveOnly(g, g[m].mix) else mixes[m]
  }

  lemma PruneTwice(g: Graph, mixes: map<Node, seq<Node>>, s: set<Node>, t: set<Node>)
    ensures Prune(g, Prune(g, mixes, s), t) == Prune(g, mixes, s + t)
  {
  }

  /** Finished sources add nothing to the plan. */
  lemma {:induction false} VisitLiveOnly(g: Graph, rank: Ranks, bound: nat, plan: seq<Node>, ns: seq<Node>)
    requires Ranked(g, rank) && AllBelow(g, rank, bound, ns)
    ensures AllBelow(g, rank, bound, LiveOnly(g, ns))
    ensures VisitAll(g, rank, bound, plan, LiveOnly(g, ns)) == VisitAll(g, rank, bound, plan, ns)
    ensures ConeAll(g, rank, bound, LiveOnly(g, ns)) == ConeAll(g, rank, bound, ns)
    decreases |ns|
  {
    hide Ranked;
    if ns != [] {
      VisitLiveOnly(g, rank, bound, Visit(g, rank, plan, ns[0]), ns[1..]);
      if ns[0] in g && g[ns[0]].live {
        assert ([ns[0]] + LiveOnly(g, ns[1..]))[1..] == LiveOnly(g, ns[1..]);
      } else {
        assert [] + LiveOnly(g, ns[1..]) == LiveOnly(g, ns[1..]);
      }
    }
  }

  lemma {:induction false} LiveOnlyTwice(g: Graph, ns: seq<Node>)
    ensures LiveOnly(g, LiveOnly(g, ns)) == LiveOnly(g, ns)
    decreases |ns|
  {
    if ns != [] {
      LiveOnlyTwice(g, ns[1..]);
      if ns[0] in g && g[ns[0]].live {
        assert ([ns[0]] + LiveOnly(g, ns[1..]))[1..] == LiveOnly(g, ns[1..]);
      } else {
        assert [] + LiveOnly(g, ns[1..]) == LiveOnly(g, ns[1..]);
      }
    }
  }

  /** What a node of the cone needs is in the cone. */
  lemma {:induction false} ConeTransitive(g: Graph, rank: Ranks, n: Node, m: Node)
    requires Ranked(g, rank) && n in g && m in Cone(g, rank, n) && m in g
    ensures Cone(g, rank, m) <= Cone(g, rank, n)
    decreases rank[n], 1, 0
  {
    hide Ranked;
    ChildrenBelow(g, rank, n);
    if m == n {
    } else if m in ConeAll(g, rank, rank[n], g[n].inputs) {
      ConeAllTransitive(g, rank, rank[n], g[n].inputs, m);
    } else {
      ConeAllTransitive(g, rank, rank[n], g[n].mix, m);
    }
  }

  lemma {:induction false} ConeAllTransitive(g: Graph, rank: Ranks, bound: nat, ns: seq<Node>, m: Node)
    requires Ranked(g, rank) && AllBelow(g, rank, bound, ns) && m in ConeAll(g, rank, bound, ns) && m in g
    ensures Cone(g, rank, m) <= ConeAll(g, rank, bound, ns)
    decreases bound, 0, |ns|
  {
    hide Ranked;
    if m in Cone(g, rank, ns[0]) {
      ConeTransitive(g, rank, ns[0], m);
    } else {
      ConeAllTransitive(g, rank, bound, ns[1..], m);
    }
  }
}
