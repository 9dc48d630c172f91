/** Building the render plan (engine/engine_core.c): the plan's array grows, mix lists are pruned while
    they are walked. `RenderGraph` says what the plan is, `MixLists` what the links mean. */
module RenderPlan {
  import opened Nodes
  import opened NodeList
  import opened RenderGraph
  import opened MixLists

  datatype RenderOp = RenderOp(node: Node?, inputs: seq<Node?>)

  /** `AudioRenderPlan`: an array of operations that doubles; the ghost `plan` lists their nodes. */
  class AudioRenderPlan {
    var ops: array<RenderOp>
    var len: nat
    var builtGeneration: nat
    ghost var plan: seq<Node>

    ghost predicate Valid()
      reads this`ops, this`len, this`plan, ops
    {
      len == |plan| <= ops.Length && forall i :: 0 <= i < len ==> ops[i].node == plan[i]
    }

    constructor ()
      ensures Valid() && plan == [] && fresh(ops)
    {
      ops := new RenderOp[0];
      len, builtGeneration, plan := 0, 0, [];
    }

    /** `plan->len = 0` */
    method Clear()
      requires Valid()
      modifies this`len, this`plan
      ensures Valid() && plan == [] && len == 0
    {
      len, plan := 0, [];
    }

    /** `render_plan_reserve` */
    method Reserve(needed: nat)
      requires Valid() && needed > 0
      modifies this`ops
      ensures Valid() && needed <= ops.Length && (ops == old(ops) || fresh(ops))
      ensures forall i :: 0 <= i < len ==> ops[i] == old(ops[i])
    {
      if needed <= ops.Length {
        return;
      }
      var capacity := if ops.Length > 0 then ops.Length else 16;
      while capacity < needed
        invariant capacity > 0
        decreases needed - capacity
      {
        capacity := capacity * 2;
      }
      var bigger := new RenderOp[capacity];
      for i := 0 to len
        invariant ops == old(ops) && Valid() && bigger.Length >= needed && bigger.Length >= ops.Length
        invariant forall j :: 0 <= j < i ==> bigger[j] == ops[j]
      {
        bigger[i] := ops[i];
      }
      ops := bigger;
    }

    /** `render_plan_contains` */
    method Contains(node: Node) returns (r: bool)
      requires Valid()
      ensures r <==> node in plan
    {
      for i := 0 to len
        invariant node !in plan[..i]
      {
        if ops[i].node == node {
          assert plan[i] == node;
          return true;
        }
        assert plan[..i + 1] == plan[..i] + [plan[i]];
      }
      assert plan[..len] == plan;
      r := false;
    }

    /** The end of `render_plan_add_node`: one more operation. */
    method Append(node: Node, inputs: seq<Node?>)
      requires Valid()
      modifies this, ops
      ensures Valid() && plan == old(plan) + [node] && (ops == old(ops) || fresh(ops))
      ensures ops[len - 1] == RenderOp(node, inputs)
      ensures forall i :: 0 <= i < old(len) ==> ops[i] == old(ops[i])
    {
      Reserve(len + 1);
      ops[len] := RenderOp(node, inputs);
      len := len + 1;
      plan := plan + [node];
    }
  }

  // ---- What the plan reads of the nodes ------------------------------------------------------

  /** The connected slots of a node. */
  function Slots(n: Node): (r: seq<Node?>)
    reads n`numInputs, n`connections
  {
    n.connections[..if n.numInputs < MAX_INPUTS then n.numInputs else MAX_INPUTS]
  }

  function NonNull(xs: seq<Node?>): (r: seq<Node>) {
    if xs == [] then [] else (if xs[0] == null then [] else [xs[0]]) + NonNull(xs[1..])
  }

  predicate IsRenderable(n: Node)
    reads n`writeToOutput, n`hasBus
  {
    n.performs || n.writeToOutput || n.hasBus
  }

  /** The node is not finished, and it has a `frame_perform`, writes to the output or to a bus. */
  predicate Renders(n: Node)
    reads n`trigEnd, n`writeToOutput, n`hasBus
  {
    !n.trigEnd && (n.performs || n.writeToOutput || n.hasBus)
  }

  /** The plan of the node list, on the fields of the nodes. */
  lemma PlanOnFields(g: Graph, rank: Ranks, nodes: set<Node>, list: seq<Node>)
    requires Ranked(g, rank) && Seen(g, nodes) && forall k :: 0 <= k < |list| ==> list[k] in g
    ensures var plan := Build(g, rank, [], list);
            && (forall i :: 0 <= i < |plan| ==> plan[i] in nodes && Renders(plan[i]))
            && (forall i, j :: 0 <= i < j < |plan| ==> plan[i] != plan[j])
            && (forall n :: n in list && n in nodes && Renders(n) ==> n in plan)
            && forall i, j :: 0 <= i < |plan| && plan[i] in nodes && 0 <= j < plan[i].numInputs && j < MAX_INPUTS ==>
                 var source := plan[i].connections[j];
                 source != null && source in nodes && Renders(source) ==> source in plan[..i]
  {
    hide Ranked;
    hide Build;
    hide Good;
    hide Cone;
    hide Covers;
    PlanIsTopological(g, rank, list);
    NothingGood(g, rank);
    BuildExtends(g, rank, [], list);
    var plan := Build(g, rank, [], list);
    forall i | 0 <= i < |plan| ensures plan[i] in nodes && Renders(plan[i]) {
      LiveInPlan(g, rank, plan, i);
      assert plan[i] in plan;
    }
    forall n | n in list && n in nodes && Renders(n) ensures n in plan {
      var k :| 0 <= k < |list| && list[k] == n;
      ListReached(g, rank, list, k);
    }
    forall i, j | 0 <= i < |plan| && 0 <= j < plan[i].numInputs && j < MAX_INPUTS && plan[i].connections[j] != null
                  && plan[i].connections[j] in nodes && Renders(plan[i].connections[j])
      ensures plan[i].connections[j] in plan[..i]
    {
      SlotIsInput(plan[i], j);
      SourcesFirst(g, rank, list, i, plan[i].connections[j]);
    }
  }

  lemma {:induction false} ListReached(g: Graph, rank: Ranks, list: seq<Node>, k: nat)
    requires Ranked(g, rank) && (forall i :: 0 <= i < |list| ==> list[i] in g) && k < |list| && g[list[k]].live
    ensures list[k] in Reached(g, rank, list)
    decreases |list|
  {
    hide Ranked;
    if k > 0 {
      ListReached(g, rank, list[1..], k - 1);
    }
  }

  /** A connected slot is among the inputs. */
  lemma SlotIsInput(n: Node, j: nat)
    requires j < n.numInputs && j < MAX_INPUTS && n.connections[j] != null
    ensures n.connections[j] in NonNull(Slots(n))
  {
    assert Slots(n)[j] == n.connections[j];
    InNonNull(Slots(n), j);
  }

  lemma {:induction false} InNonNull(xs: seq<Node?>, j: nat)
    requires j < |xs| && xs[j] != null
    ensures xs[j] in NonNull(xs)
    decreases |xs|
  {
    if j > 0 {
      InNonNull(xs[1..], j - 1);
    }
  }

  /** `g` is what the nodes say, the mix lists apart. */
  ghost predicate Seen(g: Graph, nodes: set<Node>)
    reads nodes`trigEnd, nodes`writeToOutput, nodes`hasBus, nodes`numInputs, nodes`connections
  {
    g.Keys == nodes && forall n :: n in nodes ==>
      g[n].live == !n.trigEnd && g[n].renderable == IsRenderable(n) && g[n].inputs == NonNull(Slots(n))
  }

  ghost function LinksOf(nodes: set<Node>): (s: map<Node, Links>)
    reads nodes`mixHead, nodes`mixNext
    ensures s.Keys == nodes
  {
    map n | n in nodes :: Links(n.mixHead, n.mixNext)
  }

  /** The mix lists of the nodes in `done` are pruned already. */
  predicate Pruned(g: Graph, mixes: Chains, done: set<Node>) {
    forall m :: m in done ==> m in g && m in mixes && mixes[m] == LiveOnly(g, g[m].mix)
  }

  /** Every mix list below `bound` is the one of the graph, or that pruned. */
  predicate Faithful(g: Graph, rank: Ranks, mixes: Chains, bound: nat) {
    && mixes.Keys == g.Keys
    && forall m :: m in g && m in rank && rank[m] < bound ==> mixes[m] == g[m].mix || mixes[m] == LiveOnly(g, g[m].mix)
  }

  /** What the nodes of the plan need has been visited. */
  predicate Reaching(g: Graph, rank: Ranks, plan: seq<Node>, done: set<Node>)
    requires Ranked(g, rank)
  {
    forall i :: 0 <= i < |plan| ==> plan[i] in g && Cone(g, rank, plan[i]) <= done
  }

  /** The state in the middle of building, against the graph as it was. */
  ghost predicate Midway(g: Graph, rank: Ranks, plan: seq<Node>, mixes: Chains, done: set<Node>, bound: nat) {
    && Ranked(g, rank) && Good(g, rank, plan) && Faithful(g, rank, mixes, bound)
    && Pruned(g, mixes, done) && Reaching(g, rank, plan, done)
  }

  lemma MidwayRanked(g: Graph, rank: Ranks, plan: seq<Node>, mixes: Chains, done: set<Node>, bound: nat)
    requires Midway(g, rank, plan, mixes, done, bound)
    ensures Ranked(g, rank) && Good(g, rank, plan) && mixes.Keys == g.Keys
  {
  }

  lemma MidwayLower(g: Graph, rank: Ranks, plan: seq<Node>, mixes: Chains, done: set<Node>, bound: nat, lower: nat)
    requires Midway(g, rank, plan, mixes, done, bound) && lower <= bound
    ensures Midway(g, rank, plan, mixes, done, lower)
  {
  }

  lemma NextLast(list: seq<Node>, k: nat)
    requires k < |list|
    ensures NextIn(list, k) == if k + 1 < |list| then list[k + 1] else null
  {
  }

  lemma BuildNone(g: Graph, rank: Ranks, plan: seq<Node>)
    requires Ranked(g, rank)
    ensures Build(g, rank, plan, []) == plan && Reached(g, rank, []) == {}
  {
  }

  lemma BuildOpens(g: Graph, rank: Ranks, plan: seq<Node>, list: seq<Node>)
    requires Ranked(g, rank) && list != [] && forall k :: 0 <= k < |list| ==> list[k] in g
    ensures Build(g, rank, plan, list) == Build(g, rank, Visit(g, rank, plan, list[0]), list[1..])
    ensures Reached(g, rank, list) == Cone(g, rank, list[0]) + Reached(g, rank, list[1..])
  {
    hide Ranked;
  }

  ghost predicate MidwayAnyBound(g: Graph, rank: Ranks, plan: seq<Node>, mixes: Chains, done: set<Node>) {
    forall bound: nat :: Midway(g, rank, plan, mixes, done, bound)
  }

  lemma VisitedAnyBound(g: Graph, rank: Ranks, plan: seq<Node>, mixes: Chains, done: set<Node>, n: Node)
    requires MidwayAnyBound(g, rank, plan, mixes, done) && n in g
    ensures Ranked(g, rank) && Midway(g, rank, plan, mixes, done, RankOf(rank, n))
    ensures MidwayAnyBound(g, rank, Visit(g, rank, plan, n), Prune(g, mixes, Cone(g, rank, n)), done + Cone(g, rank, n))
  {
    hide Midway;
    hide Ranked;
    hide Visit;
    hide Cone;
    hide Prune;
    MidwayRanked(g, rank, plan, mixes, done, 0) by { assert Midway(g, rank, plan, mixes, done, 0); }
    forall bound: nat
      ensures Midway(g, rank, Visit(g, rank, plan, n), Prune(g, mixes, Cone(g, rank, n)), done + Cone(g, rank, n),
                     bound)
    {
      assert Midway(g, rank, plan, mixes, done, bound);
      Visited(g, rank, plan, mixes, done, bound, n);
    }
  }

  /** The state after `k` nodes of the list: what is left to visit leads to the whole plan. */
  ghost predicate BuildState(g: Graph, rank: Ranks, list: seq<Node>, m0: Chains, plan: seq<Node>, mixes: Chains,
                             done: set<Node>, k: nat)
  {
    && Ranked(g, rank) && k <= |list| && (forall i :: 0 <= i < |list| ==> list[i] in g)
    && MidwayAnyBound(g, rank, plan, mixes, done)
    && Build(g, rank, plan, list[k..]) == Build(g, rank, [], list)
    && mixes == Prune(g, m0, done)
    && done + Reached(g, rank, list[k..]) == Reached(g, rank, list)
  }

  lemma BuildStarts(g: Graph, rank: Ranks, list: seq<Node>, m0: Chains)
    requires Ranked(g, rank) && forall i :: 0 <= i < |list| ==> list[i] in g
    requires m0.Keys == g.Keys && forall n :: n in g ==> m0[n] == g[n].mix
    ensures BuildState(g, rank, list, m0, [], m0, {}, 0)
  {
    hide Ranked;
    hide MidwayAnyBound;
    hide Prune;
    hide Build;
    hide Reached;
    MidwayStart(g, rank, m0);
    PruneNone(g, m0);
    assert list[0..] == list;
    assert {} + Reached(g, rank, list) == Reached(g, rank, list);
  }

  lemma BuildSteps(g: Graph, rank: Ranks, list: seq<Node>, m0: Chains, plan: seq<Node>, mixes: Chains, done: set<Node>,
                   k: nat)
    requires BuildState(g, rank, list, m0, plan, mixes, done, k) && k < |list|
    ensures Ranked(g, rank) && list[k] in g
    ensures Midway(g, rank, plan, mixes, done, RankOf(rank, list[k]))
    ensures var s := Cone(g, rank, list[k]);
            BuildState(g, rank, list, m0, Visit(g, rank, plan, list[k]), Prune(g, mixes, s), done + s, k + 1)
  {
    hide Ranked;
    hide MidwayAnyBound;
    hide Prune;
    hide Visit;
    hide Cone;
    hide Build;
    hide Reached;
    assert list[k..][0] == list[k] && list[k..][1..] == list[k + 1..];
    BuildOpens(g, rank, plan, list[k..]);
    VisitedAnyBound(g, rank, plan, mixes, done, list[k]);
    PruneTwice(g, m0, done, Cone(g, rank, list[k]));
    var rest := Reached(g, rank, list[k + 1..]);
    assert done + (Cone(g, rank, list[k]) + rest) == done + Cone(g, rank, list[k]) + rest;
  }

  lemma BuildEnds(g: Graph, rank: Ranks, list: seq<Node>, m0: Chains, plan: seq<Node>, mixes: Chains, done: set<Node>,
                  k: nat)
    requires BuildState(g, rank, list, m0, plan, mixes, done, k) && k == |list|
    ensures Ranked(g, rank) && (forall i :: 0 <= i < |list| ==> list[i] in g)
    ensures plan == Build(g, rank, [], list) && mixes == Prune(g, m0, Reached(g, rank, list))
  {
    hide Ranked;
    hide MidwayAnyBound;
    hide Prune;
    assert list[k..] == [];
    BuildNone(g, rank, plan);
    assert done + {} == done;
  }

  /** Nothing visited yet. */
  lemma MidwayStart(g: Graph, rank: Ranks, mixes: Chains)
    requires Ranked(g, rank) && mixes.Keys == g.Keys && forall n :: n in g ==> mixes[n] == g[n].mix
    ensures MidwayAnyBound(g, rank, [], mixes, {})
  {
  }

  /** Visiting all of a set keeps the state. */
  lemma MidwayMore(g: Graph, rank: Ranks, plan: seq<Node>, mixes: Chains, done: set<Node>, bound: nat, r: seq<Node>,
                   s: set<Node>)
    requires Midway(g, rank, plan, mixes, done, bound) && Good(g, rank, r) && Extends(g, plan, r, s)
    requires forall m :: m in s ==> m in g
    requires forall m :: m in s && m in g ==> Cone(g, rank, m) <= s
    ensures Midway(g, rank, r, Prune(g, mixes, s), done + s, bound)
  {
    hide Ranked;
    hide Good;
    hide Cone;
    hide LiveOnly;
    GoodIn(g, rank, r);
    var mixes' := Prune(g, mixes, s);
    forall i | 0 <= i < |r| ensures r[i] in g && Cone(g, rank, r[i]) <= done + s {
      assert r[i] in r;
      if r[i] in plan {
        var j :| 0 <= j < |plan| && plan[j] == r[i];
      }
    }
  }

  lemma GoodIn(g: Graph, rank: Ranks, plan: seq<Node>)
    requires Ranked(g, rank) && Good(g, rank, plan)
    ensures forall i :: 0 <= i < |plan| ==> plan[i] in g
  {
  }

  /** The state after a visit. */
  lemma Visited(g: Graph, rank: Ranks, plan: seq<Node>, mixes: Chains, done: set<Node>, bound: nat, n: Node)
    requires Midway(g, rank, plan, mixes, done, bound) && n in g
    ensures Ranked(g, rank)
    ensures Midway(g, rank, Visit(g, rank, plan, n), Prune(g, mixes, Cone(g, rank, n)), done + Cone(g, rank, n), bound)
  {
    hide Midway;
    hide Good;
    hide Extends;
    hide Visit;
    hide Cone;
    MidwayRanked(g, rank, plan, mixes, done, bound);
    VisitExtends(g, rank, plan, n);
    forall m | m in Cone(g, rank, n) ensures m in g && Cone(g, rank, m) <= Cone(g, rank, n) {
      ConeRanks(g, rank, n, m);
      ConeTransitive(g, rank, n, m);
    }
    MidwayMore(g, rank, plan, mixes, done, bound, Visit(g, rank, plan, n), Cone(g, rank, n));
  }

  /** A visit of a finished node or one in the plan changes nothing. */
  lemma NothingToDo(g: Graph, rank: Ranks, plan: seq<Node>, mixes: Chains, done: set<Node>, bound: nat, n: Node)
    requires Midway(g, rank, plan, mixes, done, bound) && n in g && (!g[n].live || n in plan)
    ensures Ranked(g, rank)
    ensures Visit(g, rank, plan, n) == plan && Prune(g, mixes, Cone(g, rank, n)) == mixes
            && done + Cone(g, rank, n) == done
  {
    hide Ranked;
    hide LiveOnly;
    hide Good;
    hide Cone;
    hide Prune;
    hide Reaching;
    hide Faithful;
    hide Pruned;
    VisitSkips(g, rank, plan, n);
    if g[n].live {
      InPlanDone(g, rank, plan, done, n);
    } else {
      ConeOfDead(g, rank, n);
    }
    PrunedAlready(g, mixes, done, Cone(g, rank, n));
  }

  lemma VisitSkips(g: Graph, rank: Ranks, plan: seq<Node>, n: Node)
    requires Ranked(g, rank) && n in g && (!g[n].live || n in plan)
    ensures Visit(g, rank, plan, n) == plan
  {
    hide Ranked;
  }

  lemma ConeOfDead(g: Graph, rank: Ranks, n: Node)
    requires Ranked(g, rank) && n in g && !g[n].live
    ensures Cone(g, rank, n) == {}
  {
    hide Ranked;
  }

  lemma InPlanDone(g: Graph, rank: Ranks, plan: seq<Node>, done: set<Node>, n: Node)
    requires Ranked(g, rank) && Reaching(g, rank, plan, done) && n in plan && n in g
    ensures Cone(g, rank, n) <= done
  {
    hide Ranked;
    hide Cone;
    var i :| 0 <= i < |plan| && plan[i] == n;
    assert Cone(g, rank, plan[i]) <= done;
  }

  lemma PrunedAlready(g: Graph, mixes: Chains, done: set<Node>, s: set<Node>)
    requires Pruned(g, mixes, done) && s <= done
    ensures Prune(g, mixes, s) == mixes && done + s == done
  {
    hide LiveOnly;
  }

  function RankOf(rank: Ranks, n: Node?): nat {
    if n != null && n in rank then rank[n] + 1 else 0
  }

  class Renderer {
    const plan: AudioRenderPlan
    const graph: NodeGraph
    ghost const nodes: set<Node>
    ghost var mixes: Chains
    ghost var done: set<Node>

    /** The mix links are those of `mixes`. */
    ghost predicate Linked()
      reads this`mixes, nodes`mixHead, nodes`mixNext
    {
      AllChains(LinksOf(nodes), mixes) && Disjoint(mixes)
    }

    ghost predicate Valid()
      reads this`mixes, plan, plan.ops, nodes`mixHead, nodes`mixNext
    {
      plan.Valid() && Linked()
    }

    /** What the plan is for, on the fields of the nodes: it has every unfinished node of the list that renders, no
        finished node and none that renders nothing, and what is connected to a node before the node. */
    ghost predicate PlanRight()
      reads plan`plan, graph`list, nodes`trigEnd, nodes`writeToOutput, nodes`hasBus, nodes`numInputs, nodes`connections
    {
      && (forall i :: 0 <= i < |plan.plan| ==> plan.plan[i] in nodes && Renders(plan.plan[i]))
      && (forall i, j :: 0 <= i < j < |plan.plan| ==> plan.plan[i] != plan.plan[j])
      && (forall n :: n in graph.list && n in nodes && Renders(n) ==> n in plan.plan)
      && forall i, j :: 0 <= i < |plan.plan| && plan.plan[i] in nodes && 0 <= j < plan.plan[i].numInputs
                        && j < MAX_INPUTS ==>
           var source := plan.plan[i].connections[j];
           source != null && source in nodes && Renders(source) ==> source in plan.plan[..i]
    }

    /** The operations of the plan have the inputs of their nodes. */
    ghost predicate Wired()
      reads plan`ops, plan`len, plan.ops, nodes`numInputs, nodes`connections
    {
      plan.len <= plan.ops.Length
      && forall i :: 0 <= i < plan.len ==>
           var op := plan.ops[i];
           && op.node in nodes
           && |op.inputs| == (if op.node.numInputs < MAX_INPUTS then op.node.numInputs else MAX_INPUTS)
           && forall j :: 0 <= j < |op.inputs| ==> op.inputs[j] == op.node.connections[j]
    }

    constructor (graph: NodeGraph, ghost nodes: set<Node>, ghost mixes: Chains)
      requires AllChains(LinksOf(nodes), mixes) && Disjoint(mixes)
      ensures Valid() && plan.plan == [] && fresh(plan) && fresh(plan.ops)
      ensures this.graph == graph && this.nodes == nodes && this.mixes == mixes
    {
      this.graph := graph;
      this.nodes := nodes;
      this.mixes := mixes;
      this.done := {};
      plan := new AudioRenderPlan();
    }

    /** `render_plan_add_node` */
    method AddNode(node: Node?, ghost g: Graph, ghost rank: Ranks)
      requires Valid() && Wired() && Seen(g, nodes) && (node != null ==> node in nodes)
      requires Midway(g, rank, plan.plan, mixes, done, RankOf(rank, node))
      modifies this`mixes, this`done, plan, plan.ops, nodes`mixHead, nodes`mixNext
      ensures Valid() && Wired() && (plan.ops == old(plan.ops) || fresh(plan.ops))
      ensures Ranked(g, rank)
      ensures node == null ==> plan.plan == old(plan.plan) && mixes == old(mixes) && done == old(done)
      ensures node != null ==>
                && plan.plan == Visit(g, rank, old(plan.plan), node)
                && mixes == Prune(g, old(mixes), Cone(g, rank, node))
                && done == old(done) + Cone(g, rank, node)
      decreases RankOf(rank, node), 2
    {
      hide Wired;
      hide Midway;
      hide AudioRenderPlan.Valid;
      hide VisitAll;
      hide ConeAll;
      hide AllBelow;
      hide Linked;
      hide Seen;
      hide Prune;
      hide Slots;
      hide NonNull;
      hide Visit;
      hide Cone;
      hide Ranked;
      hide AllChains;
      hide Disjoint;
      MidwayRanked(g, rank, plan.plan, mixes, done, RankOf(rank, node));
      if node == null {
        return;
      }
      SeenAt(g, nodes, node);
      var found := plan.Contains(node);
      if node.trigEnd || found {
        NothingToDo(g, rank, plan.plan, mixes, done, RankOf(rank, node), node);
        return;
      }
      VisitOpens(g, rank, plan.plan, node);
      VisitEffects(g, rank, mixes, done, node);
      AddInputs(node, g, rank);
      AddMix(node, g, rank);
      if !node.performs && !node.writeToOutput && !node.hasBus {
        return;
      }
      Extend(node);
    }

    lemma NothingWired()
      requires plan.len == 0
      ensures Wired()
    {
    }

    /** The end of `render_plan_add_node`: the operation of the node. */
    method Extend(node: Node)
      requires plan.Valid() && Wired() && node in nodes
      modifies plan, plan.ops
      ensures plan.Valid() && Wired() && (plan.ops == old(plan.ops) || fresh(plan.ops))
      ensures plan.plan == old(plan.plan) + [node]
    {
      plan.Append(node, Slots(node));
    }

    /** The connected inputs of a node, in slot order. */
    method AddInputs(node: Node, ghost g: Graph, ghost rank: Ranks)
      requires Valid() && Wired() && Seen(g, nodes) && node in nodes
      requires Midway(g, rank, plan.plan, mixes, done, RankOf(rank, node))
      modifies this`mixes, this`done, plan, plan.ops, nodes`mixHead, nodes`mixNext
      ensures Valid() && Wired() && (plan.ops == old(plan.ops) || fresh(plan.ops))
      ensures Ranked(g, rank) && AllBelow(g, rank, rank[node], g[node].inputs)
      ensures plan.plan == VisitAll(g, rank, rank[node], old(plan.plan), g[node].inputs)
      ensures mixes == Prune(g, old(mixes), ConeAll(g, rank, rank[node], g[node].inputs))
      ensures done == old(done) + ConeAll(g, rank, rank[node], g[node].inputs)
      ensures Midway(g, rank, plan.plan, mixes, done, RankOf(rank, node))
      decreases RankOf(rank, node), 1
    {
      hide Wired;
      hide Midway;
      hide Linked;
      hide Seen;
      hide Prune;
      hide Slots;
      hide NonNull;
      hide Visit;
      hide VisitAll;
      hide Cone;
      hide ConeAll;
      hide Ranked;
      hide AllChains;
      hide Disjoint;
      MidwayRanked(g, rank, plan.plan, mixes, done, RankOf(rank, node));
      SeenAt(g, nodes, node);
      ChildrenBelow(g, rank, node);
      ghost var bound := rank[node];
      ghost var p0, m0, d0 := plan.plan, mixes, done;
      ghost var seen: set<Node> := {};
      var slots := Slots(node);
      assert slots[0..] == slots;
      PruneNone(g, mixes);
      for i := 0 to |slots|
        invariant Valid() && Wired() && (plan.ops == old(plan.ops) || fresh(plan.ops))
        invariant Midway(g, rank, plan.plan, mixes, done, RankOf(rank, node))
        invariant AllBelow(g, rank, bound, NonNull(slots[i..]))
        invariant VisitAll(g, rank, bound, plan.plan, NonNull(slots[i..]))
                  == VisitAll(g, rank, bound, p0, g[node].inputs)
        invariant mixes == Prune(g, m0, seen) && done == d0 + seen
        invariant seen + ConeAll(g, rank, bound, NonNull(slots[i..])) == ConeAll(g, rank, bound, g[node].inputs)
      {
        NextSlot(g, rank, bound, plan.plan, slots, i);
        SeenKeys(g, nodes);
        if slots[i] != null {
          MidwayLower(g, rank, plan.plan, mixes, done, RankOf(rank, node), RankOf(rank, slots[i]));
          Visited(g, rank, plan.plan, mixes, done, RankOf(rank, node), slots[i]);
          PruneTwice(g, m0, seen, Cone(g, rank, slots[i]));
          AddNode(slots[i], g, rank);
          seen := seen + Cone(g, rank, slots[i]);
        }
      }
      assert slots[|slots|..] == [];
      NoSlots(g, rank, bound, plan.plan);
    }

    /** The mix sources of a node, in list order; finished ones are unlinked. */
    method AddMix(node: Node, ghost g: Graph, ghost rank: Ranks)
      requires Valid() && Wired() && Seen(g, nodes) && node in nodes && g[node].live
      requires Midway(g, rank, plan.plan, mixes, done, RankOf(rank, node))
      modifies this`mixes, this`done, plan, plan.ops, nodes`mixHead, nodes`mixNext
      ensures Valid() && Wired() && (plan.ops == old(plan.ops) || fresh(plan.ops))
      ensures Ranked(g, rank) && AllBelow(g, rank, rank[node], g[node].mix)
      ensures plan.plan == VisitAll(g, rank, rank[node], old(plan.plan), g[node].mix)
      ensures mixes == Prune(g, old(mixes), ConeAll(g, rank, rank[node], g[node].mix) + {node})
      ensures done == old(done) + ConeAll(g, rank, rank[node], g[node].mix) + {node}
      decreases RankOf(rank, node), 1
    {
      hide Wired;
      hide MixState;
      hide Midway;
      hide Linked;
      hide Seen;
      hide Ranked;
      hide Visit;
      hide VisitAll;
      hide Cone;
      hide ConeAll;
      hide Prune;
      SeenAt(g, nodes, node);
      SeenKeys(g, nodes);
      MixStart(g, rank, plan.plan, mixes, done, node);
      HeadLink(node);
      ghost var p0, m0, d0 := plan.plan, mixes, done;
      ghost var seen: set<Node>, kept: seq<Node>, rest: seq<Node> := {}, [], mixes[node];
      var prev: Node? := null;
      var source := node.mixHead;
      while source != null
        invariant Valid() && Wired() && (plan.ops == old(plan.ops) || fresh(plan.ops))
        invariant source == FirstOf(rest) && prev == LastOf(kept)
        invariant MixState(g, rank, node, p0, m0, d0, plan.plan, mixes, done, seen, kept, rest)
        decreases |rest|
      {
        MixSource(g, rank, node, p0, m0, d0, plan.plan, mixes, done, seen, kept, rest);
        SeenAt(g, nodes, source);
        if source.trigEnd {
          MixDead(g, rank, node, p0, m0, d0, plan.plan, mixes, done, seen, kept, rest);
          Unlink(node, prev, source, kept, rest[1..]);
        } else {
          MixLive(g, rank, node, p0, m0, d0, plan.plan, mixes, done, seen, kept, rest);
          AddNode(source, g, rank);
          seen := seen + Cone(g, rank, source);
          kept := kept + [rest[0]];
          prev := source;
        }
        rest := rest[1..];
        MixAt(g, rank, node, p0, m0, d0, plan.plan, mixes, done, seen, kept, rest);
        NextLink(node, kept, rest);
        source := if prev == null then node.mixHead else prev.mixNext;
      }
      MixEnd(g, rank, node, p0, m0, d0, plan.plan, mixes, done, seen, kept);
      done := done + {node};
    }

    /** `render_plan_build`: the plan of the node list, and every mix list reached pruned. */
    method Rebuild(ghost g: Graph, ghost rank: Ranks)
      requires Valid() && graph.Valid() && Seen(g, nodes) && Ranked(g, rank)
      requires forall k :: 0 <= k < |graph.list| ==> graph.list[k] in nodes
      requires mixes.Keys == nodes && forall n :: n in nodes ==> mixes[n] == g[n].mix
      modifies this`mixes, this`done, plan, plan.ops, nodes`mixHead, nodes`mixNext
      ensures Valid() && Wired() && (plan.ops == old(plan.ops) || fresh(plan.ops))
      ensures forall k :: 0 <= k < |graph.list| ==> graph.list[k] in g
      ensures plan.plan == Build(g, rank, [], graph.list)
      ensures mixes == Prune(g, old(mixes), Reached(g, rank, graph.list))
      ensures plan.builtGeneration == graph.generation
      ensures PlanRight()
    {
      hide PlanRight;
      hide Wired;
      hide Midway;
      hide MidwayAnyBound;
      hide NextIn;
      hide RankOf;
      hide AudioRenderPlan.Valid;
      hide NodeGraph.Valid;
      hide Build;
      hide Reached;
      hide Linked;
      hide Seen;
      hide Visit;
      hide Cone;
      hide Ranked;
      hide Prune;
      hide BuildState;
      hide Pruned;
      SeenKeys(g, nodes);
      plan.Clear();
      NothingWired();
      done := {};
      ghost var m0 := mixes;
      ghost var list := graph.list;
      BuildStarts(g, rank, list, m0);
      ghost var k := 0;
      graph.Links(0);
      var node := graph.head;
      while node != null
        invariant Valid() && Wired() && (plan.ops == old(plan.ops) || fresh(plan.ops)) && graph.Valid()
        invariant k <= |list| && node == (if k < |list| then list[k] else null)
        invariant BuildState(g, rank, list, m0, plan.plan, mixes, done, k)
        decreases |list| - k
      {
        BuildSteps(g, rank, list, m0, plan.plan, mixes, done, k);
        graph.Links(k);
        NextLast(list, k);
        AddNode(node, g, rank);
        k := k + 1;
        node := node.next;
      }
      BuildEnds(g, rank, list, m0, plan.plan, mixes, done, k);
      plan.builtGeneration := graph.generation;
      BuiltIsRight(g, rank);
    }

    lemma BuiltIsRight(g: Graph, rank: Ranks)
      requires Ranked(g, rank) && Seen(g, nodes) && forall k :: 0 <= k < |graph.list| ==> graph.list[k] in g
      requires plan.plan == Build(g, rank, [], graph.list)
      ensures PlanRight()
    {
      hide Ranked;
      hide Build;
      hide Seen;
      hide Renders;
      PlanOnFields(g, rank, nodes, graph.list);
    }

    lemma HeadLink(node: Node)
      requires Linked() && node in mixes && node in nodes
      ensures node.mixHead == FirstOf(mixes[node])
    {
      ChainHead(LinksOf(nodes), mixes, node);
    }

    lemma NextLink(node: Node, kept: seq<Node>, rest: seq<Node>)
      requires Linked() && node in mixes && node in nodes && mixes[node] == kept + rest
      ensures kept == [] ==> node.mixHead == FirstOf(rest)
      ensures kept != [] ==> LastOf(kept) in nodes && LastOf(kept).mixNext == FirstOf(rest)
    {
      ChainNext(LinksOf(nodes), mixes, node, kept, rest);
    }

    /** `*link = source->mix_next; source->mix_next = NULL`, where the link is that of `prev` or the head. */
    method Unlink(node: Node, prev: Node?, source: Node, ghost kept: seq<Node>, ghost rest: seq<Node>)
      requires Linked() && node in mixes && node in nodes && mixes[node] == kept + [source] + rest
               && prev == LastOf(kept)
      modifies this`mixes, nodes`mixHead, nodes`mixNext
      ensures Linked() && mixes == old(mixes)[node := kept + rest]
    {
      hide AllChains;
      hide Disjoint;
      ghost var s := LinksOf(nodes);
      AtSource(s, mixes, node, kept, source, rest);
      if prev == null {
        node.mixHead := source.mixNext;
      } else {
        prev.mixNext := source.mixNext;
      }
      source.mixNext := null;
      UnlinkKeeps(s, LinksOf(nodes), mixes, node, kept, source, rest);
      mixes := mixes[node := kept + rest];
    }
  }

  /** Walking the mix list of `node`: `kept` is behind, `rest` ahead; `seen` was visited on the way. */
  ghost predicate MixState(g: Graph, rank: Ranks, node: Node, p0: seq<Node>, m0: Chains, d0: set<Node>, plan: seq<Node>,
                           mixes: Chains, done: set<Node>, seen: set<Node>, kept: seq<Node>, rest: seq<Node>)
  {
    && Ranked(g, rank) && node in g && node in rank && m0.Keys == g.Keys && mixes.Keys == g.Keys
    && AllBelow(g, rank, rank[node], rest) && AllBelow(g, rank, rank[node], g[node].mix)
    && mixes == Prune(g, m0, seen)[node := kept + rest] && node !in seen
    && done == d0 + seen
    && seen + ConeAll(g, rank, rank[node], rest) == ConeAll(g, rank, rank[node], g[node].mix)
    && kept + LiveOnly(g, rest) == LiveOnly(g, g[node].mix)
    && (node in d0 ==> kept + rest == LiveOnly(g, g[node].mix))
    && VisitAll(g, rank, rank[node], plan, rest) == VisitAll(g, rank, rank[node], p0, g[node].mix)
    && Midway(g, rank, plan, mixes, done, rank[node])
  }

  lemma MixStart(g: Graph, rank: Ranks, plan: seq<Node>, mixes: Chains, done: set<Node>, node: Node)
    requires Midway(g, rank, plan, mixes, done, RankOf(rank, node)) && node in g
    ensures node in mixes && MixState(g, rank, node, plan, mixes, done, plan, mixes, done, {}, [], mixes[node])
    ensures Ranked(g, rank) && node in rank && AllBelow(g, rank, rank[node], g[node].mix)
  {
    hide Midway;
    hide Ranked;
    hide VisitAll;
    hide ConeAll;
    hide LiveOnly;
    hide Prune;
    MidwayRanked(g, rank, plan, mixes, done, RankOf(rank, node));
    ChildrenBelow(g, rank, node);
    SameSources(g, rank, plan, mixes, done, node);
    PruneNone(g, mixes);
    MidwayLower(g, rank, plan, mixes, done, RankOf(rank, node), rank[node]);
    var xs := mixes[node];
    assert [] + xs == xs && mixes == mixes[node := xs];
    assert [] + LiveOnly(g, xs) == LiveOnly(g, xs);
  }

  /** The next source. */
  lemma MixSource(g: Graph, rank: Ranks, node: Node, p0: seq<Node>, m0: Chains, d0: set<Node>, plan: seq<Node>,
                  mixes: Chains, done: set<Node>, seen: set<Node>, kept: seq<Node>, rest: seq<Node>)
    requires MixState(g, rank, node, p0, m0, d0, plan, mixes, done, seen, kept, rest) && rest != []
    ensures node in g && node in mixes && mixes[node] == kept + [rest[0]] + rest[1..]
    ensures Ranked(g, rank) && rest[0] in g && rest[0] in rank && rank[rest[0]] < rank[node]
    ensures Midway(g, rank, plan, mixes, done, RankOf(rank, rest[0]))
  {
    hide Midway;
    hide Ranked;
    hide VisitAll;
    hide ConeAll;
    hide LiveOnly;
    hide Prune;
    assert rest == [rest[0]] + rest[1..];
    assert kept + rest == kept + [rest[0]] + rest[1..];
    MidwayLower(g, rank, plan, mixes, done, rank[node], RankOf(rank, rest[0]));
  }

  /** A finished source leaves the list. */
  lemma MixDead(g: Graph, rank: Ranks, node: Node, p0: seq<Node>, m0: Chains, d0: set<Node>, plan: seq<Node>,
                mixes: Chains, done: set<Node>, seen: set<Node>, kept: seq<Node>, rest: seq<Node>)
    requires MixState(g, rank, node, p0, m0, d0, plan, mixes, done, seen, kept, rest) && rest != []
    requires rest[0] in g && !g[rest[0]].live
    ensures MixState(g, rank, node, p0, m0, d0, plan, mixes[node := kept + rest[1..]], done, seen, kept, rest[1..])
  {
    hide Midway;
    hide Ranked;
    hide VisitAll;
    hide ConeAll;
    hide LiveOnly;
    hide Prune;
    NextSource(g, rank, rank[node], plan, rest);
    var more := rest[1..];
    assert |LiveOnly(g, more)| <= |more|;
    if node in done {
      assert false;
    }
    MidwayAt(g, rank, plan, mixes, done, rank[node], node, kept + rest[1..]);
  }

  /** A live source is visited and stays. */
  lemma MixLive(g: Graph, rank: Ranks, node: Node, p0: seq<Node>, m0: Chains, d0: set<Node>, plan: seq<Node>,
                mixes: Chains, done: set<Node>, seen: set<Node>, kept: seq<Node>, rest: seq<Node>)
    requires MixState(g, rank, node, p0, m0, d0, plan, mixes, done, seen, kept, rest) && rest != []
    requires rest[0] in g && g[rest[0]].live
    ensures Ranked(g, rank)
    ensures var c := Cone(g, rank, rest[0]);
            MixState(g, rank, node, p0, m0, d0, Visit(g, rank, plan, rest[0]), Prune(g, mixes, c), done + c, seen + c,
                     kept + [rest[0]], rest[1..])
  {
    hide Midway;
    hide Ranked;
    hide Visit;
    hide VisitAll;
    hide Cone;
    hide ConeAll;
    hide LiveOnly;
    hide Prune;
    var c := Cone(g, rank, rest[0]);
    NextSource(g, rank, rank[node], plan, rest);
    NotOwnSource(g, rank, node, rest[0]);
    Visited(g, rank, plan, mixes, done, rank[node], rest[0]);
    PruneAround(g, m0, seen, c, node, kept + rest);
    assert kept + [rest[0]] + rest[1..] == kept + rest;
    assert kept + [rest[0]] + LiveOnly(g, rest[1..]) == kept + ([rest[0]] + LiveOnly(g, rest[1..]));
    assert done + c == d0 + (seen + c);
    assert seen + c + ConeAll(g, rank, rank[node], rest[1..]) == seen + ConeAll(g, rank, rank[node], rest);
  }

  lemma MixAt(g: Graph, rank: Ranks, node: Node, p0: seq<Node>, m0: Chains, d0: set<Node>, plan: seq<Node>,
              mixes: Chains, done: set<Node>, seen: set<Node>, kept: seq<Node>, rest: seq<Node>)
    requires MixState(g, rank, node, p0, m0, d0, plan, mixes, done, seen, kept, rest)
    ensures node in mixes && mixes[node] == kept + rest
  {
    hide Midway;
    hide Ranked;
    hide VisitAll;
    hide ConeAll;
    hide LiveOnly;
    hide Prune;
  }

  lemma MixEnd(g: Graph, rank: Ranks, node: Node, p0: seq<Node>, m0: Chains, d0: set<Node>, plan: seq<Node>,
               mixes: Chains, done: set<Node>, seen: set<Node>, kept: seq<Node>)
    requires MixState(g, rank, node, p0, m0, d0, plan, mixes, done, seen, kept, [])
    ensures Ranked(g, rank) && node in g && node in rank && AllBelow(g, rank, rank[node], g[node].mix)
    ensures plan == VisitAll(g, rank, rank[node], p0, g[node].mix)
    ensures mixes == Prune(g, m0, ConeAll(g, rank, rank[node], g[node].mix) + {node})
    ensures done == d0 + ConeAll(g, rank, rank[node], g[node].mix)
  {
    hide Midway;
    hide Ranked;
    hide VisitAll;
    hide ConeAll;
    hide LiveOnly;
    hide Prune;
    NoSources(g, rank, rank[node], plan);
    assert kept + [] == kept;
    var all := ConeAll(g, rank, rank[node], g[node].mix);
    assert seen + {} == seen;
    assert seen == all;
    PruneLast(g, m0, seen, node);
  }

  lemma SeenKeys(g: Graph, nodes: set<Node>)
    requires Seen(g, nodes)
    ensures g.Keys == nodes
  {
  }

  lemma SeenAt(g: Graph, nodes: set<Node>, n: Node)
    requires Seen(g, nodes) && n in nodes
    ensures n in g && g[n].live == !n.trigEnd && g[n].renderable == IsRenderable(n) && g[n].inputs == NonNull(Slots(n))
  {
  }

  function LastOf(xs: seq<Node>): Node? {
    if xs == [] then null else xs[|xs| - 1]
  }

  /** The links around a source. */
  lemma AtSource(s: map<Node, Links>, mixes: Chains, n: Node, kept: seq<Node>, source: Node, rest: seq<Node>)
    requires AllChains(s, mixes) && Disjoint(mixes) && n in mixes && mixes[n] == kept + [source] + rest
    ensures n in s && source in s && s[source].next == FirstOf(rest)
    ensures kept != [] ==> LastOf(kept) in s && LastOf(kept) != source
  {
    var xs, k := mixes[n], |kept|;
    assert xs[k] == source && s[xs[k]].next == NextIn(xs, k);
    if k > 0 {
      assert xs[k - 1] == LastOf(kept) && xs[k - 1] in s;
    }
  }

  lemma ChainHead(s: map<Node, Links>, mixes: Chains, n: Node)
    requires AllChains(s, mixes) && n in mixes
    ensures n in s && s[n].head == FirstOf(mixes[n])
  {
  }

  lemma ChainNext(s: map<Node, Links>, mixes: Chains, n: Node, kept: seq<Node>, rest: seq<Node>)
    requires AllChains(s, mixes) && n in mixes && mixes[n] == kept + rest
    ensures n in s && (kept == [] ==> s[n].head == FirstOf(rest))
    ensures kept != [] ==> LastOf(kept) in s && s[LastOf(kept)].next == FirstOf(rest)
  {
    if kept != [] {
      var k := |kept| - 1;
      assert mixes[n][k] == LastOf(kept) && s[mixes[n][k]].next == NextIn(mixes[n], k);
    } else {
      assert kept + rest == rest;
    }
  }

  lemma VisitOpens(g: Graph, rank: Ranks, plan: seq<Node>, n: Node)
    requires Ranked(g, rank) && n in g && g[n].live && n !in plan
    ensures n in rank && AllBelow(g, rank, rank[n], g[n].inputs) && AllBelow(g, rank, rank[n], g[n].mix)
    ensures Cone(g, rank, n)
         == {n} + ConeAll(g, rank, rank[n], g[n].inputs) + ConeAll(g, rank, rank[n], g[n].mix)
    ensures var sources := VisitAll(g, rank, rank[n], VisitAll(g, rank, rank[n], plan, g[n].inputs), g[n].mix);
            Visit(g, rank, plan, n) == if g[n].renderable then sources + [n] else sources
  {
    hide Ranked;
    ChildrenBelow(g, rank, n);
  }

  /** What inputs, mix sources and the node itself add up to. */
  lemma VisitEffects(g: Graph, rank: Ranks, mixes: Chains, done: set<Node>, n: Node)
    requires Ranked(g, rank) && n in g && g[n].live
    ensures n in rank && AllBelow(g, rank, rank[n], g[n].inputs) && AllBelow(g, rank, rank[n], g[n].mix)
    ensures var ci, cm := ConeAll(g, rank, rank[n], g[n].inputs), ConeAll(g, rank, rank[n], g[n].mix);
            && Prune(g, Prune(g, mixes, ci), cm + {n}) == Prune(g, mixes, Cone(g, rank, n))
            && done + ci + cm + {n} == done + Cone(g, rank, n)
  {
    hide Ranked;
    hide Prune;
    hide ConeAll;
    ChildrenBelow(g, rank, n);
    var ci, cm := ConeAll(g, rank, rank[n], g[n].inputs), ConeAll(g, rank, rank[n], g[n].mix);
    PruneTwice(g, mixes, ci, cm + {n});
    assert ci + (cm + {n}) == Cone(g, rank, n);
  }

  lemma PruneNone(g: Graph, mixes: Chains)
    ensures Prune(g, mixes, {}) == mixes
  {
  }

  lemma NextSlot(g: Graph, rank: Ranks, bound: nat, plan: seq<Node>, slots: seq<Node?>, i: nat)
    requires Ranked(g, rank) && i < |slots| && AllBelow(g, rank, bound, NonNull(slots[i..]))
    ensures AllBelow(g, rank, bound, NonNull(slots[i + 1..]))
    ensures slots[i] == null ==> NonNull(slots[i..]) == NonNull(slots[i + 1..])
    ensures slots[i] != null ==>
              && slots[i] in g && slots[i] in rank && rank[slots[i]] < bound
              && VisitAll(g, rank, bound, plan, NonNull(slots[i..]))
                 == VisitAll(g, rank, bound, Visit(g, rank, plan, slots[i]), NonNull(slots[i + 1..]))
              && ConeAll(g, rank, bound, NonNull(slots[i..]))
                 == Cone(g, rank, slots[i]) + ConeAll(g, rank, bound, NonNull(slots[i + 1..]))
  {
    hide Ranked;
    hide Visit;
    hide Cone;
    var rest := NonNull(slots[i + 1..]);
    assert slots[i..][0] == slots[i] && slots[i..][1..] == slots[i + 1..];
    if slots[i] == null {
      assert [] + rest == rest;
    } else {
      var all := NonNull(slots[i..]);
      assert all == [slots[i]] + rest;
      assert all[0] == slots[i] && all[1..] == rest;
      forall k | 0 <= k < |rest| ensures rest[k] in g && rest[k] in rank && rank[rest[k]] < bound {
        assert rest[k] == all[k + 1];
      }
    }
  }

  lemma NoSlots(g: Graph, rank: Ranks, bound: nat, plan: seq<Node>)
    requires Ranked(g, rank)
    ensures NonNull([]) == [] && AllBelow(g, rank, bound, [])
    ensures VisitAll(g, rank, bound, plan, []) == plan && ConeAll(g, rank, bound, []) == {}
  {
    hide Ranked;
  }

  lemma NoSources(g: Graph, rank: Ranks, bound: nat, plan: seq<Node>)
    requires Ranked(g, rank)
    ensures AllBelow(g, rank, bound, []) && LiveOnly(g, []) == []
    ensures VisitAll(g, rank, bound, plan, []) == plan && ConeAll(g, rank, bound, []) == {}
  {
    hide Ranked;
  }

  /** The list in place has the sources of the graph, finished ones apart. */
  lemma SameSources(g: Graph, rank: Ranks, plan: seq<Node>, mixes: Chains, done: set<Node>, n: Node)
    requires Midway(g, rank, plan, mixes, done, RankOf(rank, n)) && n in g && n in rank
    requires Ranked(g, rank) && AllBelow(g, rank, rank[n], g[n].mix)
    ensures n in mixes && AllBelow(g, rank, rank[n], mixes[n])
    ensures VisitAll(g, rank, rank[n], plan, mixes[n]) == VisitAll(g, rank, rank[n], plan, g[n].mix)
    ensures ConeAll(g, rank, rank[n], mixes[n]) == ConeAll(g, rank, rank[n], g[n].mix)
    ensures LiveOnly(g, mixes[n]) == LiveOnly(g, g[n].mix)
    ensures n in done ==> mixes[n] == LiveOnly(g, g[n].mix)
  {
    hide Ranked;
    hide Good;
    hide VisitAll;
    hide ConeAll;
    hide LiveOnly;
    hide Reaching;
    VisitLiveOnly(g, rank, rank[n], plan, g[n].mix);
    LiveOnlyTwice(g, g[n].mix);
  }

  lemma NextSource(g: Graph, rank: Ranks, bound: nat, plan: seq<Node>, rest: seq<Node>)
    requires Ranked(g, rank) && rest != [] && AllBelow(g, rank, bound, rest)
    ensures rest[0] in g && rest[0] in rank && rank[rest[0]] < bound && AllBelow(g, rank, bound, rest[1..])
    ensures VisitAll(g, rank, bound, plan, rest) == VisitAll(g, rank, bound, Visit(g, rank, plan, rest[0]), rest[1..])
    ensures ConeAll(g, rank, bound, rest) == Cone(g, rank, rest[0]) + ConeAll(g, rank, bound, rest[1..])
    ensures LiveOnly(g, rest) == (if g[rest[0]].live then [rest[0]] else []) + LiveOnly(g, rest[1..])
    ensures !g[rest[0]].live ==>
              && VisitAll(g, rank, bound, plan, rest) == VisitAll(g, rank, bound, plan, rest[1..])
              && ConeAll(g, rank, bound, rest) == ConeAll(g, rank, bound, rest[1..])
              && LiveOnly(g, rest) == LiveOnly(g, rest[1..])
  {
    hide Ranked;
    assert [] + LiveOnly(g, rest[1..]) == LiveOnly(g, rest[1..]);
  }

  lemma MidwayAt(g: Graph, rank: Ranks, plan: seq<Node>, mixes: Chains, done: set<Node>, bound: nat, n: Node,
                 xs: seq<Node>)
    requires Midway(g, rank, plan, mixes, done, bound) && n in g && n in rank && rank[n] >= bound && n !in done
    ensures Midway(g, rank, plan, mixes[n := xs], done, bound)
  {
    hide Ranked;
    hide Good;
    hide Reaching;
    hide LiveOnly;
  }

  lemma NotOwnSource(g: Graph, rank: Ranks, n: Node, source: Node)
    requires Ranked(g, rank) && n in g && source in g && n in rank && source in rank && rank[source] < rank[n]
    ensures n !in Cone(g, rank, source)
  {
    hide Ranked;
    hide Cone;
    if n in Cone(g, rank, source) {
      ConeRanks(g, rank, source, n);
    }
  }

  lemma PruneAround(g: Graph, mixes: Chains, s: set<Node>, t: set<Node>, n: Node, xs: seq<Node>)
    requires n in mixes && n !in t
    ensures Prune(g, Prune(g, mixes, s)[n := xs], t) == Prune(g, mixes, s + t)[n := xs]
  {
    hide LiveOnly;
  }

  lemma PruneLast(g: Graph, mixes: Chains, s: set<Node>, n: Node)
    requires n in mixes && n in g
    ensures Prune(g, mixes, s)[n := LiveOnly(g, g[n].mix)] == Prune(g, mixes, s + {n})
  {
    hide LiveOnly;
  }
}
