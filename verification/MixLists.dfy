/** The mix lists of the audio graph (engine/engine_core.c): chains through `mix_head` and `mix_next`,
    no two of which share a node, and what unlinking one source does to them. */
module MixLists {
  import opened Nodes
  import opened NodeList

  datatype Links = Links(head: Node?, next: Node?)

  type Chains = map<Node, seq<Node>>

  function FirstOf(xs: seq<Node>): Node? {
    if xs == [] then null else xs[0]
  }

  /** The chain of `n` is `xs`. */
  predicate Chain(s: map<Node, Links>, n: Node, xs: seq<Node>) {
    && n in s && s[n].head == FirstOf(xs)
    && forall i :: 0 <= i < |xs| ==> xs[i] in s && s[xs[i]].next == NextIn(xs, i)
  }

  predicate AllChains(s: map<Node, Links>, mixes: Chains) {
    forall n :: n in mixes ==> Chain(s, n, mixes[n])
  }

  /** No node is in two places. */
  predicate Disjoint(mixes: Chains) {
    && (forall n :: n in mixes ==> Distinct(mixes[n]))
    && (forall n, m, x :: n in mixes && m in mixes && n != m && x in mixes[n] ==> x !in mixes[m])
  }

  /** `*link = source->mix_next; source->mix_next = NULL` after the sources `kept`. */
  ghost predicate Unlinked(s: map<Node, Links>, s': map<Node, Links>, n: Node, kept: seq<Node>, source: Node,
                           rest: seq<Node>) {
    && n in s && n in s' && source in s && source in s'
    && (kept != [] ==> kept[|kept| - 1] in s && kept[|kept| - 1] in s')
    && s'[n].head == (if kept == [] then FirstOf(rest) else s[n].head)
    && (kept != [] ==> s'[kept[|kept| - 1]].next == FirstOf(rest))
    && s'[source].next == null
    && (forall m :: m in s && m != n ==> m in s' && s'[m].head == s[m].head)
    && (forall m :: m in s && m != source && (kept == [] || m != kept[|kept| - 1]) ==>
                      m in s' && s'[m].next == s[m].next)
  }

  lemma DistinctShorter(kept: seq<Node>, source: Node, rest: seq<Node>)
    requires Distinct(kept + [source] + rest)
    ensures Distinct(kept + rest) && source !in kept + rest
  {
    var was, xs, k := kept + [source] + rest, kept + rest, |kept|;
    assert was[k] == source;
    forall i | 0 <= i < |xs| ensures xs[i] == was[if i < k then i else i + 1] && xs[i] != source {
    }
  }

  /** The successors in the shorter list. */
  lemma ShorterNext(kept: seq<Node>, source: Node, rest: seq<Node>, i: nat)
    requires i < |kept + rest|
    ensures var was, k := kept + [source] + rest, |kept|;
            var j := if i < k then i else i + 1;
            && (kept + rest)[i] == was[j]
            && NextIn(kept + rest, i) == if i == k - 1 then FirstOf(rest) else NextIn(was, j)
  {
  }

  lemma UnlinkedChain(s: map<Node, Links>, s': map<Node, Links>, n: Node, kept: seq<Node>, source: Node,
                      rest: seq<Node>)
    requires Chain(s, n, kept + [source] + rest) && Distinct(kept + [source] + rest)
    requires Unlinked(s, s', n, kept, source, rest)
    ensures Chain(s', n, kept + rest) && Distinct(kept + rest)
  {
    hide NextIn;
    var was, xs, k := kept + [source] + rest, kept + rest, |kept|;
    DistinctShorter(kept, source, rest);
    forall i | 0 <= i < |xs| ensures xs[i] in s' && s'[xs[i]].next == NextIn(xs, i) {
      ShorterNext(kept, source, rest, i);
      assert xs[i] in xs;
      var j := if i < k then i else i + 1;
      assert s[was[j]].next == NextIn(was, j);
      if k > 0 && i != k - 1 {
        assert was[k - 1] == kept[k - 1];
      }
    }
    assert FirstOf(kept + rest) == if kept == [] then FirstOf(rest) else FirstOf(was);
  }

  lemma OtherChain(s: map<Node, Links>, s': map<Node, Links>, n: Node, kept: seq<Node>, source: Node, rest: seq<Node>,
                   m: Node, xs: seq<Node>)
    requires Chain(s, m, xs) && m != n && Unlinked(s, s', n, kept, source, rest)
    requires forall x :: x in xs ==> x != source && x !in kept
    ensures Chain(s', m, xs)
  {
    forall i | 0 <= i < |xs| ensures xs[i] in s' && s'[xs[i]].next == NextIn(xs, i) {
      assert xs[i] in xs;
      if kept != [] {
        assert kept[|kept| - 1] in kept;
      }
    }
  }

  /** After unlinking a source every chain is right again, and still no two share a node. */
  lemma UnlinkKeeps(s: map<Node, Links>, s': map<Node, Links>, mixes: Chains, n: Node, kept: seq<Node>, source: Node,
                    rest: seq<Node>)
    requires AllChains(s, mixes) && Disjoint(mixes) && n in mixes && mixes[n] == kept + [source] + rest
    requires Unlinked(s, s', n, kept, source, rest)
    ensures AllChains(s', mixes[n := kept + rest]) && Disjoint(mixes[n := kept + rest])
  {
    hide Chain;
    hide Distinct;
    hide Unlinked;
    var mixes' := mixes[n := kept + rest];
    UnlinkedChain(s, s', n, kept, source, rest);
    assert source in mixes[n] && forall x :: x in kept ==> x in mixes[n];
    forall m | m in mixes' ensures Chain(s', m, mixes'[m]) {
      if m != n {
        OtherChain(s, s', n, kept, source, rest, m, mixes[m]);
      }
    }
    assert forall b, x :: b in mixes' && x in mixes'[b] ==> x in mixes[b];
  }
}
