/**
  The static description of a compiled graph (agent/config.go) and why it is exact: it lists what
  routing can do, and it does not depend on the order in which a mapping is visited.
 */
module Description {
  import opened Outcomes
  import opened Values
  import opened Channels
  import opened Graphs
  import opened Ordering

  datatype EdgeConfig = EdgeConfig(source: string, target: string, conditional: bool, targets: seq<string>)

  datatype GraphConfig = GraphConfig(
    name: string,
    nodes: seq<string>,
    edges: seq<EdgeConfig>,
    entry: string,
    finishPoints: seq<string>)

  // ---------- the targets of a mapping ----------

  ghost function Pick(m: map<string, string>): (k: string)
    requires m != map[]
    ensures k in m
  {
    var k :| k in m;
    k
  }

  /** The values of a mapping with their multiplicity, in some order. */
  ghost function ValuesOf(m: map<string, string>): seq<string>
    decreases m.Keys
  {
    if m == map[] then [] else ValuesOf(m - {Pick(m)}) + [m[Pick(m)]]
  }

  ghost function Bag(m: map<string, string>): multiset<string>
    decreases m.Keys
  {
    if m == map[] then multiset{} else Bag(m - {Pick(m)}) + multiset{m[Pick(m)]}
  }

  lemma {:induction false} ValuesMakeTheBag(m: map<string, string>)
    ensures multiset(ValuesOf(m)) == Bag(m)
    decreases m.Keys
  {
    if m != map[] {
      ValuesMakeTheBag(m - {Pick(m)});
    }
  }

  /** The bag of values does not depend on the order in which the keys are visited. */
  lemma {:induction false} BagInAnyOrder(m: map<string, string>, k: string)
    requires k in m
    ensures Bag(m) == Bag(m - {k}) + multiset{m[k]}
    decreases m.Keys
  {
    var p := Pick(m);
    if p != k {
      var mp, mk := m - {p}, m - {k};
      var mpk := mp - {k};
      assert mk - {p} == mpk;
      assert Bag(mp) == Bag(mpk) + multiset{m[k]} by { BagInAnyOrder(mp, k); }
      assert Bag(mk) == Bag(mpk) + multiset{m[p]} by { BagInAnyOrder(mk, p); }
      assert Bag(m) == Bag(mp) + multiset{m[p]};
    }
  }

  lemma {:induction false} ValuesAreValues(m: map<string, string>, v: string)
    ensures v in ValuesOf(m) <==> v in m.Values
    decreases m.Keys
  {
    if m != map[] {
      var p := Pick(m);
      ValuesAreValues(m - {p}, v);
      assert forall k :: k in m <==> k == p || k in m - {p};
    }
  }

  /** How many keys of a mapping lead to v. */
  ghost function KeysTo(m: map<string, string>, v: string): set<string>
  {
    set k | k in m && m[k] == v
  }

  lemma KeysToOneMore(m: map<string, string>, k: string, v: string)
    requires k in m
    ensures |KeysTo(m, v)| == |KeysTo(m - {k}, v)| + if m[k] == v then 1 else 0
  {
    var rest := KeysTo(m - {k}, v);
    assert k !in rest;
    assert KeysTo(m, v) == if m[k] == v then rest + {k} else rest;
  }

  /** A target is collected once for every key that leads to it. */
  lemma {:induction false} BagCountsKeys(m: map<string, string>, v: string)
    ensures Bag(m)[v] == |KeysTo(m, v)|
    decreases m.Keys
  {
    if m == map[] {
      assert KeysTo(m, v) == {};
    } else {
      BagCountsKeys(m - {Pick(m)}, v);
      KeysToOneMore(m, Pick(m), v);
    }
  }

  ghost function SortedTargets(m: map<string, string>): seq<string>
  {
    Sort(ValuesOf(m))
  }

  // ---------- the description ----------

  ghost function EdgesOf(cg: CompiledGraph, n: string): seq<EdgeConfig>
  {
    if n in cg.edges && cg.edges[n] != "" then [EdgeConfig(n, cg.edges[n], false, [])]
    else if n in cg.conds then [EdgeConfig(n, "", true, SortedTargets(cg.conds[n].mapping))]
    else []
  }

  predicate Finishes(cg: CompiledGraph, n: string)
  {
    if n in cg.edges && cg.edges[n] != "" then cg.edges[n] == END
    else n in cg.conds ==> END in cg.conds[n].mapping.Values
  }

  ghost function AllEdges(cg: CompiledGraph, order: seq<string>): seq<EdgeConfig>
  {
    if order == [] then []
    else AllEdges(cg, order[..|order| - 1]) + EdgesOf(cg, order[|order| - 1])
  }

  function FinishPoints(cg: CompiledGraph, order: seq<string>): seq<string>
  {
    if order == [] then [] else
    var last := order[|order| - 1];
    FinishPoints(cg, order[..|order| - 1]) + if Finishes(cg, last) then [last] else []
  }

  ghost function Described(cg: CompiledGraph): GraphConfig
  {
    GraphConfig(cg.name, cg.order, AllEdges(cg, cg.order), cg.entry, FinishPoints(cg, cg.order))
  }

  /** The targets of a mapping, collected in an arbitrary order and then sorted. */
  method CollectTargets(mapping: map<string, string>) returns (targets: seq<string>, finish: bool)
    ensures targets == SortedTargets(mapping)
    ensures Sorted(targets) && forall v :: multiset(targets)[v] == |KeysTo(mapping, v)|
    ensures finish <==> END in mapping.Values
  {
    targets, finish := [], false;
    var rest := mapping;
    while rest.Keys != {}
      invariant rest.Keys <= mapping.Keys
      invariant forall k :: k in rest ==> rest[k] == mapping[k]
      invariant multiset(targets) + Bag(rest) == Bag(mapping)
      invariant finish <==> END in targets
      decreases rest.Keys
    {
      var k :| k in rest.Keys;
      BagInAnyOrder(rest, k);
      targets := targets + [rest[k]];
      finish := finish || rest[k] == END;
      rest := rest - {k};
    }
    assert rest == map[];
    ValuesMakeTheBag(mapping);
    assert multiset(targets) == multiset(ValuesOf(mapping));
    assert END in targets <==> END in ValuesOf(mapping) by {
      assert END in targets <==> END in multiset(targets);
      assert END in ValuesOf(mapping) <==> END in multiset(ValuesOf(mapping));
    }
    ValuesAreValues(mapping, END);
    SortSorts(targets);
    SortSorts(ValuesOf(mapping));
    SortedIsUnique(Sort(targets), SortedTargets(mapping));
    targets := Sort(targets);
    forall v ensures multiset(targets)[v] == |KeysTo(mapping, v)| { BagCountsKeys(mapping, v); }
  }

  /** One turn of the first loop: the edge entry of a node, and whether the node can finish. */
  method DescribeNode(cg: CompiledGraph, n: string) returns (edges: seq<EdgeConfig>, finish: bool)
    ensures edges == EdgesOf(cg, n)
    ensures finish == Finishes(cg, n)
  {
    if n in cg.edges && cg.edges[n] != "" {
      var dst := cg.edges[n];
      return [EdgeConfig(n, dst, false, [])], dst == END;
    }
    if n !in cg.conds {
      return [], true;
    }
    var targets, ends := CollectTargets(cg.conds[n].mapping);
    return [EdgeConfig(n, "", true, targets)], ends;
  }

  /** The first loop: every node with its edges, and which nodes can finish. */
  method DescribeNodes(cg: CompiledGraph)
    returns (nodes: seq<string>, edges: seq<EdgeConfig>, finish: map<string, bool>)
    ensures nodes == cg.order && edges == AllEdges(cg, cg.order)
    ensures forall n :: n in cg.order ==> n in finish && finish[n] == Finishes(cg, n)
  {
    nodes, edges, finish := [], [], map[];
    for i := 0 to |cg.order|
      invariant nodes == cg.order[..i]
      invariant edges == AllEdges(cg, cg.order[..i])
      invariant forall j :: 0 <= j < i ==> cg.order[j] in finish
      invariant forall n :: n in finish ==> finish[n] == Finishes(cg, n)
    {
      var n := cg.order[i];
      assert cg.order[..i + 1] == cg.order[..i] + [n];
      var more, ends := DescribeNode(cg, n);
      nodes := nodes + [n];
      edges := edges + more;
      finish := finish[n := ends];
    }
    assert cg.order[..|cg.order|] == cg.order;
  }

  /** Walks the nodes in insertion order; the result is determined although the mappings' order is not. */
  method Describe(cg: CompiledGraph) returns (cfg: GraphConfig)
    ensures cfg == Described(cg)
    ensures cfg.name == cg.name && cfg.entry == cg.entry && cfg.nodes == cg.order
  {
    var nodes, edges, finish := DescribeNodes(cg);
    var finishPoints: seq<string> := [];
    for i := 0 to |cg.order|
      invariant finishPoints == FinishPoints(cg, cg.order[..i])
    {
      var n := cg.order[i];
      assert cg.order[..i + 1] == cg.order[..i] + [n];
      if finish[n] {
        finishPoints := finishPoints + [n];
      }
    }
    assert cg.order[..|cg.order|] == cg.order;
    cfg := GraphConfig(cg.name, nodes, edges, cg.entry, finishPoints);
  }

  // ---------- the description is exact ----------

  /** Some answer of its router, if it has one, leads from n to END. */
  ghost predicate CanReturnEnd(cg: CompiledGraph, n: string)
  {
    exists key :: RouteOn(cg, n, key) == Some(END)
  }

  /** The members of order with a property, in order. */
  ghost function Keep(cg: CompiledGraph, order: seq<string>): seq<string>
  {
    if order == [] then [] else
    var last := order[|order| - 1];
    Keep(cg, order[..|order| - 1]) + if CanReturnEnd(cg, last) then [last] else []
  }

  lemma FinishesIffCanEnd(cg: CompiledGraph, n: string)
    requires Sound(cg)
    ensures Finishes(cg, n) <==> CanReturnEnd(cg, n)
  {
    if n in cg.edges {
      assert RouteOn(cg, n, "") == Some(cg.edges[n]);
    } else if n in cg.conds {
      var mapping := cg.conds[n].mapping;
      if END in mapping.Values {
        var key :| key in mapping && mapping[key] == END;
        assert RouteOn(cg, n, key) == Some(END);
      }
    } else {
      assert RouteOn(cg, n, "") == Some(END);
    }
  }

  /** The finish points are the nodes that can lead to END, in insertion order. */
  lemma {:induction false} FinishPointsAreExact(cg: CompiledGraph, order: seq<string>)
    requires Sound(cg)
    ensures FinishPoints(cg, order) == Keep(cg, order)
  {
    if order != [] {
      FinishPointsAreExact(cg, order[..|order| - 1]);
      FinishesIffCanEnd(cg, order[|order| - 1]);
    }
  }

  /** A move the description announces: along a listed edge, or off a finish point without edges. */
  ghost predicate Announced(cfg: GraphConfig, src: string, dst: string)
  {
    || (exists e :: e in cfg.edges && e.source == src && (if e.conditional then dst in e.targets else dst == e.target))
    || (dst == END && src in cfg.finishPoints && forall e :: e in cfg.edges ==> e.source != src)
  }

  lemma {:induction false} EdgeMembers(cg: CompiledGraph, order: seq<string>, e: EdgeConfig)
    ensures e in AllEdges(cg, order) <==> exists n :: n in order && e in EdgesOf(cg, n)
  {
    if order != [] {
      var front, last := order[..|order| - 1], order[|order| - 1];
      EdgeMembers(cg, front, e);
      assert order == front + [last];
      assert forall n :: n in order <==> n in front || n == last;
    }
  }

  lemma {:induction false} FinishMembers(cg: CompiledGraph, order: seq<string>, n: string)
    ensures n in FinishPoints(cg, order) <==> n in order && Finishes(cg, n)
  {
    if order != [] {
      FinishMembers(cg, order[..|order| - 1], n);
      assert order == order[..|order| - 1] + [order[|order| - 1]];
    }
  }

  lemma TargetsAreValues(m: map<string, string>, v: string)
    ensures v in SortedTargets(m) <==> v in m.Values
  {
    SortSorts(ValuesOf(m));
    ValuesAreValues(m, v);
    assert v in SortedTargets(m) <==> v in multiset(SortedTargets(m));
    assert v in ValuesOf(m) <==> v in multiset(ValuesOf(m));
  }

  /** A node with one edge entry announces what that entry says. */
  lemma OneEdgeAnnounces(cg: CompiledGraph, src: string, dst: string, e: EdgeConfig)
    requires src in cg.order && EdgesOf(cg, src) == [e]
    ensures Announced(Described(cg), src, dst) <==> if e.conditional then dst in e.targets else dst == e.target
  {
    var cfg := Described(cg);
    EdgeMembers(cg, cg.order, e);
    assert e in EdgesOf(cg, src) && e.source == src;
    forall e' | e' in cfg.edges && e'.source == src ensures e' == e {
      EdgeMembers(cg, cg.order, e');
    }
  }

  lemma NoEdgeAnnounces(cg: CompiledGraph, src: string, dst: string)
    requires src in cg.order && src !in cg.edges && src !in cg.conds
    ensures Announced(Described(cg), src, dst) <==> dst == END
  {
    FinishMembers(cg, cg.order, src);
    forall e | e in Described(cg).edges ensures e.source != src {
      EdgeMembers(cg, cg.order, e);
    }
  }

  lemma RoutesOfConditional(cg: CompiledGraph, src: string, dst: string)
    requires src !in cg.edges && src in cg.conds
    ensures (exists key :: RouteOn(cg, src, key) == Some(dst)) <==> dst in SortedTargets(cg.conds[src].mapping)
  {
    var mapping := cg.conds[src].mapping;
    TargetsAreValues(mapping, dst);
    if dst in mapping.Values {
      var key :| key in mapping && mapping[key] == dst;
      assert RouteOn(cg, src, key) == Some(dst);
    }
  }

  /**
    The description announces a move exactly if some routing key makes it: every transition of every
    run is listed, and every listed transition is possible.
   */
  lemma DescriptionIsExact(cg: CompiledGraph, src: string, dst: string)
    requires Sound(cg) && src in cg.nodes
    ensures Announced(Described(cg), src, dst) <==> exists key :: RouteOn(cg, src, key) == Some(dst)
  {
    assert src in cg.order;
    if src in cg.edges {
      OneEdgeAnnounces(cg, src, dst, EdgeConfig(src, cg.edges[src], false, []));
      assert RouteOn(cg, src, "") == Some(cg.edges[src]);
    } else if src in cg.conds {
      OneEdgeAnnounces(cg, src, dst, EdgeConfig(src, "", true, SortedTargets(cg.conds[src].mapping)));
      RoutesOfConditional(cg, src, dst);
    } else {
      NoEdgeAnnounces(cg, src, dst);
      assert RouteOn(cg, src, "") == Some(END);
    }
  }

  /** So every step a run takes along a successful Next is announced. */
  lemma EveryTransitionIsAnnounced(cg: CompiledGraph, src: string, state: State)
    requires Sound(cg) && src in cg.nodes && Next(cg, src, state).Ok?
    ensures Announced(Described(cg), src, Next(cg, src, state).value)
  {
    NextStaysInside(cg, src, state);
    DescriptionIsExact(cg, src, Next(cg, src, state).value);
  }
}
