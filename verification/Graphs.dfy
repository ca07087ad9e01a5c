/**
  Building and validating an agent graph (agent/graph.go) and routing through it.

  The builder records the first mistake and otherwise changes its maps in place; Compile checks the
  collected shape and hands it on.
 */
module Graphs {
  import opened Outcomes
  import opened Values
  import opened Channels

  const START := "__start__"
  const END := "__end__"

  /** A node reads the state and answers with the channels it updates, or fails. */
  type NodeFunc = State -> Result<State, string>

  /** A router reads the state and answers with a routing key, or fails. */
  type RouterFunc = State -> Result<string, string>

  datatype Conditional = Conditional(router: RouterFunc, mapping: map<string, string>)

  datatype BuildError =
    | InvalidName(name: string)
    | DuplicateNode(name: string)
    | NilFunction(name: string)
    | AlreadyConditional(src: string)
    | AlreadyStatic(src: string)
    | NeedsRouterAndMapping(src: string)
    | NoNodes
    | UndefinedEntry(name: string)
    | UnknownSource(src: string)
    | UnknownTarget(src: string, dst: string)

  /** The content of a builder. */
  datatype Shape = Shape(
    name: string,
    nodes: map<string, NodeFunc>,
    order: seq<string>,
    edges: map<string, string>,
    conds: map<string, Conditional>,
    reducers: Reducers,
    entry: string,
    err: Option<BuildError>)

  datatype CompiledGraph = CompiledGraph(
    name: string,
    nodes: map<string, NodeFunc>,
    order: seq<string>,
    edges: map<string, string>,
    conds: map<string, Conditional>,
    reducers: Reducers,
    entry: string)

  // ---------- builder calls ----------

  datatype BuildCall =
    | AddNode(name: string, fn: Option<NodeFunc>)
    | AddEdge(src: string, dst: string)
    | AddConditionalEdge(src: string, router: Option<RouterFunc>, mapping: map<string, string>)
    | SetEntry(name: string)
    | WithReducer(channel: string, reducer: Reducer)

  function Failed(s: Shape, e: BuildError): Shape
  {
    if s.err == None then s.(err := Some(e)) else s
  }

  function Build(s: Shape, call: BuildCall): Shape
  {
    match call
    case AddNode(name, fn) =>
      if name in ["", START, END] then Failed(s, InvalidName(name))
      else if name in s.nodes then Failed(s, DuplicateNode(name))
      else if fn == None then Failed(s, NilFunction(name))
      else s.(nodes := s.nodes[name := fn.value], order := s.order + [name])
    case AddEdge(src, dst) =>
      if src == START then s.(entry := dst)
      else if src in s.conds then Failed(s, AlreadyConditional(src))
      else s.(edges := s.edges[src := dst])
    case AddConditionalEdge(src, router, mapping) =>
      if router == None || mapping == map[] then Failed(s, NeedsRouterAndMapping(src))
      else if src in s.edges then Failed(s, AlreadyStatic(src))
      else s.(conds := s.conds[src := Conditional(router.value, mapping)])
    case SetEntry(name) => s.(entry := name)
    case WithReducer(channel, reducer) => s.(reducers := s.reducers[channel := reducer])
  }

  function BuildAll(s: Shape, calls: seq<BuildCall>): Shape
  {
    if calls == [] then s else Build(BuildAll(s, calls[..|calls| - 1]), calls[|calls| - 1])
  }

  function EmptyShape(name: string): Shape
  {
    Shape(name, map[], [], map[], map[], map[], "", None)
  }

  /** What every builder keeps: order lists the nodes once each, and no source routes both ways. */
  ghost predicate ShapeOk(s: Shape)
  {
    && DistinctKeys(s.order, s.nodes.Keys)
    && "" !in s.nodes && START !in s.nodes && END !in s.nodes
    && s.edges.Keys !! s.conds.Keys
    && (forall n :: n in s.conds ==> s.conds[n].mapping != map[])
  }

  lemma AddNodeKeepsShape(s: Shape, name: string, fn: Option<NodeFunc>)
    requires ShapeOk(s)
    ensures ShapeOk(Build(s, AddNode(name, fn)))
  {
    if name !in ["", START, END] && name !in s.nodes && fn != None {
      DistinctKeysGrow(s.order, s.nodes.Keys, name);
      assert s.nodes.Keys + {name} == s.nodes[name := fn.value].Keys;
    }
  }

  lemma AddCondKeepsShape(s: Shape, src: string, router: Option<RouterFunc>, mapping: map<string, string>)
    requires ShapeOk(s)
    ensures ShapeOk(Build(s, AddConditionalEdge(src, router, mapping)))
  {
  }

  lemma BuildKeepsShape(s: Shape, call: BuildCall)
    requires ShapeOk(s)
    ensures ShapeOk(Build(s, call))
  {
    match call
    case AddNode(name, fn) => AddNodeKeepsShape(s, name, fn);
    case AddConditionalEdge(src, router, mapping) => AddCondKeepsShape(s, src, router, mapping);
    case _ =>
  }

  lemma {:induction false} BuildersAreShaped(name: string, calls: seq<BuildCall>)
    ensures ShapeOk(BuildAll(EmptyShape(name), calls))
  {
    if calls != [] {
      BuildersAreShaped(name, calls[..|calls| - 1]);
      BuildKeepsShape(BuildAll(EmptyShape(name), calls[..|calls| - 1]), calls[|calls| - 1]);
    }
  }

  // ---------- validation ----------

  function EntryOf(s: Shape): string
  {
    if s.entry == "" && s.order != [] then s.order[0] else s.entry
  }

  predicate ValidTarget(s: Shape, t: string)
  {
    t in s.nodes || t == END
  }

  predicate EdgesValid(s: Shape)
  {
    forall src :: src in s.edges ==> src in s.nodes && ValidTarget(s, s.edges[src])
  }

  predicate MappingValid(s: Shape, mapping: map<string, string>)
  {
    forall key :: key in mapping ==> ValidTarget(s, mapping[key])
  }

  predicate CondsValid(s: Shape)
  {
    forall src :: src in s.conds ==> src in s.nodes && MappingValid(s, s.conds[src].mapping)
  }

  predicate Compilable(s: Shape)
  {
    s.err == None && s.nodes != map[] && EntryOf(s) in s.nodes && EdgesValid(s) && CondsValid(s)
  }

  function CompiledOf(s: Shape): CompiledGraph
  {
    CompiledGraph(s.name, s.nodes, s.order, s.edges, s.conds, s.reducers, EntryOf(s))
  }

  /** The error reported is one the shape really has. */
  predicate Explains(s: Shape, e: BuildError)
  {
    || s.err == Some(e)
    || (e == NoNodes && s.nodes == map[])
    || (e == UndefinedEntry(EntryOf(s)) && EntryOf(s) !in s.nodes)
    || (e.UnknownSource? && (e.src in s.edges || e.src in s.conds) && e.src !in s.nodes)
    || (e.UnknownTarget? && e.src in s.edges && s.edges[e.src] == e.dst && !ValidTarget(s, e.dst))
    || (e.UnknownTarget? && e.src in s.conds && e.dst in s.conds[e.src].mapping.Values && !ValidTarget(s, e.dst))
  }

  /** A graph a run can rely on: the entry and every target exist, and no source routes both ways. */
  ghost predicate Sound(cg: CompiledGraph)
  {
    && DistinctKeys(cg.order, cg.nodes.Keys)
    && END !in cg.nodes && "" !in cg.nodes
    && cg.entry in cg.nodes
    && cg.edges.Keys !! cg.conds.Keys
    && (forall src :: src in cg.edges ==> src in cg.nodes && (cg.edges[src] in cg.nodes || cg.edges[src] == END))
    && (forall src :: src in cg.conds ==> src in cg.nodes && cg.conds[src].mapping != map[])
    && (forall src, key :: src in cg.conds && key in cg.conds[src].mapping ==>
          cg.conds[src].mapping[key] in cg.nodes || cg.conds[src].mapping[key] == END)
  }

  /** Whatever was called on the builder, a graph that compiles is sound. */
  lemma CompiledGraphsAreSound(name: string, calls: seq<BuildCall>)
    requires Compilable(BuildAll(EmptyShape(name), calls))
    ensures Sound(CompiledOf(BuildAll(EmptyShape(name), calls)))
  {
    BuildersAreShaped(name, calls);
    var s := BuildAll(EmptyShape(name), calls);
    forall src, key | src in s.conds && key in s.conds[src].mapping
      ensures ValidTarget(s, s.conds[src].mapping[key])
    {
      assert MappingValid(s, s.conds[src].mapping);
    }
  }

  // ---------- the builder object ----------

  class Graph {
    const name: string
    var nodes: map<string, NodeFunc>
    var order: seq<string>
    var edges: map<string, string>
    var conds: map<string, Conditional>
    var reducers: Reducers
    var entry: string
    var err: Option<BuildError>

    ghost function Content(): Shape
      reads this
    {
      Shape(name, nodes, order, edges, conds, reducers, entry, err)
    }

    constructor (name: string)
      ensures Content() == EmptyShape(name)
    {
      this.name := name;
      nodes, order, edges, conds, reducers := map[], [], map[], map[], map[];
      entry, err := "", None;
    }

    method Fail(e: BuildError)
      modifies this
      ensures Content() == Failed(old(Content()), e)
    {
      if err == None {
        err := Some(e);
      }
    }

    method AddNode(name: string, fn: Option<NodeFunc>)
      modifies this
      ensures Content() == Build(old(Content()), BuildCall.AddNode(name, fn))
    {
      if name == "" || name == START || name == END {
        Fail(InvalidName(name));
      } else if name in nodes {
        Fail(DuplicateNode(name));
      } else if fn.None? {
        Fail(NilFunction(name));
      } else {
        nodes := nodes[name := fn.value];
        order := order + [name];
      }
    }

    method AddEdge(src: string, dst: string)
      modifies this
      ensures Content() == Build(old(Content()), BuildCall.AddEdge(src, dst))
    {
      if src == START {
        entry := dst;
      } else if src in conds {
        Fail(AlreadyConditional(src));
      } else {
        edges := edges[src := dst];
      }
    }

    method AddConditionalEdge(src: string, router: Option<RouterFunc>, mapping: map<string, string>)
      modifies this
      ensures Content() == Build(old(Content()), BuildCall.AddConditionalEdge(src, router, mapping))
    {
      if router.None? || |mapping| == 0 {
        assert |mapping| == 0 ==> mapping == map[];
        Fail(NeedsRouterAndMapping(src));
      } else if src in edges {
        Fail(AlreadyStatic(src));
      } else {
        conds := conds[src := Conditional(router.value, mapping)];
      }
    }

    method SetEntry(name: string)
      modifies this
      ensures Content() == Build(old(Content()), BuildCall.SetEntry(name))
    {
      entry := name;
    }

    method WithReducer(channel: string, reducer: Reducer)
      modifies this
      ensures Content() == Build(old(Content()), BuildCall.WithReducer(channel, reducer))
    {
      reducers := reducers[channel := reducer];
    }

    /** Validates in the order the checks stand, visiting each map in an arbitrary order. */
    method Compile() returns (r: Result<CompiledGraph, BuildError>)
      requires ShapeOk(Content())
      ensures r.Ok? <==> Compilable(Content())
      ensures r.Ok? ==> r.value == CompiledOf(Content())
      ensures r.Err? ==> Explains(Content(), r.error)
      ensures Content().err.Some? ==> r == Err(Content().err.value)
    {
      ghost var s := Content();
      if err.Some? {
        return Err(err.value);
      }
      if nodes.Keys == {} {
        assert nodes == map[];
        return Err(NoNodes);
      }
      var start := entry;
      if start == "" {
        assert order != [] by {
          var n :| n in nodes;
          assert n in order;
        }
        start := order[0];
      }
      assert start == EntryOf(s);
      if start !in nodes {
        return Err(UndefinedEntry(start));
      }
      var todo := edges.Keys;
      while todo != {}
        invariant todo <= edges.Keys
        invariant forall src :: src in edges && src !in todo ==> src in nodes && ValidTarget(s, edges[src])
        decreases todo
      {
        var src :| src in todo;
        if src !in nodes {
          return Err(UnknownSource(src));
        }
        if !(edges[src] in nodes || edges[src] == END) {
          return Err(UnknownTarget(src, edges[src]));
        }
        todo := todo - {src};
      }
      todo := conds.Keys;
      while todo != {}
        invariant todo <= conds.Keys
        invariant forall src :: src in conds && src !in todo ==> src in nodes && MappingValid(s, conds[src].mapping)
        decreases todo
      {
        var src :| src in todo;
        if src !in nodes {
          return Err(UnknownSource(src));
        }
        var bad := CheckMapping(conds[src].mapping);
        if bad.Some? {
          return Err(UnknownTarget(src, bad.value));
        }
        todo := todo - {src};
      }
      return Ok(CompiledGraph(name, nodes, order, edges, conds, reducers, start));
    }

    /** The first invalid target met in a mapping, if it has any. */
    method CheckMapping(mapping: map<string, string>) returns (bad: Option<string>)
      ensures bad.None? <==> MappingValid(Content(), mapping)
      ensures bad.Some? ==> bad.value in mapping.Values && !ValidTarget(Content(), bad.value)
    {
      var todo := mapping.Keys;
      while todo != {}
        invariant todo <= mapping.Keys
        invariant forall key :: key in mapping && key !in todo ==> ValidTarget(Content(), mapping[key])
        decreases todo
      {
        var key :| key in todo;
        if !(mapping[key] in nodes || mapping[key] == END) {
          return Some(mapping[key]);
        }
        todo := todo - {key};
      }
      return None;
    }
  }

  // ---------- routing ----------

  datatype RunError =
    | MaxSteps(limit: nat)
    | NoFunction(node: string)
    | NodeFailed(node: string, reason: string)
    | RouterFailed(node: string, reason: string)
    | UnmappedKey(node: string, key: string)

  /** The node to run after src, or END. */
  function Next(cg: CompiledGraph, src: string, state: State): Result<string, RunError>
  {
    if src in cg.edges then Ok(cg.edges[src])
    else if src in cg.conds then
      match cg.conds[src].router(state)
      case Err(reason) => Err(RouterFailed(src, reason))
      case Ok(key) =>
        if key in cg.conds[src].mapping then Ok(cg.conds[src].mapping[key]) else Err(UnmappedKey(src, key))
    else Ok(END)
  }

  /** Where a node leads if its router, should it have one, answers key. */
  function RouteOn(cg: CompiledGraph, src: string, key: string): Option<string>
  {
    if src in cg.edges then Some(cg.edges[src])
    else if src !in cg.conds then Some(END)
    else if key in cg.conds[src].mapping then Some(cg.conds[src].mapping[key])
    else None
  }

  /** Where a routing key leads: along the static edge, to what the key is mapped to, or to the end. */
  lemma RouteOnReads(cg: CompiledGraph, src: string, key: string)
    ensures src in cg.edges ==> RouteOn(cg, src, key) == Some(cg.edges[src])
    ensures src !in cg.edges && src !in cg.conds ==> RouteOn(cg, src, key) == Some(END)
    ensures src !in cg.edges && src in cg.conds ==>
              var mapping := cg.conds[src].mapping;
              if key in mapping then RouteOn(cg, src, key) == Some(mapping[key]) else RouteOn(cg, src, key) == None
  {
  }

  /** The node's router, if it has one that counts, and what it answers to a state. */
  ghost predicate RouterAnswers(cg: CompiledGraph, src: string, s: State, answer: Result<string, string>)
  {
    src !in cg.edges && src in cg.conds && cg.conds[src].router(s) == answer
  }

  /** Routing from src on state s leads to dst: by the static edge, by the router's own key, or to the end. */
  ghost predicate Leads(cg: CompiledGraph, src: string, s: State, dst: string)
  {
    || (src in cg.edges && dst == cg.edges[src])
    || (src !in cg.edges && src !in cg.conds && dst == END)
    || (exists key :: RouterAnswers(cg, src, s, Ok(key))
          && key in cg.conds[src].mapping && dst == cg.conds[src].mapping[key])
  }

  /** Routing from src on state s stops with an error: the router fails, or answers a key that is not mapped. */
  ghost predicate StopsRouting(cg: CompiledGraph, src: string, s: State, e: RunError)
  {
    || (e.RouterFailed? && e.node == src && RouterAnswers(cg, src, s, Err(e.reason)))
    || (e.UnmappedKey? && e.node == src && RouterAnswers(cg, src, s, Ok(e.key)) && e.key !in cg.conds[src].mapping)
  }

  /**
    Next goes where the router's own answer leads, and stops exactly if the router fails or its key is
    not mapped.
   */
  lemma NextFollowsTheRouter(cg: CompiledGraph, src: string, s: State)
    ensures forall dst :: Next(cg, src, s) == Ok(dst) <==> Leads(cg, src, s, dst)
    ensures forall e :: Next(cg, src, s) == Err(e) <==> StopsRouting(cg, src, s, e)
    ensures forall key :: RouterAnswers(cg, src, s, Ok(key)) ==>
              Next(cg, src, s) == match RouteOn(cg, src, key)
                                  case Some(dst) => Ok(dst)
                                  case None => Err(UnmappedKey(src, key))
  {
    if src !in cg.edges && src in cg.conds {
      var answer := cg.conds[src].router(s);
      assert RouterAnswers(cg, src, s, answer);
    }
  }

  /** In a sound graph routing never leaves the graph. */
  lemma NextStaysInside(cg: CompiledGraph, src: string, state: State)
    requires Sound(cg) && Next(cg, src, state).Ok?
    ensures Next(cg, src, state).value in cg.nodes || Next(cg, src, state).value == END
    ensures exists key :: RouteOn(cg, src, key) == Some(Next(cg, src, state).value)
  {
    if src !in cg.edges && src in cg.conds {
      var key := cg.conds[src].router(state).value;
      assert RouteOn(cg, src, key) == Some(Next(cg, src, state).value);
    } else {
      assert RouteOn(cg, src, "") == Some(Next(cg, src, state).value);
    }
  }

  function RunNode(cg: CompiledGraph, name: string, state: State): Result<State, RunError>
  {
    if name !in cg.nodes then Err(NoFunction(name)) else
    match cg.nodes[name](state)
    case Ok(updates) => Ok(updates)
    case Err(reason) => Err(NodeFailed(name, reason))
  }
}
