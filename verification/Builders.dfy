/**
  What a builder holds after a sequence of calls (agent/graph.go), said in terms of the calls alone: the
  last call about a place decides what is there, and a call is a mistake because of earlier calls.
 */
module Builders {
  import opened Outcomes
  import opened Channels
  import opened Graphs

  /** What a builder call is about. */
  datatype Place =
    | NodePlace(name: string)
    | EdgePlace(src: string)
    | CondPlace(src: string)
    | ReducerPlace(channel: string)
    | EntryPlace

  function PlaceOf(call: BuildCall): Place
  {
    match call
    case AddNode(name, _) => NodePlace(name)
    case AddEdge(src, _) => if src == START then EntryPlace else EdgePlace(src)
    case AddConditionalEdge(src, _, _) => CondPlace(src)
    case SetEntry(_) => EntryPlace
    case WithReducer(channel, _) => ReducerPlace(channel)
  }

  /** The last of the calls about its place. */
  ghost predicate LastAbout(calls: seq<BuildCall>, i: int)
  {
    0 <= i < |calls| && forall j :: i < j < |calls| ==> PlaceOf(calls[j]) != PlaceOf(calls[i])
  }

  /** A builder holds what a call asked for. */
  ghost predicate Holds(s: Shape, call: BuildCall)
  {
    match call
    case AddNode(name, fn) => fn.Some? && name in s.nodes && s.nodes[name] == fn.value
    case AddEdge(src, dst) => if src == START then s.entry == dst else src in s.edges && s.edges[src] == dst
    case AddConditionalEdge(src, router, mapping) =>
      router.Some? && src in s.conds && s.conds[src] == Conditional(router.value, mapping)
    case SetEntry(name) => s.entry == name
    case WithReducer(channel, reducer) => channel in s.reducers && s.reducers[channel] == reducer
  }

  /** A builder holds something at a place. */
  ghost predicate Occupied(s: Shape, place: Place)
  {
    match place
    case NodePlace(name) => name in s.nodes
    case EdgePlace(src) => src in s.edges
    case CondPlace(src) => src in s.conds
    case ReducerPlace(channel) => channel in s.reducers
    case EntryPlace => s.entry != ""
  }

  ghost predicate Mentions(calls: seq<BuildCall>, place: Place)
  {
    exists i :: 0 <= i < |calls| && PlaceOf(calls[i]) == place
  }

  /** A call is a mistake, given the calls before it. */
  ghost predicate Mistaken(before: seq<BuildCall>, call: BuildCall)
  {
    match call
    case AddNode(name, fn) =>
      name == "" || name == START || name == END || Mentions(before, NodePlace(name)) || fn.None?
    case AddEdge(src, dst) => src != START && Mentions(before, CondPlace(src))
    case AddConditionalEdge(src, router, mapping) =>
      router.None? || mapping == map[] || Mentions(before, EdgePlace(src))
    case _ => false
  }

  /** The error a mistaken call is remembered with. */
  ghost predicate Blames(before: seq<BuildCall>, call: BuildCall, e: BuildError)
  {
    match call
    case AddNode(name, fn) =>
      if name == "" || name == START || name == END then e == InvalidName(name)
      else if Mentions(before, NodePlace(name)) then e == DuplicateNode(name)
      else fn.None? && e == NilFunction(name)
    case AddEdge(src, dst) => e == AlreadyConditional(src)
    case AddConditionalEdge(src, router, mapping) =>
      if router.None? || mapping == map[] then e == NeedsRouterAndMapping(src) else e == AlreadyStatic(src)
    case _ => false
  }

  /** The names of the nodes added, in the order of the calls. */
  function AddedNames(calls: seq<BuildCall>): seq<string>
  {
    if calls == [] then [] else
    AddedNames(calls[..|calls| - 1]) +
      match calls[|calls| - 1] { case AddNode(name, _) => [name] case _ => [] }
  }

  // ---------- one more call ----------

  ghost predicate SameAt<V(!new)>(m: map<string, V>, m': map<string, V>, k: string)
  {
    (k in m <==> k in m') && (k in m ==> m[k] == m'[k])
  }

  /** Two builders hold the same at every place but one. */
  ghost predicate SameButAt(s: Shape, s': Shape, place: Place)
  {
    && s'.name == s.name
    && (forall n :: place != NodePlace(n) ==> SameAt(s.nodes, s'.nodes, n))
    && (forall src :: place != EdgePlace(src) ==> SameAt(s.edges, s'.edges, src))
    && (forall src :: place != CondPlace(src) ==> SameAt(s.conds, s'.conds, src))
    && (forall c :: place != ReducerPlace(c) ==> SameAt(s.reducers, s'.reducers, c))
    && (place != EntryPlace ==> s'.entry == s.entry)
  }

  /** One call that is no mistake: what it asks for is there, and every other place is as it was. */
  ghost predicate Heard(s: Shape, call: BuildCall)
  {
    var s' := Build(s, call);
    && s.err.None? && Holds(s', call) && SameButAt(s, s', PlaceOf(call))
    && s'.order == s.order + if call.AddNode? then [call.name] else []
  }

  lemma NodeIsHeard(s: Shape, name: string, fn: Option<NodeFunc>)
    requires Build(s, AddNode(name, fn)).err.None?
    ensures Heard(s, AddNode(name, fn))
  {
  }

  lemma EdgeIsHeard(s: Shape, src: string, dst: string)
    requires Build(s, AddEdge(src, dst)).err.None?
    ensures Heard(s, AddEdge(src, dst))
  {
  }

  lemma ConditionalIsHeard(s: Shape, src: string, router: Option<RouterFunc>, mapping: map<string, string>)
    requires Build(s, AddConditionalEdge(src, router, mapping)).err.None?
    ensures Heard(s, AddConditionalEdge(src, router, mapping))
  {
  }

  lemma CallIsHeard(s: Shape, call: BuildCall)
    requires Build(s, call).err.None?
    ensures Heard(s, call)
  {
    match call
    case AddNode(name, fn) => NodeIsHeard(s, name, fn);
    case AddEdge(src, dst) => EdgeIsHeard(s, src, dst);
    case AddConditionalEdge(src, router, mapping) => ConditionalIsHeard(s, src, router, mapping);
    case SetEntry(_) =>
    case WithReducer(_, _) =>
  }

  lemma OtherCallsStay(s: Shape, s': Shape, place: Place, earlier: BuildCall)
    requires SameButAt(s, s', place) && Holds(s, earlier) && PlaceOf(earlier) != place
    ensures Holds(s', earlier)
  {
    match earlier
    case AddNode(name, _) => assert SameAt(s.nodes, s'.nodes, name);
    case AddEdge(src, _) => assert src != START ==> SameAt(s.edges, s'.edges, src);
    case AddConditionalEdge(src, _, _) => assert SameAt(s.conds, s'.conds, src);
    case SetEntry(_) =>
    case WithReducer(channel, _) => assert SameAt(s.reducers, s'.reducers, channel);
  }

  lemma OtherPlacesStay(s: Shape, s': Shape, place: Place, other: Place)
    requires SameButAt(s, s', place) && other != place
    ensures Occupied(s', other) <==> Occupied(s, other)
  {
    match other
    case NodePlace(name) => assert SameAt(s.nodes, s'.nodes, name);
    case EdgePlace(src) => assert SameAt(s.edges, s'.edges, src);
    case CondPlace(src) => assert SameAt(s.conds, s'.conds, src);
    case ReducerPlace(channel) => assert SameAt(s.reducers, s'.reducers, channel);
    case EntryPlace =>
  }

  lemma HeldIsOccupied(s: Shape, call: BuildCall)
    requires Holds(s, call) && PlaceOf(call) != EntryPlace
    ensures Occupied(s, PlaceOf(call))
  {
  }

  lemma OneMoreMention(before: seq<BuildCall>, call: BuildCall, place: Place)
    ensures Mentions(before + [call], place) <==> Mentions(before, place) || PlaceOf(call) == place
  {
    var all := before + [call];
    assert all[|before|] == call;
    if Mentions(before, place) {
      var i :| 0 <= i < |before| && PlaceOf(before[i]) == place;
      assert PlaceOf(all[i]) == place;
    }
    if Mentions(all, place) {
      var i :| 0 <= i < |all| && PlaceOf(all[i]) == place;
      assert i < |before| ==> before[i] == all[i];
    }
  }

  /** As long as there was no mistake, places other than the entry are occupied exactly if a call was about them. */
  lemma {:induction false} OccupiedIffMentioned(name: string, calls: seq<BuildCall>, place: Place)
    requires BuildAll(EmptyShape(name), calls).err.None? && !place.EntryPlace?
    ensures Occupied(BuildAll(EmptyShape(name), calls), place) <==> Mentions(calls, place)
  {
    if calls != [] {
      var n := |calls| - 1;
      var s := BuildAll(EmptyShape(name), calls[..n]);
      CallIsHeard(s, calls[n]);
      OccupiedIffMentioned(name, calls[..n], place);
      if place == PlaceOf(calls[n]) {
        HeldIsOccupied(Build(s, calls[n]), calls[n]);
      } else {
        OtherPlacesStay(s, Build(s, calls[n]), PlaceOf(calls[n]), place);
      }
      OneMoreMention(calls[..n], calls[n], place);
      assert calls[..n] + [calls[n]] == calls;
    }
  }

  lemma MistakeIsBlamed(name: string, before: seq<BuildCall>, call: BuildCall)
    requires BuildAll(EmptyShape(name), before).err.None?
    ensures var err := Build(BuildAll(EmptyShape(name), before), call).err;
            && (err.Some? <==> Mistaken(before, call))
            && (err.Some? ==> Blames(before, call, err.value))
  {
    match call
    case AddNode(n, _) => OccupiedIffMentioned(name, before, NodePlace(n));
    case AddEdge(src, _) => OccupiedIffMentioned(name, before, CondPlace(src));
    case AddConditionalEdge(src, _, _) => OccupiedIffMentioned(name, before, EdgePlace(src));
    case _ =>
  }

  lemma FirstErrorStays(s: Shape, call: BuildCall)
    requires s.err.Some?
    ensures Build(s, call).err == s.err
  {
  }

  // ---------- all calls ----------

  /** The first mistake, if there is one, is the one remembered. */
  ghost predicate FirstMistake(calls: seq<BuildCall>, i: int)
  {
    && 0 <= i < |calls| && Mistaken(calls[..i], calls[i])
    && forall j :: 0 <= j < i ==> !Mistaken(calls[..j], calls[j])
  }

  lemma {:induction false} ErrorIsFirstMistake(name: string, calls: seq<BuildCall>)
    ensures var err := BuildAll(EmptyShape(name), calls).err;
            && (err.None? <==> forall j :: 0 <= j < |calls| ==> !Mistaken(calls[..j], calls[j]))
            && (err.Some? ==> exists i :: FirstMistake(calls, i) && Blames(calls[..i], calls[i], err.value))
  {
    if calls != [] {
      var n := |calls| - 1;
      var before := calls[..n];
      ErrorIsFirstMistake(name, before);
      forall j | 0 <= j < n ensures before[..j] == calls[..j] && before[j] == calls[j] {}
      var s := BuildAll(EmptyShape(name), before);
      if s.err.None? {
        MistakeIsBlamed(name, before, calls[n]);
        if Build(s, calls[n]).err.Some? {
          assert FirstMistake(calls, n);
        }
      } else {
        FirstErrorStays(s, calls[n]);
        var i :| FirstMistake(before, i) && Blames(before[..i], before[i], s.err.value);
        assert FirstMistake(calls, i) && Mistaken(calls[..i], calls[i]);
      }
    }
  }

  /** Without a mistake the last call about each place is what the builder holds there. */
  lemma {:induction false} LastCallIsHeld(name: string, calls: seq<BuildCall>, i: int)
    requires BuildAll(EmptyShape(name), calls).err.None? && LastAbout(calls, i)
    ensures Holds(BuildAll(EmptyShape(name), calls), calls[i])
  {
    var n := |calls| - 1;
    var s := BuildAll(EmptyShape(name), calls[..n]);
    CallIsHeard(s, calls[n]);
    if i < n {
      assert PlaceOf(calls[n]) != PlaceOf(calls[i]) && calls[..n][i] == calls[i];
      LastCallIsHeld(name, calls[..n], i);
      OtherCallsStay(s, Build(s, calls[n]), PlaceOf(calls[n]), calls[i]);
    }
  }

  lemma {:induction false} OrderIsAddedNames(name: string, calls: seq<BuildCall>)
    requires BuildAll(EmptyShape(name), calls).err.None?
    ensures BuildAll(EmptyShape(name), calls).order == AddedNames(calls)
    ensures !Mentions(calls, EntryPlace) ==> BuildAll(EmptyShape(name), calls).entry == ""
    ensures BuildAll(EmptyShape(name), calls).name == name
  {
    if calls != [] {
      var n := |calls| - 1;
      var s := BuildAll(EmptyShape(name), calls[..n]);
      CallIsHeard(s, calls[n]);
      OrderIsAddedNames(name, calls[..n]);
      OneMoreMention(calls[..n], calls[n], EntryPlace);
      assert calls[..n] + [calls[n]] == calls;
    }
  }

  /** Something is held at exactly the places some call was about. */
  ghost predicate HoldsWhatIsMentioned(s: Shape, calls: seq<BuildCall>)
  {
    && (forall n :: n in s.nodes <==> Mentions(calls, NodePlace(n)))
    && (forall src :: src in s.edges <==> Mentions(calls, EdgePlace(src)))
    && (forall src :: src in s.conds <==> Mentions(calls, CondPlace(src)))
    && (forall c :: c in s.reducers <==> Mentions(calls, ReducerPlace(c)))
    && (!Mentions(calls, EntryPlace) ==> s.entry == "")
  }

  lemma BuildersHoldWhatIsMentioned(name: string, calls: seq<BuildCall>)
    requires BuildAll(EmptyShape(name), calls).err.None?
    ensures HoldsWhatIsMentioned(BuildAll(EmptyShape(name), calls), calls)
  {
    var s := BuildAll(EmptyShape(name), calls);
    OrderIsAddedNames(name, calls);
    forall n ensures n in s.nodes <==> Mentions(calls, NodePlace(n)) {
      OccupiedIffMentioned(name, calls, NodePlace(n));
    }
    forall src ensures src in s.edges <==> Mentions(calls, EdgePlace(src)) {
      OccupiedIffMentioned(name, calls, EdgePlace(src));
    }
    forall src ensures src in s.conds <==> Mentions(calls, CondPlace(src)) {
      OccupiedIffMentioned(name, calls, CondPlace(src));
    }
    forall c ensures c in s.reducers <==> Mentions(calls, ReducerPlace(c)) {
      OccupiedIffMentioned(name, calls, ReducerPlace(c));
    }
  }

  /** What compiling makes of a builder's content. */
  lemma CompiledAsBuilt(s: Shape)
    requires Compilable(s) && ShapeOk(s)
    ensures var cg := CompiledOf(s);
            && s.err.None? && s.order != [] && cg.name == s.name && cg.order == s.order && cg.nodes == s.nodes
            && cg.edges == s.edges && cg.conds == s.conds && cg.reducers == s.reducers
            && cg.entry == if s.entry == "" then s.order[0] else s.entry
  {
    var n :| n in s.nodes;
    assert n in s.order;
  }

  /**
    What a compiled graph contains: the functions, edges, mappings and reducers of the last calls about
    them and no others, the nodes in the order of their calls, and as entry the one set last, or the node
    added first if none was set.
   */
  lemma CompiledGraphHoldsTheCalls(name: string, calls: seq<BuildCall>)
    requires Compilable(BuildAll(EmptyShape(name), calls))
    ensures var s, cg := BuildAll(EmptyShape(name), calls), CompiledOf(BuildAll(EmptyShape(name), calls));
            && s.err.None? && cg.name == name && cg.order == AddedNames(calls) && cg.order != []
            && cg.nodes == s.nodes && cg.edges == s.edges && cg.conds == s.conds && cg.reducers == s.reducers
            && cg.entry == (if s.entry == "" then AddedNames(calls)[0] else s.entry)
            && HoldsWhatIsMentioned(s, calls)
            && forall i :: LastAbout(calls, i) ==> Holds(s, calls[i])
  {
    var s := BuildAll(EmptyShape(name), calls);
    BuildersAreShaped(name, calls);
    CompiledAsBuilt(s);
    OrderIsAddedNames(name, calls);
    BuildersHoldWhatIsMentioned(name, calls);
    forall i | LastAbout(calls, i) ensures Holds(s, calls[i]) { LastCallIsHeld(name, calls, i); }
  }
}
