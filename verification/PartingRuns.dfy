/**
  Concrete graphs on which the in-process run and the durable run part, or agree although the
  conditions for agreement fail, or meet those conditions.
 */
module PartingRuns {
  import opened Outcomes
  import opened Values
  import opened Channels
  import opened Graphs
  import opened Engine
  import opened Durable
  import opened Refinement
  import opened RunAgreement

  const Appends: Reducers := map["log" := AppendReducer]

  /** From the empty state a graph completes in s in process and in t durably. */
  ghost predicate Ends(cg: CompiledGraph, s: State, t: State, step: nat, max: nat)
  {
    && RunFrom(cg, cg.entry, map[], step, max).error == None
    && RunFrom(cg, cg.entry, map[], step, max).state == s
    && RunDurable(cg, cg.entry, map[], step, max).progress == Completed(t)
  }

  /** One node "a" and then the end. */
  function OneNode(a: NodeFunc): CompiledGraph
  {
    CompiledGraph("one", map["a" := a], ["a"], map["a" := END], map[], Appends, "a")
  }

  /** First "a", then "b", then the end. */
  function TwoNodes(a: NodeFunc, b: NodeFunc): CompiledGraph
  {
    CompiledGraph("two", map["a" := a, "b" := b], ["a", "b"], map["a" := "b", "b" := END], map[], Appends, "a")
  }

  lemma BothAreSound(a: NodeFunc, b: NodeFunc)
    ensures Sound(OneNode(a)) && Sound(TwoNodes(a, b))
  {
  }

  lemma OneNodeRuns(a: NodeFunc, s: State, t: State, step: nat, max: nat)
    requires step < max
    requires a(map[]).Ok? && s == Merged(map[], a(map[]).value, Appends)
    requires a(EncodeState(map[])).Ok? && t == Merged(map[], EncodeState(a(EncodeState(map[])).value), Appends)
    ensures Ends(OneNode(a), s, t, step, max)
  {
    var cg := OneNode(a);
    assert Next(cg, "a", s) == Ok(END) && Next(cg, "a", t) == Ok(END);
    assert RunFrom(cg, END, s, step + 1, max).error == None;
    assert RunDurable(cg, END, t, step + 1, max).progress == Completed(t);
  }

  lemma TwoNodesRun(a: NodeFunc, b: NodeFunc, s: State, t: State, s': State, t': State, step: nat, max: nat)
    requires step + 1 < max
    requires a(map[]).Ok? && s == Merged(map[], a(map[]).value, Appends)
    requires a(EncodeState(map[])).Ok? && t == Merged(map[], EncodeState(a(EncodeState(map[])).value), Appends)
    requires b(s).Ok? && s' == Merged(s, b(s).value, Appends)
    requires b(EncodeState(t)).Ok? && t' == Merged(t, EncodeState(b(EncodeState(t)).value), Appends)
    ensures Ends(TwoNodes(a, b), s', t', step, max)
  {
    var cg := TwoNodes(a, b);
    assert Next(cg, "a", s) == Ok("b") && Next(cg, "a", t) == Ok("b");
    assert Next(cg, "b", s') == Ok(END) && Next(cg, "b", t') == Ok(END);
    assert RunFrom(cg, END, s', step + 2, max).error == None;
    assert RunDurable(cg, END, t', step + 2, max).progress == Completed(t');
    assert RunFrom(cg, "b", s, step + 1, max).state == s';
    assert RunDurable(cg, "b", t, step + 1, max).progress == Completed(t');
  }

  // ---------- states with a log ----------

  function Log(v: Value): State
  {
    map["log" := v]
  }

  lemma LogsEncode(v: Value)
    ensures EncodeState(Log(v)) == Log(Encode(v)) && EncodeState(map[]) == map[]
  {
  }

  lemma LogsMerge(e: Value, u: Value)
    ensures Merged(map[], Log(u), Appends) == Log(AppendReducer(Null, u))
    ensures Merged(Log(e), Log(u), Appends) == Log(AppendReducer(e, u))
    ensures Merged(Log(e), map[], Appends) == Log(e)
  {
  }

  lemma EncodedSingleton(v: Value)
    ensures Encode(List([v])) == List([Encode(v)])
  {
  }

  // ---------- a typed slice ----------

  const Strings := List([Str("a"), Str("b")])
  const Tags := Native("[]string", Strings)

  const SendsTags: NodeFunc := s => Ok(Log(Tags))

  lemma TagsTravel()
    ensures Encode(Strings) == Strings && Encode(Tags) == Strings
    ensures AppendReducer(Null, Tags) == List([Tags]) && AppendReducer(Null, Strings) == Strings
    ensures Encode(List([Tags])) == List([Strings]) && List([Strings]) != Strings
  {
    assert JsonNormal(Strings);
    NormalIffFixed(Strings);
    EncodedSingleton(Tags);
    assert |List([Strings]).items| == 1 && |Strings.items| == 2;
  }

  /** In process a typed slice is appended as one element; durably its two strings are. */
  lemma TypedSliceParts(step: nat, max: nat)
    requires step < max
    ensures Sound(OneNode(SendsTags)) && Ends(OneNode(SendsTags), Log(List([Tags])), Log(Strings), step, max)
    ensures !SameJson(Log(List([Tags])), Log(Strings))
  {
    BothAreSound(SendsTags, SendsTags);
    TagsTravel();
    LogsEncode(Tags);
    LogsMerge(Null, Tags);
    LogsMerge(Null, Strings);
    OneNodeRuns(SendsTags, Log(List([Tags])), Log(Strings), step, max);
    if SameJson(Log(List([Tags])), Log(Strings)) {
      SameJsonAt(Log(List([Tags])), Log(Strings), "log");
    }
  }

  // ---------- appending nothing ----------

  const SendsNothing: NodeFunc := s => Ok(Log(List([])))

  /** Reports whether the log is nil; the nil slice of any is not. */
  const AsksForNil: NodeFunc := s => Ok(map["nil" := Bool(Existing(s, "log") == Null)])

  function Reported(log: Value, isNil: bool): State
  {
    map["log" := log, "nil" := Bool(isNil)]
  }

  lemma EmptyAppendRuns(step: nat, max: nat)
    requires step + 1 < max
    ensures Ends(TwoNodes(SendsNothing, AsksForNil), Reported(NilList, false), Reported(NilList, true), step, max)
  {
    var s: State, u: State, v: State := Log(NilList), map["nil" := Bool(false)], map["nil" := Bool(true)];
    LogsEncode(List([]));
    LogsEncode(NilList);
    LogsMerge(Null, List([]));
    ReportsMerge();
    assert Encode(List([])) == List([]);
    TwoNodesRun(SendsNothing, AsksForNil, s, s, Reported(NilList, false), Reported(NilList, true), step, max);
  }

  lemma ReportsMerge()
    ensures Merged(Log(NilList), map["nil" := Bool(false)], Appends) == Reported(NilList, false)
    ensures Merged(Log(NilList), map["nil" := Bool(true)], Appends) == Reported(NilList, true)
    ensures EncodeState(map["nil" := Bool(true)]) == map["nil" := Bool(true)]
  {
  }

  lemma EmptyAppendIsSteady(step: nat, max: nat)
    requires step + 1 < max
    ensures SteadyRun(TwoNodes(SendsNothing, AsksForNil), "a", map[], step, max)
  {
    var cg := TwoNodes(SendsNothing, AsksForNil);
    var s := Merged(map[], Log(List([])), Appends);
    var u: State := map["nil" := Bool(Existing(s, "log") == Null)];
    assert Next(cg, "a", s) == Ok("b") && Next(cg, "b", Merged(s, u, Appends)) == Ok(END);
    assert SteadyStep(cg, "a", map[]) && SteadyStep(cg, "b", s);
    assert SteadyRun(cg, END, Merged(s, u, Appends), step + 2, max);
    assert SteadyRun(cg, "b", s, step + 1, max);
  }

  /**
    Without any native value: appending an empty list to nothing leaves a nil slice, which a node can
    tell from nil in process but not after the JSON trip. The run is steady, but the graph is not blind.
   */
  lemma EmptyAppendParts(step: nat, max: nat)
    requires step + 1 < max
    ensures Sound(TwoNodes(SendsNothing, AsksForNil))
    ensures Ends(TwoNodes(SendsNothing, AsksForNil), Reported(NilList, false), Reported(NilList, true), step, max)
    ensures !SameJson(Reported(NilList, false), Reported(NilList, true))
  {
    BothAreSound(SendsNothing, AsksForNil);
    EmptyAppendRuns(step, max);
    if SameJson(Reported(NilList, false), Reported(NilList, true)) {
      SameJsonAt(Reported(NilList, false), Reported(NilList, true), "nil");
    }
  }

  // ---------- a native null ----------

  const NilMap := Native("map[string]int", Null)

  const SendsNilMap: NodeFunc := s => Ok(Log(NilMap))

  /** Appends a null if the log is null in JSON. */
  const FillsNull: NodeFunc := s => Ok(if Encode(Existing(s, "log")) == Null then Log(List([Null])) else map[])

  lemma FillersAreBlind()
    ensures Blind(TwoNodes(SendsNilMap, FillsNull))
  {
    var cg := TwoNodes(SendsNilMap, FillsNull);
    forall n, s, t | n in cg.nodes && SameJson(s, t) ensures SameAnswer(cg.nodes[n](s), cg.nodes[n](t)) {
      SameJsonAt(s, t, "log");
    }
  }

  lemma NilMapTravels()
    ensures Encode(NilMap) == Null && Encode(List([NilMap])) == List([Null]) == Encode(List([Null]))
    ensures AppendReducer(Null, NilMap) == List([NilMap]) && AppendReducer(Null, Null) == NilList
    ensures AppendReducer(NilList, List([Null])) == List([Null])
  {
    EncodedSingleton(NilMap);
    EncodedSingleton(Null);
    AppendByLists(Null, NilMap);
    AppendByLists(NilList, List([Null]));
    assert AsList(Null) + AsList(NilMap) == [NilMap] && AsList(NilList) + [Null] == [Null];
  }

  lemma RejoiningRuns(step: nat, max: nat)
    requires step + 1 < max
    ensures Ends(TwoNodes(SendsNilMap, FillsNull), Log(List([NilMap])), Log(List([Null])), step, max)
  {
    var s, t := Log(List([NilMap])), Log(NilList);
    NilMapTravels();
    LogsEncode(NilMap);
    LogsEncode(NilList);
    LogsEncode(List([Null]));
    LogsMerge(List([NilMap]), NilMap);
    LogsMerge(NilList, Null);
    LogsMerge(NilList, List([Null]));
    TwoNodesRun(SendsNilMap, FillsNull, s, t, s, Log(List([Null])), step, max);
  }

  /**
    Why the outcome condition leaves blank values out: a nil map is appended as an element in process and
    vanishes durably, but a later node can make up for it, so the outcomes agree after an unsteady run.
   */
  lemma BlankRejoins(step: nat, max: nat)
    requires step + 1 < max
    ensures Blind(TwoNodes(SendsNilMap, FillsNull)) && Appending(Appends)
    ensures Ends(TwoNodes(SendsNilMap, FillsNull), Log(List([NilMap])), Log(List([Null])), step, max)
    ensures SameJson(Log(List([NilMap])), Log(List([Null])))
    ensures !SteadyRun(TwoNodes(SendsNilMap, FillsNull), "a", map[], step, max)
  {
    FillersAreBlind();
    RejoiningRuns(step, max);
    NilMapTravels();
    LogsEncode(List([NilMap]));
    LogsEncode(List([Null]));
    assert !WritesSteady(map[], Log(NilMap), Appends, "log");
  }

  // ---------- a graph that meets the conditions ----------

  const SendsMessage: NodeFunc := s => Ok(map["log" := List([Str("hello")])])

  /** A node that appends a message: its whole runs agree up to JSON, whatever the input's other channels hold. */
  lemma MessagesAgree(input: State, maxSteps: int)
    requires SteadyState(input, Appends)
    ensures JsonBlind(OneNode(SendsMessage))
    ensures var max := StepBound(maxSteps);
            SameOutcomeAsJson(RunFrom(OneNode(SendsMessage), "a", input, 0, max),
                              CrashFree(Job(OneNode(SendsMessage), EncodeState(input), max)).progress, 0)
  {
    AppendRespectsJson();
    WorkflowAgreesWithExecute(OneNode(SendsMessage), input, maxSteps);
  }
}
