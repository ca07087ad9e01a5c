/**
  Do the in-process interpreter and the durable workflow agree? (agent/engine.go claims they do.)

  They differ in one thing: in process a node's updates stay Go values, durably they pass through
  JSON. They agree exactly as long as all values, merged ones included, are JSON-normal. Where reducers
  append and nothing in the graph can tell a value from its JSON form, they agree up to JSON exactly if
  no executed node appends a native array or null, or appends to one.
 */
module Refinement {
  import opened Outcomes
  import opened Values
  import opened Channels
  import opened Graphs
  import opened Description
  import opened Engine
  import opened Durable

  // ---------- exact agreement on JSON-normal values ----------

  ghost predicate NormalState(s: State)
  {
    forall k :: k in s ==> JsonNormal(s[k])
  }

  /** Every state and every update of the in-process run is JSON-normal. */
  ghost predicate NormalRun(cg: CompiledGraph, node: string, s: State, step: nat, max: nat)
    decreases if step <= max then max - step + 1 else 0
  {
    && NormalState(s)
    && (node != END && step < max && RunNode(cg, node, s).Ok? ==>
          && NormalState(RunNode(cg, node, s).value)
          && var merged := Merged(s, RunNode(cg, node, s).value, cg.reducers);
             if Next(cg, node, merged).Ok? then NormalRun(cg, Next(cg, node, merged).value, merged, step + 1, max)
             else NormalState(merged))
  }

  /** All reducers append. */
  ghost predicate Appending(reducers: Reducers)
  {
    forall c :: c in reducers ==> reducers[c] == AppendReducer
  }

  /** Merging JSON-normal updates stays JSON-normal exactly if nothing is never appended to nothing. */
  lemma MergeStaysNormalIff(s: State, u: State, reducers: Reducers)
    requires NormalState(s) && NormalState(u) && Appending(reducers)
    ensures NormalState(Merged(s, u, reducers)) <==>
              forall c :: c in u && c in reducers ==> AsList(Existing(s, c)) + AsList(u[c]) != []
  {
    forall c | c in u && c in reducers
      ensures JsonNormal(Merged(s, u, reducers)[c]) <==> AsList(Existing(s, c)) + AsList(u[c]) != []
    {
      AppendByLists(Existing(s, c), u[c]);
    }
  }

  lemma NormalStateFixed(s: State)
    requires NormalState(s)
    ensures EncodeState(s) == s
  {
    forall k | k in s { NormalIffFixed(s[k]); }
  }

  /** The two ways of running agree: same state on success, else same error at the same step. */
  ghost predicate SameOutcome(r: RunResult, p: Progress, step: nat)
  {
    match r.error
    case None => p == Completed(r.state)
    case Some(e) => p == Progress.Failed(e, step + |r.steps|)
  }

  /** As long as all values are JSON-normal the two agree: same state, or same error at the same step. */
  lemma {:induction false} DurableRunIsInProcessRun(cg: CompiledGraph, node: string, state: State, step: nat, max: nat)
    requires NormalRun(cg, node, state, step, max) && step <= max
    ensures SameOutcome(RunFrom(cg, node, state, step, max), RunDurable(cg, node, state, step, max).progress, step)
    decreases max - step
  {
    NormalStateFixed(state);
    if node != END && step < max && RunNode(cg, node, state).Ok? {
      var updates := RunNode(cg, node, state).value;
      NormalStateFixed(updates);
      var merged := Merged(state, updates, cg.reducers);
      if Next(cg, node, merged).Ok? {
        DurableRunIsInProcessRun(cg, Next(cg, node, merged).value, merged, step + 1, max);
      }
    }
  }

  /** Reducing v into any JSON-normal value gives a JSON-normal value. */
  ghost predicate ReducesNormally(r: Reducer, v: Value)
  {
    forall e :: JsonNormal(e) ==> JsonNormal(r(e, v))
  }

  ghost predicate NormalUpdates(updates: State, reducers: Reducers)
  {
    NormalState(updates) && forall c :: c in updates && c in reducers ==> ReducesNormally(reducers[c], updates[c])
  }

  /** On JSON-normal states every node answers with updates that keep the state JSON-normal. */
  ghost predicate JsonClosed(cg: CompiledGraph)
  {
    forall n, s :: n in cg.nodes && NormalState(s) && cg.nodes[n](s).Ok? ==>
      NormalUpdates(cg.nodes[n](s).value, cg.reducers)
  }

  /** For an appending channel this means exactly: never append nothing. */
  lemma AppendsNormallyIffSomething(v: Value)
    requires JsonNormal(v)
    ensures ReducesNormally(AppendReducer, v) <==> AsList(v) != []
  {
    if AsList(v) == [] {
      AppendByLists(Null, v);
      assert !JsonNormal(AppendReducer(Null, v));
    } else {
      forall e | JsonNormal(e) ensures JsonNormal(AppendReducer(e, v)) {
        AppendByLists(e, v);
      }
    }
  }

  lemma MergeStaysNormal(s: State, updates: State, reducers: Reducers)
    requires NormalState(s) && NormalUpdates(updates, reducers)
    ensures NormalState(Merged(s, updates, reducers))
  {
    forall k | k in updates && k in reducers ensures JsonNormal(Written(s, k, updates[k], reducers)) {
      assert ReducesNormally(reducers[k], updates[k]);
      assert JsonNormal(Existing(s, k));
    }
  }

  /** Whatever the input and the bound, such a graph's runs are JSON-normal throughout. */
  lemma {:induction false} ClosedRunsAreNormal(cg: CompiledGraph, node: string, s: State, step: nat, max: nat)
    requires JsonClosed(cg) && NormalState(s)
    ensures NormalRun(cg, node, s, step, max)
    decreases if step <= max then max - step + 1 else 0
  {
    if node != END && step < max && RunNode(cg, node, s).Ok? {
      var merged := Merged(s, RunNode(cg, node, s).value, cg.reducers);
      MergeStaysNormal(s, RunNode(cg, node, s).value, cg.reducers);
      if Next(cg, node, merged).Ok? {
        ClosedRunsAreNormal(cg, Next(cg, node, merged).value, merged, step + 1, max);
      }
    }
  }

  /** A whole run of such a graph, from the same JSON-normal input and with the same bound. */
  lemma WorkflowIsExecute(cg: CompiledGraph, input: State, maxSteps: int)
    requires JsonClosed(cg) && NormalState(input)
    ensures var max := StepBound(maxSteps);
            SameOutcome(RunFrom(cg, cg.entry, input, 0, max),
                        CrashFree(Job(cg, EncodeState(input), max)).progress, 0)
  {
    NormalStateFixed(input);
    ClosedRunsAreNormal(cg, cg.entry, input, 0, StepBound(maxSteps));
    DurableRunIsInProcessRun(cg, cg.entry, input, 0, StepBound(maxSteps));
  }

  // ---------- agreement up to JSON ----------

  ghost predicate SameJson(s: State, t: State)
  {
    EncodeState(s) == EncodeState(t)
  }

  ghost predicate SameAnswer(a: Result<State, string>, b: Result<State, string>)
  {
    match (a, b)
    case (Ok(s), Ok(t)) => SameJson(s, t)
    case _ => a == b
  }

  /** No node and no router tells a state from its JSON form. */
  ghost predicate Blind(cg: CompiledGraph)
  {
    && (forall n, s, t :: n in cg.nodes && SameJson(s, t) ==> SameAnswer(cg.nodes[n](s), cg.nodes[n](t)))
    && (forall n, s, t :: n in cg.conds && SameJson(s, t) ==> cg.conds[n].router(s) == cg.conds[n].router(t))
  }

  lemma EncodedStateSameJson(s: State)
    ensures SameJson(s, EncodeState(s))
  {
    forall k | k in s { EncodeTwice(s[k]); }
  }

  lemma SameJsonAt(s: State, t: State, k: string)
    requires SameJson(s, t)
    ensures k in s <==> k in t
    ensures Encode(Existing(s, k)) == Encode(Existing(t, k))
  {
    assert k in EncodeState(s) <==> k in EncodeState(t);
    if k in s {
      assert EncodeState(s)[k] == EncodeState(t)[k];
    }
  }

  lemma SameJsonByChannel(a: State, b: State)
    requires a.Keys == b.Keys
    ensures SameJson(a, b) <==> forall c :: c in a ==> Encode(a[c]) == Encode(b[c])
  {
    if SameJson(a, b) {
      forall c | c in a ensures Encode(a[c]) == Encode(b[c]) { SameJsonAt(a, b, c); }
    }
  }

  ghost predicate SameOutcomeAsJson(r: RunResult, p: Progress, step: nat)
  {
    match r.error
    case None => p.Completed? && SameJson(r.state, p.state)
    case Some(e) => p == Progress.Failed(e, step + |r.steps|)
  }

  lemma RoutingSameJson(cg: CompiledGraph, node: string, s: State, t: State)
    requires Blind(cg) && SameJson(s, t)
    ensures Next(cg, node, s) == Next(cg, node, t)
  {
  }

  /** A blind node answers an activity call with the JSON of its in-process answer, or with the same error. */
  lemma BlindNode(cg: CompiledGraph, node: string, s: State, t: State)
    requires Blind(cg) && SameJson(s, t)
    ensures NodeResult(cg, node, t) == match RunNode(cg, node, s)
                                       case Ok(u) => Ok(EncodeState(u))
                                       case Err(e) => Err(e)
  {
    EncodedStateSameJson(t);
    assert SameJson(s, EncodeState(t));
    if node in cg.nodes {
      assert SameAnswer(cg.nodes[node](s), cg.nodes[node](EncodeState(t)));
    }
  }

  // ---------- any reducers ----------

  ghost predicate RespectsJsonAt(r: Reducer, e: Value, u: Value, e': Value, u': Value)
  {
    Steady(e) && Steady(u) && Steady(e') && Steady(u') && Encode(e) == Encode(e') && Encode(u) == Encode(u') ==>
      Encode(r(e, u)) == Encode(r(e', u')) && Steady(r(e, u))
  }

  /** A reducer whose result, up to JSON, depends only on the JSON of steady operands, and is steady. */
  ghost predicate RespectsJson(r: Reducer)
  {
    forall e: Value, u: Value, e': Value, u': Value :: RespectsJsonAt(r, e, u, e', u')
  }

  ghost predicate SteadyState(s: State, reducers: Reducers)
  {
    forall c :: c in s && c in reducers ==> Steady(s[c])
  }

  /** A blind graph whose nodes send only steady values to reducers that respect JSON. */
  ghost predicate JsonBlind(cg: CompiledGraph)
  {
    && Blind(cg)
    && (forall n, s :: n in cg.nodes && cg.nodes[n](s).Ok? ==> SteadyState(cg.nodes[n](s).value, cg.reducers))
    && (forall c :: c in cg.reducers ==> RespectsJson(cg.reducers[c]))
  }

  lemma AppendRespectsJson()
    ensures RespectsJson(AppendReducer)
  {
    forall e: Value, u: Value, e': Value, u': Value ensures RespectsJsonAt(AppendReducer, e, u, e', u') {
      if Steady(e) && Steady(u) && Steady(e') && Steady(u') && Encode(e) == Encode(e') && Encode(u) == Encode(u') {
        AppendRespectsEncoding(e, u, e', u');
      }
    }
  }

  lemma ReducedSameJson(r: Reducer, e: Value, u: Value, e': Value, u': Value)
    requires RespectsJson(r) && Steady(e) && Steady(u) && Steady(e') && Steady(u')
    requires Encode(e) == Encode(e') && Encode(u) == Encode(u')
    ensures Encode(r(e, u)) == Encode(r(e', u')) && Steady(r(e, u)) && Steady(r(e', u'))
  {
    assert RespectsJsonAt(r, e, u, e', u') && RespectsJsonAt(r, e', u', e, u);
  }

  lemma WrittenSameJson(s: State, t: State, u: State, v: State, reducers: Reducers, k: string)
    requires SameJson(s, t) && SameJson(u, v) && k in u && k in v
    requires SteadyState(s, reducers) && SteadyState(t, reducers)
    requires SteadyState(u, reducers) && SteadyState(v, reducers)
    requires k in reducers ==> RespectsJson(reducers[k])
    ensures Encode(Written(s, k, u[k], reducers)) == Encode(Written(t, k, v[k], reducers))
    ensures k in reducers ==> Steady(Written(s, k, u[k], reducers)) && Steady(Written(t, k, v[k], reducers))
  {
    SameJsonAt(s, t, k);
    SameJsonAt(u, v, k);
    if k in reducers {
      ReducedSameJson(reducers[k], Existing(s, k), u[k], Existing(t, k), v[k]);
    }
  }

  lemma MergeSameJson(s: State, t: State, u: State, v: State, reducers: Reducers)
    requires SameJson(s, t) && SameJson(u, v)
    requires SteadyState(s, reducers) && SteadyState(t, reducers)
    requires SteadyState(u, reducers) && SteadyState(v, reducers)
    requires forall c :: c in reducers ==> RespectsJson(reducers[c])
    ensures SameJson(Merged(s, u, reducers), Merged(t, v, reducers))
    ensures SteadyState(Merged(s, u, reducers), reducers) && SteadyState(Merged(t, v, reducers), reducers)
  {
    var a, b := Merged(s, u, reducers), Merged(t, v, reducers);
    forall k
      ensures k in a <==> k in b
      ensures k in a ==> Encode(a[k]) == Encode(b[k]) && (k in reducers ==> Steady(a[k]) && Steady(b[k]))
    {
      SameJsonAt(s, t, k);
      SameJsonAt(u, v, k);
      if k in u {
        WrittenSameJson(s, t, u, v, reducers, k);
      }
    }
  }

  lemma EncodedIsSteady(s: State, reducers: Reducers)
    ensures SteadyState(EncodeState(s), reducers)
  {
    forall k | k in s { EncodeIsNormal(s[k]); }
  }

  /** In process on s or durably on t, a node fails the same way, or goes on to the same node on the same JSON. */
  ghost predicate SameStep(cg: CompiledGraph, node: string, s: State, t: State)
  {
    var a, b := RunNode(cg, node, s), NodeResult(cg, node, t);
    if a.Err? then b == Err(a.error) else
    && b.Ok?
    && var s', t' := Merged(s, a.value, cg.reducers), Merged(t, b.value, cg.reducers);
       && SameJson(s', t') && SteadyState(s', cg.reducers) && SteadyState(t', cg.reducers)
       && Next(cg, node, s') == Next(cg, node, t')
  }

  ghost predicate SameSteps(cg: CompiledGraph)
  {
    forall node, s, t ::
      SameJson(s, t) && SteadyState(s, cg.reducers) && SteadyState(t, cg.reducers) ==> SameStep(cg, node, s, t)
  }

  lemma JsonBlindSteps(cg: CompiledGraph)
    requires JsonBlind(cg)
    ensures SameSteps(cg)
  {
    forall node, s, t | SameJson(s, t) && SteadyState(s, cg.reducers) && SteadyState(t, cg.reducers)
      ensures SameStep(cg, node, s, t)
    {
      BlindNode(cg, node, s, t);
      var a := RunNode(cg, node, s);
      if a.Ok? {
        EncodedStateSameJson(a.value);
        EncodedIsSteady(a.value, cg.reducers);
        MergeSameJson(s, t, a.value, EncodeState(a.value), cg.reducers);
        RoutingSameJson(cg, node, Merged(s, a.value, cg.reducers), Merged(t, EncodeState(a.value), cg.reducers));
      }
    }
  }

  lemma {:induction false} SameStepsSameOutcome(
      cg: CompiledGraph, node: string, s: State, t: State, step: nat, max: nat)
    requires SameSteps(cg) && SameJson(s, t) && step <= max
    requires SteadyState(s, cg.reducers) && SteadyState(t, cg.reducers)
    ensures SameOutcomeAsJson(RunFrom(cg, node, s, step, max), RunDurable(cg, node, t, step, max).progress, step)
    decreases max - step
  {
    if node != END && step < max {
      assert SameStep(cg, node, s, t);
      var a, b := RunNode(cg, node, s), NodeResult(cg, node, t);
      if a.Ok? {
        var s', t' := Merged(s, a.value, cg.reducers), Merged(t, b.value, cg.reducers);
        if Next(cg, node, s').Ok? {
          SameStepsSameOutcome(cg, Next(cg, node, s').value, s', t', step + 1, max);
        }
      }
    }
  }

  /** On such a graph, whatever its reducers, interpreter and workflow agree up to JSON. */
  lemma DurableRunAgreesAsJson(cg: CompiledGraph, node: string, s: State, t: State, step: nat, max: nat)
    requires JsonBlind(cg) && SameJson(s, t) && step <= max
    requires SteadyState(s, cg.reducers) && SteadyState(t, cg.reducers)
    ensures SameOutcomeAsJson(RunFrom(cg, node, s, step, max), RunDurable(cg, node, t, step, max).progress, step)
  {
    JsonBlindSteps(cg);
    SameStepsSameOutcome(cg, node, s, t, step, max);
  }

  /** A whole run, input included: the workflow gets the input as JSON. */
  lemma WorkflowAgreesWithExecute(cg: CompiledGraph, input: State, maxSteps: int)
    requires JsonBlind(cg) && SteadyState(input, cg.reducers)
    ensures var max := StepBound(maxSteps);
            SameOutcomeAsJson(RunFrom(cg, cg.entry, input, 0, max),
                              CrashFree(Job(cg, EncodeState(input), max)).progress, 0)
  {
    EncodedStateSameJson(input);
    EncodedIsSteady(input, cg.reducers);
    DurableRunAgreesAsJson(cg, cg.entry, input, EncodeState(input), 0, StepBound(maxSteps));
  }

  // ---------- every awaited node is registered ----------

  lemma {:induction false} AwaitedNodesExist(
      cg: CompiledGraph, node: string, state: State, step: nat, max: nat, hist: seq<Recorded>)
    requires Sound(cg) && (node in cg.nodes || node == END)
    ensures var p := Orchestrate(cg, node, state, step, max, hist); p.Awaiting? ==> p.node in cg.nodes
    decreases |hist|
  {
    if node != END && step < max && hist != [] && hist[0].node == node && hist[0].result.Ok? {
      var merged := Merged(state, hist[0].result.value, cg.reducers);
      if Next(cg, node, merged).Ok? {
        NextStaysInside(cg, node, merged);
        AwaitedNodesExist(cg, Next(cg, node, merged).value, merged, step + 1, max, hist[1..]);
      }
    }
  }

  /**
    For a graph that compiled and a backend given its described node names: whatever the activities
    answered, the node a workflow asks for has a function and an activity registered under its name.
   */
  lemma AwaitedNodesAreRegistered(name: string, calls: seq<BuildCall>, input: State, max: nat, hist: seq<Recorded>,
                                  activities: set<string>)
    requires Compilable(BuildAll(EmptyShape(name), calls))
    requires activities >= (set n | n in Described(CompiledOf(BuildAll(EmptyShape(name), calls))).nodes) - {""}
    ensures var cg := CompiledOf(BuildAll(EmptyShape(name), calls));
            var p := Orchestrate(cg, cg.entry, input, 0, max, hist);
            p.Awaiting? ==> p.node in cg.nodes && p.node in activities
  {
    CompiledGraphsAreSound(name, calls);
    var cg := CompiledOf(BuildAll(EmptyShape(name), calls));
    AwaitedNodesExist(cg, cg.entry, input, 0, max, hist);
    var p := Orchestrate(cg, cg.entry, input, 0, max, hist);
    if p.Awaiting? {
      assert p.node in cg.order;
    }
  }
}
