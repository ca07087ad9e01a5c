/**
  The in-process interpreter (agent/engine.go): it walks a compiled graph node by node over one state
  map that it changes in place, for at most a given number of node executions.
 */
module Engine {
  import opened Outcomes
  import opened Values
  import opened Channels
  import opened Graphs

  const DEFAULT_MAX_STEPS := 100

  function StepBound(requested: int): nat
  {
    if requested <= 0 then DEFAULT_MAX_STEPS else requested
  }

  // ---------- small steps: the meaning of a graph ----------

  /** A run is at a node (or at END) with a state, or stuck with the error that stopped it. */
  datatype Config = At(node: string, state: State) | Stuck(state: State, error: RunError)

  /** Running the current node: its updates are merged, then routing sees the merged state. */
  function Advance(cg: CompiledGraph, c: Config): Config
  {
    if c.Stuck? || c.node == END then c else
    match RunNode(cg, c.node, c.state)
    case Err(e) => Stuck(c.state, e)
    case Ok(updates) =>
      var merged := Merged(c.state, updates, cg.reducers);
      match Next(cg, c.node, merged)
      case Err(e) => Stuck(merged, e)
      case Ok(next) => At(next, merged)
  }

  /** The unbounded run, k nodes in. */
  function After(cg: CompiledGraph, c: Config, k: nat): Config
    decreases k
  {
    if k == 0 then c else After(cg, Advance(cg, c), k - 1)
  }

  predicate Running(c: Config)
  {
    c.At? && c.node != END
  }

  lemma {:induction false} AfterStops(cg: CompiledGraph, c: Config, k: nat)
    requires !Running(c)
    ensures After(cg, c, k) == c
  {
    if k != 0 {
      AfterStops(cg, c, k - 1);
    }
  }

  lemma {:induction false} AfterSum(cg: CompiledGraph, c: Config, j: nat, k: nat)
    ensures After(cg, c, j + k) == After(cg, After(cg, c, j), k)
    decreases j
  {
    if j != 0 {
      AfterSum(cg, Advance(cg, c), j - 1, k);
    }
  }

  // ---------- the interpreter's result ----------

  /** What is reported after each node. */
  datatype StepRecord = StepRecord(step: nat, node: string, updated: seq<string>, next: string)

  /** The same with the updates themselves, of which the report names the channels. */
  datatype StepInfo = StepInfo(step: nat, node: string, updates: State, next: string)

  datatype RunResult = RunResult(state: State, error: Option<RunError>, steps: seq<StepInfo>)

  function RunFrom(cg: CompiledGraph, node: string, state: State, step: nat, max: nat): RunResult
    decreases if step <= max then max - step + 1 else 0
  {
    if node == END then RunResult(state, None, [])
    else if step >= max then RunResult(state, Some(MaxSteps(max)), [])
    else match RunNode(cg, node, state)
      case Err(e) => RunResult(state, Some(e), [])
      case Ok(updates) =>
        var merged := Merged(state, updates, cg.reducers);
        match Next(cg, node, merged)
        case Err(e) => RunResult(merged, Some(e), [])
        case Ok(next) =>
          var rest := RunFrom(cg, next, merged, step + 1, max);
          rest.(steps := [StepInfo(step + 1, node, updates, next)] + rest.steps)
  }

  ghost predicate Reports(records: seq<StepRecord>, steps: seq<StepInfo>)
  {
    && |records| == |steps|
    && forall k :: 0 <= k < |steps| ==>
         && records[k].step == steps[k].step && records[k].node == steps[k].node && records[k].next == steps[k].next
         && DistinctKeys(records[k].updated, steps[k].updates.Keys)
  }

  /**
    Runs the graph on a private copy of the input. Whatever order the merges visit their updates in,
    the final map, the error and the reported steps are those of RunFrom.
   */
  method Execute(cg: CompiledGraph, input: Memory, maxSteps: int)
    returns (state: Memory, error: Option<RunError>, records: seq<StepRecord>)
    ensures fresh(state)
    ensures var r := RunFrom(cg, cg.entry, input.data, 0, StepBound(maxSteps));
            state.data == r.state && error == r.error && Reports(records, r.steps)
  {
    var max := StepBound(maxSteps);
    var current := cg.entry;
    state := Clone(input);
    records := [];
    var step := 0;
    ghost var whole := RunFrom(cg, cg.entry, input.data, 0, max);
    ghost var done: seq<StepInfo> := [];
    while current != END
      invariant fresh(state) && step <= max
      invariant Reports(records, done)
      invariant var rest := RunFrom(cg, current, state.data, step, max);
                whole == rest.(steps := done + rest.steps)
      decreases max - step
    {
      ghost var before := RunFrom(cg, current, state.data, step, max);
      if step >= max {
        assert done + [] == done;
        return state, Some(MaxSteps(max)), records;
      }
      if current !in cg.nodes {
        assert done + [] == done;
        return state, Some(NoFunction(current)), records;
      }
      var answer := cg.nodes[current](state.data);
      if answer.Err? {
        assert done + [] == done;
        return state, Some(NodeFailed(current, answer.error)), records;
      }
      var updated := Merge(state, answer.value, cg.reducers);
      var next := Next(cg, current, state.data);
      if next.Err? {
        assert done + [] == done;
        return state, Some(next.error), records;
      }
      records := records + [StepRecord(step + 1, current, updated, next.value)];
      ghost var info := StepInfo(step + 1, current, answer.value, next.value);
      ghost var rest := RunFrom(cg, next.value, state.data, step + 1, max);
      assert before.steps == [info] + rest.steps;
      assert done + ([info] + rest.steps) == done + [info] + rest.steps;
      done := done + [info];
      current := next.value;
      step := step + 1;
    }
    assert done + [] == done;
    error := None;
  }

  // ---------- the bound ----------

  /** How the bounded result reads off the unbounded run. */
  lemma {:induction false} RunIsPrefixOfUnboundedRun(cg: CompiledGraph, node: string, state: State, step: nat, max: nat)
    requires step <= max
    ensures var r := RunFrom(cg, node, state, step, max);
            var n := |r.steps|;
            var c := At(node, state);
            && n <= max - step
            && (forall j :: 0 <= j < n ==> Running(After(cg, c, j)))
            && (r.error == None ==> After(cg, c, n) == At(END, r.state))
            && (r.error == Some(MaxSteps(max)) ==>
                  n == max - step && Running(After(cg, c, n)) && After(cg, c, n).state == r.state)
            && (r.error.Some? && r.error != Some(MaxSteps(max)) ==>
                  n < max - step && Running(After(cg, c, n)) && After(cg, c, n + 1) == Stuck(r.state, r.error.value))
    decreases max - step
  {
    var c := At(node, state);
    if node != END && step < max && RunNode(cg, node, state).Ok? {
      var merged := Merged(state, RunNode(cg, node, state).value, cg.reducers);
      if Next(cg, node, merged).Ok? {
        var next := Next(cg, node, merged).value;
        RunIsPrefixOfUnboundedRun(cg, next, merged, step + 1, max);
        var r, rest := RunFrom(cg, node, state, step, max), RunFrom(cg, next, merged, step + 1, max);
        assert |r.steps| == |rest.steps| + 1;
        assert Advance(cg, c) == At(next, merged);
        forall j | 0 <= j < |r.steps| ensures Running(After(cg, c, j)) {
          if 0 < j { assert Running(After(cg, At(next, merged), j - 1)); }
        }
      }
    }
  }

  lemma {:induction false} RunningMonotone(cg: CompiledGraph, c: Config, j: nat, k: nat)
    requires j <= k && !Running(After(cg, c, j))
    ensures After(cg, c, k) == After(cg, c, j)
  {
    AfterSum(cg, c, j, k - j);
    AfterStops(cg, After(cg, c, j), k - j);
  }

  /** A run succeeds exactly if the unbounded run is at END within max nodes; then both end in the same state. */
  lemma SucceedsIffEndWithinBound(cg: CompiledGraph, state: State, max: nat)
    ensures var r := RunFrom(cg, cg.entry, state, 0, max);
            var c := After(cg, At(cg.entry, state), max);
            && |r.steps| <= max
            && (r.error == None <==> c.At? && c.node == END)
            && (r.error == None ==> c.state == r.state)
  {
    var start := At(cg.entry, state);
    RunIsPrefixOfUnboundedRun(cg, cg.entry, state, 0, max);
    var r := RunFrom(cg, cg.entry, state, 0, max);
    var n := |r.steps|;
    if r.error == None {
      RunningMonotone(cg, start, n, max);
    } else if r.error != Some(MaxSteps(max)) {
      RunningMonotone(cg, start, n + 1, max);
    }
  }

  /** A larger bound changes nothing unless the smaller one was hit. */
  lemma {:induction false} LargerBoundSameRun(
      cg: CompiledGraph, node: string, state: State, step: nat, max: nat, larger: nat)
    requires step <= max <= larger
    requires RunFrom(cg, node, state, step, max).error != Some(MaxSteps(max))
    ensures RunFrom(cg, node, state, step, larger) == RunFrom(cg, node, state, step, max)
    decreases max - step
  {
    if node != END && step < max && RunNode(cg, node, state).Ok? {
      var merged := Merged(state, RunNode(cg, node, state).value, cg.reducers);
      if Next(cg, node, merged).Ok? {
        LargerBoundSameRun(cg, Next(cg, node, merged).value, merged, step + 1, max, larger);
      }
    }
  }

  /** The step records are numbered from one and chain: each starts where the previous one led. */
  lemma {:induction false} StepsChain(cg: CompiledGraph, node: string, state: State, step: nat, max: nat)
    ensures var r := RunFrom(cg, node, state, step, max);
            var s := r.steps;
            && (forall k :: 0 <= k < |s| ==> s[k].step == step + k + 1)
            && (forall k :: 0 <= k < |s| ==> s[k].node == if k == 0 then node else s[k - 1].next)
            && (forall k :: 0 <= k < |s| ==> s[k].node in cg.nodes)
            && (r.error == None ==> END == if s == [] then node else s[|s| - 1].next)
    decreases if step <= max then max - step + 1 else 0
  {
    if node != END && step < max && RunNode(cg, node, state).Ok? {
      var merged := Merged(state, RunNode(cg, node, state).value, cg.reducers);
      if Next(cg, node, merged).Ok? {
        StepsChain(cg, Next(cg, node, merged).value, merged, step + 1, max);
      }
    }
  }

  // ---------- soundness: no node without a function is reached ----------

  /** In a sound graph every place a run reaches is a node of the graph or END. */
  lemma {:induction false} RunsStayInside(cg: CompiledGraph, c: Config, k: nat)
    requires Sound(cg) && (c.At? ==> c.node in cg.nodes || c.node == END)
    requires c.Stuck? ==> !c.error.NoFunction?
    ensures var c' := After(cg, c, k);
            if c'.At? then c'.node in cg.nodes || c'.node == END else !c'.error.NoFunction?
    decreases k
  {
    if k != 0 {
      if Running(c) && RunNode(cg, c.node, c.state).Ok? {
        var merged := Merged(c.state, RunNode(cg, c.node, c.state).value, cg.reducers);
        if Next(cg, c.node, merged).Ok? {
          NextStaysInside(cg, c.node, merged);
        }
      }
      RunsStayInside(cg, Advance(cg, c), k - 1);
    }
  }

  /** Whatever was called on the builder: if it compiles, no run of any length ends for want of a function. */
  lemma CompiledRunsNeverMissAFunction(name: string, calls: seq<BuildCall>, state: State, max: nat)
    requires Compilable(BuildAll(EmptyShape(name), calls))
    ensures var cg := CompiledOf(BuildAll(EmptyShape(name), calls));
            var r := RunFrom(cg, cg.entry, state, 0, max);
            r.error.Some? ==> !r.error.value.NoFunction?
  {
    CompiledGraphsAreSound(name, calls);
    var cg := CompiledOf(BuildAll(EmptyShape(name), calls));
    var r := RunFrom(cg, cg.entry, state, 0, max);
    RunIsPrefixOfUnboundedRun(cg, cg.entry, state, 0, max);
    RunsStayInside(cg, At(cg.entry, state), |r.steps| + 1);
  }

  // ---------- accumulation over a run ----------

  /** The updates merged by the first k nodes of the unbounded run. */
  function UpdatesOf(cg: CompiledGraph, c: Config, k: nat): seq<State>
    decreases k
  {
    if k == 0 then [] else
    (if Running(c) && RunNode(cg, c.node, c.state).Ok? then [RunNode(cg, c.node, c.state).value] else [])
      + UpdatesOf(cg, Advance(cg, c), k - 1)
  }

  lemma {:induction false} MergedAllConcat(s: State, a: seq<State>, b: seq<State>, reducers: Reducers)
    ensures MergedAll(s, a + b, reducers) == MergedAll(MergedAll(s, a, reducers), b, reducers)
  {
    if b == [] {
      assert a + b == a;
    } else {
      var n := |b| - 1;
      MergedAllConcat(s, a, b[..n], reducers);
      assert (a + b)[..|a + b| - 1] == a + b[..n];
    }
  }

  /** The state of a run is the initial state with the updates of the nodes so far merged in order. */
  lemma {:induction false} StateIsMergedUpdates(cg: CompiledGraph, c: Config, k: nat)
    ensures After(cg, c, k).state == MergedAll(c.state, UpdatesOf(cg, c, k), cg.reducers)
    decreases k
  {
    if k != 0 {
      var next := Advance(cg, c);
      StateIsMergedUpdates(cg, next, k - 1);
      var first: seq<State> := if Running(c) && RunNode(cg, c.node, c.state).Ok?
                               then [RunNode(cg, c.node, c.state).value] else [];
      MergedAllConcat(c.state, first, UpdatesOf(cg, next, k - 1), cg.reducers);
      if first != [] {
        assert MergedAll(c.state, first[..0], cg.reducers) == c.state;
        assert first[..0] == [];
      }
    }
  }

  lemma {:induction false} UpdatesGrow(cg: CompiledGraph, c: Config, j: nat, k: nat)
    requires j <= k
    ensures UpdatesOf(cg, c, j) <= UpdatesOf(cg, c, k)
    decreases j
  {
    if j != 0 {
      UpdatesGrow(cg, Advance(cg, c), j - 1, k - 1);
    }
  }

  /**
    Over any run an appending channel is its initial list followed by all updates in execution order,
    so each earlier list is a prefix of every later one.
   */
  lemma AppendChannelOnlyGrows(cg: CompiledGraph, state: State, channel: string, j: nat, k: nat)
    requires channel in cg.reducers && cg.reducers[channel] == AppendReducer
    requires j <= k
    ensures var start := At(cg.entry, state);
            var early := AsList(Existing(After(cg, start, j).state, channel));
            var late := AsList(Existing(After(cg, start, k).state, channel));
            && late == AsList(Existing(state, channel)) + Accumulated(UpdatesOf(cg, start, k), channel)
            && early <= late
  {
    var start := At(cg.entry, state);
    var us := UpdatesOf(cg, start, k);
    StateIsMergedUpdates(cg, start, j);
    StateIsMergedUpdates(cg, start, k);
    UpdatesGrow(cg, start, j, k);
    var n := |UpdatesOf(cg, start, j)|;
    assert us[..n] == UpdatesOf(cg, start, j);
    AppendChannelAccumulates(state, us, cg.reducers, channel);
    AppendChannelAccumulates(state, us[..n], cg.reducers, channel);
    AccumulatedGrows(us, n, channel);
  }
}
