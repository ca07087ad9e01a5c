/**
  Running a compiled graph as a durable workflow (durable/dapr.go).

  The workflow routes and merges; each node runs as an activity whose result is recorded. After a
  crash the workflow function starts over and is fed the recorded results instead of running the
  nodes again. Activity inputs and results travel as JSON.
 */
module Durable {
  import opened Outcomes
  import opened Values
  import opened Channels
  import opened Graphs
  import opened Engine

  function EncodeState(s: State): State
  {
    map k | k in s :: Encode(s[k])
  }

  datatype Recorded = Recorded(node: string, result: Result<State, RunError>)

  /** How far a workflow gets on its recorded results; Diverged means it asked for another node than recorded. */
  datatype Progress =
    | Completed(state: State)
    | Failed(error: RunError, step: nat)
    | Awaiting(node: string, state: State, step: nat)
    | Diverged

  /** The workflow function from a given place on, fed the recorded results in order. */
  function Orchestrate(
      cg: CompiledGraph, node: string, state: State, step: nat, max: nat, hist: seq<Recorded>): Progress
    decreases |hist|
  {
    if node == END then Completed(state)
    else if step >= max then Failed(MaxSteps(max), step)
    else if hist == [] then Awaiting(node, state, step)
    else if hist[0].node != node then Diverged
    else match hist[0].result
      case Err(e) => Failed(e, step)
      case Ok(updates) =>
        var merged := Merged(state, updates, cg.reducers);
        match Next(cg, node, merged)
        case Err(e) => Failed(e, step)
        case Ok(next) => Orchestrate(cg, next, merged, step + 1, max, hist[1..])
  }

  /** Running a node as an activity: input and result make the JSON trip. */
  function NodeResult(cg: CompiledGraph, node: string, state: State): Result<State, RunError>
  {
    match RunNode(cg, node, EncodeState(state))
    case Ok(updates) => Ok(EncodeState(updates))
    case Err(e) => Err(e)
  }

  // ---------- the worker ----------

  datatype WorkflowInput = WorkflowInput(graph: string, state: State, maxSteps: int)

  class Worker {
    var graphs: map<string, CompiledGraph>
    var activities: set<string>

    constructor ()
      ensures graphs == map[] && activities == {}
    {
      graphs, activities := map[], {};
    }

    method Register(cg: CompiledGraph)
      modifies this`graphs
      ensures graphs == old(graphs)[cg.name := cg]
    {
      graphs := graphs[cg.name := cg];
    }

    /** One activity per node name, blanks and repeats skipped, in the order of first appearance. */
    method RegisterActivities(nodeNames: seq<string>) returns (added: seq<string>)
      modifies this`activities
      ensures DistinctKeys(added, (set n | n in nodeNames) - {""})
      ensures activities == old(activities) + ((set n | n in nodeNames) - {""})
    {
      added := [];
      var seen: set<string> := {};
      for i := 0 to |nodeNames|
        invariant seen == (set n | n in nodeNames[..i]) - {""}
        invariant DistinctKeys(added, seen)
        invariant activities == old(activities) + seen
      {
        var name := nodeNames[i];
        assert nodeNames[..i + 1] == nodeNames[..i] + [name];
        if name != "" && name !in seen {
          DistinctKeysGrow(added, seen, name);
          seen := seen + {name};
          added := added + [name];
          activities := activities + {name};
        }
      }
      assert nodeNames[..|nodeNames|] == nodeNames;
    }

    /** One execution of the workflow function against the recorded results; None if the graph is unknown. */
    method GraphWorkflow(input: WorkflowInput, hist: seq<Recorded>) returns (p: Option<Progress>)
      ensures p == if input.graph !in graphs then None
                   else Some(Orchestrate(graphs[input.graph], graphs[input.graph].entry, input.state, 0,
                                         StepBound(input.maxSteps), hist))
    {
      if input.graph !in graphs {
        return None;
      }
      var cg := graphs[input.graph];
      var max := StepBound(input.maxSteps);
      var state := new Memory();
      state.data := input.state;
      var current := cg.entry;
      var step := 0;
      while current != END
        invariant fresh(state) && step <= |hist|
        invariant Orchestrate(cg, cg.entry, input.state, 0, max, hist)
               == Orchestrate(cg, current, state.data, step, max, hist[step..])
        decreases |hist| - step
      {
        if step >= max {
          return Some(Progress.Failed(MaxSteps(max), step));
        }
        if step == |hist| {
          return Some(Awaiting(current, state.data, step));
        }
        if hist[step].node != current {
          return Some(Diverged);
        }
        if hist[step].result.Err? {
          return Some(Progress.Failed(hist[step].result.error, step));
        }
        state := ApplyUpdates(state, hist[step].result.value, cg.reducers);
        var next := Next(cg, current, state.data);
        if next.Err? {
          return Some(Progress.Failed(next.error, step));
        }
        assert hist[step..][1..] == hist[step + 1..];
        current := next.value;
        step := step + 1;
      }
      return Some(Completed(state.data));
    }

    /** The activity body: find the graph again and run the one node; None if the graph is unknown. */
    method ExecuteNode(graph: string, node: string, state: State) returns (r: Option<Result<State, RunError>>)
      ensures r == if graph !in graphs then None else Some(NodeResult(graphs[graph], node, state))
    {
      if graph !in graphs {
        return None;
      }
      var updates := RunNode(graphs[graph], node, EncodeState(state));
      match updates
      case Ok(u) => return Some(Ok(EncodeState(u)));
      case Err(e) => return Some(Err(e));
    }
  }

  // ---------- replay ----------

  /** Feeding one more result continues exactly where the workflow was waiting. */
  lemma {:induction false} ReplayContinues(
      cg: CompiledGraph, node: string, state: State, step: nat, max: nat, hist: seq<Recorded>, r: Recorded)
    ensures var p := Orchestrate(cg, node, state, step, max, hist);
            Orchestrate(cg, node, state, step, max, hist + [r]) ==
              if p.Awaiting? then Orchestrate(cg, p.node, p.state, p.step, max, [r]) else p
    ensures var p := Orchestrate(cg, node, state, step, max, hist);
            p.Awaiting? ==> p.step == step + |hist| < max && p.node != END
    decreases |hist|
  {
    if hist != [] {
      assert (hist + [r])[1..] == hist[1..] + [r];
      if node != END && step < max && hist[0].node == node && hist[0].result.Ok? {
        var merged := Merged(state, hist[0].result.value, cg.reducers);
        if Next(cg, node, merged).Ok? {
          ReplayContinues(cg, Next(cg, node, merged).value, merged, step + 1, max, hist[1..], r);
        }
      }
    } else {
      assert hist + [r] == [r];
    }
  }

  // ---------- runs with crashes ----------

  datatype Job = Job(cg: CompiledGraph, input: State, max: nat)

  function Replayed(job: Job, hist: seq<Recorded>): Progress
  {
    Orchestrate(job.cg, job.cg.entry, job.input, 0, job.max, hist)
  }

  /** A node that was run, for which step of the workflow and on which state. */
  datatype Execution = Execution(step: nat, node: string, state: State)

  /**
    history is durable; worker and result are what a live process knows of the workflow and of a node
    it has run but not yet recorded. executions remembers every node execution that took place.
   */
  datatype Cluster = Cluster(
    history: seq<Recorded>,
    worker: Option<Progress>,
    result: Option<Recorded>,
    executions: seq<Execution>)

  /** Activities need not be deterministic: Execute carries whatever answer the node gave this time. */
  datatype Event = Replay | Execute(answer: Result<State, RunError>) | Record | Crash

  const Started := Cluster([], None, None, [])

  function Step(job: Job, c: Cluster, ev: Event): Cluster
  {
    match ev
    case Replay => c.(worker := Some(Replayed(job, c.history)))
    case Execute(answer) =>
      (match c.worker
       case Some(Awaiting(node, state, step)) =>
         c.(result := Some(Recorded(node, answer)),
            executions := c.executions + [Execution(step, node, state)])
       case _ => c)
    case Record =>
      (match c.worker
       case Some(Awaiting(node, state, step)) =>
         if c.result.None? then c else
         c.(history := c.history + [c.result.value],
            worker := Some(Orchestrate(job.cg, node, state, step, job.max, [c.result.value])),
            result := None)
       case _ => c)
    case Crash => c.(worker := None, result := None)
  }

  function Run(job: Job, c: Cluster, evs: seq<Event>): Cluster
  {
    if evs == [] then c else Step(job, Run(job, c, evs[..|evs| - 1]), evs[|evs| - 1])
  }

  /** An execution was for the node and state the workflow waits for once all earlier steps are recorded. */
  ghost predicate ExecutionOk(job: Job, c: Cluster, e: Execution)
  {
    && e.step <= |c.history|
    && Replayed(job, c.history[..e.step]) == Awaiting(e.node, e.state, e.step)
  }

  ghost predicate Inv(job: Job, c: Cluster)
  {
    && (c.worker.Some? ==> c.worker.value == Replayed(job, c.history))
    && (c.result.Some? ==> c.worker.Some? && c.worker.value.Awaiting? && c.worker.value.node == c.result.value.node)
    && (forall k :: 0 <= k < |c.executions| ==> ExecutionOk(job, c, c.executions[k]))
    && !Replayed(job, c.history).Diverged?
  }

  lemma RecordKeepsInv(job: Job, c: Cluster)
    requires Inv(job, c)
    ensures Inv(job, Step(job, c, Record))
  {
    var c' := Step(job, c, Record);
    if c'.history != c.history {
      var r := c.result.value;
      ReplayContinues(job.cg, job.cg.entry, job.input, 0, job.max, c.history, r);
      forall k | 0 <= k < |c.executions| ensures ExecutionOk(job, c', c.executions[k]) {
        assert ExecutionOk(job, c, c.executions[k]);
        assert c'.history[..c.executions[k].step] == c.history[..c.executions[k].step];
      }
    }
  }

  lemma ExecuteKeepsInv(job: Job, c: Cluster, answer: Result<State, RunError>)
    requires Inv(job, c)
    ensures Inv(job, Step(job, c, Execute(answer)))
  {
    var c' := Step(job, c, Execute(answer));
    if c' != c {
      var p := c.worker.value;
      ReplayContinues(job.cg, job.cg.entry, job.input, 0, job.max, c.history, c'.result.value);
      assert c.history[..|c.history|] == c.history;
      forall k | 0 <= k < |c'.executions| ensures ExecutionOk(job, c', c'.executions[k]) {
        if k < |c.executions| { assert ExecutionOk(job, c, c.executions[k]); }
      }
    }
  }

  lemma CrashOrReplayKeepsInv(job: Job, c: Cluster, ev: Event)
    requires Inv(job, c) && (ev.Crash? || ev.Replay?)
    ensures Inv(job, Step(job, c, ev))
  {
    forall k | 0 <= k < |c.executions| ensures ExecutionOk(job, Step(job, c, ev), c.executions[k]) {
      assert ExecutionOk(job, c, c.executions[k]);
    }
  }

  lemma StepKeepsInv(job: Job, c: Cluster, ev: Event)
    requires Inv(job, c)
    ensures Inv(job, Step(job, c, ev))
  {
    match ev
    case Record => RecordKeepsInv(job, c);
    case Execute(answer) => ExecuteKeepsInv(job, c, answer);
    case _ => CrashOrReplayKeepsInv(job, c, ev);
  }

  lemma {:induction false} InvHolds(job: Job, evs: seq<Event>)
    ensures Inv(job, Run(job, Started, evs))
  {
    if evs != [] {
      var front, ev := evs[..|evs| - 1], evs[|evs| - 1];
      InvHolds(job, front);
      StepKeepsInv(job, Run(job, Started, front), ev);
    }
  }

  /**
    Crash anywhere, replay, and the workflow is exactly where it was: same node, state and step count,
    whatever the nodes answered.
   */
  lemma ReplayRestoresTheWorkflow(job: Job, evs: seq<Event>)
    requires Run(job, Started, evs).worker.Some?
    ensures Run(job, Run(job, Started, evs), [Crash, Replay]).worker == Run(job, Started, evs).worker
    ensures !Run(job, Started, evs).worker.value.Diverged?
  {
    InvHolds(job, evs);
    var c := Run(job, Started, evs);
    assert [Crash, Replay][..1] == [Crash] && [Crash][..0] == [];
    assert Run(job, c, [Crash]) == Step(job, c, Crash);
  }

  /** A live worker waits for the first step that is not recorded, so that is the step it executes. */
  lemma WorkerAwaitsFirstUnrecorded(job: Job, c: Cluster, ev: Event)
    requires Inv(job, c)
    ensures c.worker.Some? && c.worker.value.Awaiting? ==> c.worker.value.step == |c.history|
    ensures var c' := Step(job, c, ev);
            || c'.executions == c.executions
            || exists e: Execution :: e.step == |c.history| && c'.executions == c.executions + [e]
  {
    if c.worker.Some? && c.worker.value.Awaiting? {
      ReplayContinues(job.cg, job.cg.entry, job.input, 0, job.max, c.history, Recorded("", Ok(map[])));
      if ev.Execute? {
        var e := Execution(c.worker.value.step, c.worker.value.node, c.worker.value.state);
        assert e.step == |c.history| && Step(job, c, ev).executions == c.executions + [e];
      }
    }
  }

  lemma {:induction false} LaterExecutionsAreUnrecorded(job: Job, c: Cluster, evs: seq<Event>)
    requires Inv(job, c)
    ensures var c' := Run(job, c, evs);
            && Inv(job, c')
            && c.history <= c'.history && c.executions <= c'.executions
            && forall k :: |c.executions| <= k < |c'.executions| ==> |c.history| <= c'.executions[k].step
  {
    if evs != [] {
      var front, ev := evs[..|evs| - 1], evs[|evs| - 1];
      LaterExecutionsAreUnrecorded(job, c, front);
      StepKeepsInv(job, Run(job, c, front), ev);
      WorkerAwaitsFirstUnrecorded(job, Run(job, c, front), ev);
    }
  }

  /** Once the result of a step is recorded it stays, and that step of the workflow is never executed again. */
  lemma RecordedNodesAreNotExecutedAgain(job: Job, before: seq<Event>, after: seq<Event>, i: nat)
    requires i < |Run(job, Started, before).history|
    ensures var c, c' := Run(job, Started, before), Run(job, Run(job, Started, before), after);
            && c.history <= c'.history
            && forall k :: |c.executions| <= k < |c'.executions| ==> c'.executions[k].step != i
  {
    InvHolds(job, before);
    LaterExecutionsAreUnrecorded(job, Run(job, Started, before), after);
  }

  // ---------- the crash-free run ----------

  datatype DurableResult = DurableResult(progress: Progress, history: seq<Recorded>)

  /** The workflow with every node run once, as an activity, and never a crash. */
  function RunDurable(cg: CompiledGraph, node: string, state: State, step: nat, max: nat): DurableResult
    decreases if step <= max then max - step + 1 else 0
  {
    if node == END then DurableResult(Completed(state), [])
    else if step >= max then DurableResult(Progress.Failed(MaxSteps(max), step), [])
    else
      var answer := NodeResult(cg, node, state);
      var rec := Recorded(node, answer);
      match answer
      case Err(e) => DurableResult(Progress.Failed(e, step), [rec])
      case Ok(updates) =>
        var merged := Merged(state, updates, cg.reducers);
        match Next(cg, node, merged)
        case Err(e) => DurableResult(Progress.Failed(e, step), [rec])
        case Ok(next) =>
          var rest := RunDurable(cg, next, merged, step + 1, max);
          DurableResult(rest.progress, [rec] + rest.history)
  }

  lemma {:induction false} DurableRunEnds(cg: CompiledGraph, node: string, state: State, step: nat, max: nat)
    ensures var p := RunDurable(cg, node, state, step, max).progress; p.Completed? || p.Failed?
    decreases if step <= max then max - step + 1 else 0
  {
    if node != END && step < max && NodeResult(cg, node, state).Ok? {
      var merged := Merged(state, NodeResult(cg, node, state).value, cg.reducers);
      if Next(cg, node, merged).Ok? {
        DurableRunEnds(cg, Next(cg, node, merged).value, merged, step + 1, max);
      }
    }
  }

  /** Every proper prefix of the crash-free history leaves the workflow waiting for the next recorded node. */
  lemma {:induction false} CrashFreeHistory(cg: CompiledGraph, node: string, state: State, step: nat, max: nat, n: nat)
    requires n <= |RunDurable(cg, node, state, step, max).history|
    ensures var d := RunDurable(cg, node, state, step, max);
            var p := Orchestrate(cg, node, state, step, max, d.history[..n]);
            if n == |d.history| then p == d.progress
            else p.Awaiting? && d.history[n] == Recorded(p.node, NodeResult(cg, p.node, p.state))
    decreases n
  {
    var d := RunDurable(cg, node, state, step, max);
    if 0 < n {
      assert d.history[0] == Recorded(node, NodeResult(cg, node, state));
      if NodeResult(cg, node, state).Ok? {
        var merged := Merged(state, NodeResult(cg, node, state).value, cg.reducers);
        if Next(cg, node, merged).Ok? {
          var next := Next(cg, node, merged).value;
          var rest := RunDurable(cg, next, merged, step + 1, max);
          assert d.history == [d.history[0]] + rest.history;
          assert d.history[1..] == rest.history;
          assert d.history[..n][1..] == d.history[1..][..n - 1];
          CrashFreeHistory(cg, next, merged, step + 1, max, n - 1);
        }
      }
    }
  }

  function CrashFree(job: Job): DurableResult
  {
    RunDurable(job.cg, job.cg.entry, job.input, 0, job.max)
  }

  predicate PureStep(job: Job, c: Cluster, ev: Event)
  {
    ev.Execute? && c.worker.Some? && c.worker.value.Awaiting? ==>
      ev.answer == NodeResult(job.cg, c.worker.value.node, c.worker.value.state)
  }

  /** Nodes as functions of their input: every execution answers what the node's function answers. */
  predicate PureRun(job: Job, evs: seq<Event>)
  {
    evs == [] ||
    (PureRun(job, evs[..|evs| - 1]) && PureStep(job, Run(job, Started, evs[..|evs| - 1]), evs[|evs| - 1]))
  }

  ghost predicate OnTrack(job: Job, c: Cluster)
  {
    var d := CrashFree(job);
    && Inv(job, c)
    && c.history <= d.history
    && (c.result.Some? ==> |c.history| < |d.history| && c.result.value == d.history[|c.history|])
  }

  lemma StepStaysOnTrack(job: Job, c: Cluster, ev: Event)
    requires OnTrack(job, c) && PureStep(job, c, ev) && Inv(job, Step(job, c, ev))
    ensures OnTrack(job, Step(job, c, ev))
  {
    var d := CrashFree(job);
    var n := |c.history|;
    assert c.history == d.history[..n];
    CrashFreeHistory(job.cg, job.cg.entry, job.input, 0, job.max, n);
    DurableRunEnds(job.cg, job.cg.entry, job.input, 0, job.max);
    if ev.Record? && Step(job, c, ev).history != c.history {
      assert d.history[..n + 1] == d.history[..n] + [d.history[n]];
    }
  }

  lemma {:induction false} PureRunsStayOnTrack(job: Job, evs: seq<Event>)
    requires PureRun(job, evs)
    ensures OnTrack(job, Run(job, Started, evs))
  {
    InvHolds(job, evs);
    if evs != [] {
      PureRunsStayOnTrack(job, evs[..|evs| - 1]);
      StepStaysOnTrack(job, Run(job, Started, evs[..|evs| - 1]), evs[|evs| - 1]);
    }
  }

  /** However often it crashed, a finished run has the recorded results and the outcome of the crash-free run. */
  lemma CrashesDoNotChangeTheOutcome(job: Job, evs: seq<Event>)
    requires PureRun(job, evs)
    ensures var c := Run(job, Started, evs);
            && c.history <= CrashFree(job).history
            && (c.worker.Some? && !c.worker.value.Awaiting? ==>
                  c.history == CrashFree(job).history && c.worker.value == CrashFree(job).progress)
  {
    PureRunsStayOnTrack(job, evs);
    var c := Run(job, Started, evs);
    var n := |c.history|;
    assert c.history == CrashFree(job).history[..n];
    CrashFreeHistory(job.cg, job.cg.entry, job.input, 0, job.max, n);
  }

  lemma RunAppend(job: Job, evs: seq<Event>, ev: Event)
    ensures Run(job, Started, evs + [ev]) == Step(job, Run(job, Started, evs), ev)
    ensures PureRun(job, evs + [ev]) <==> PureRun(job, evs) && PureStep(job, Run(job, Started, evs), ev)
  {
    assert (evs + [ev])[..|evs|] == evs;
  }

  /** On track, replaying waits for a node exactly as long as a result of the crash-free run is missing. */
  lemma ReplayAwaitsTheMissing(job: Job, c: Cluster)
    requires OnTrack(job, c)
    ensures if c.history == CrashFree(job).history then Replayed(job, c.history) == CrashFree(job).progress
            else Replayed(job, c.history).Awaiting? && |c.history| < |CrashFree(job).history|
  {
    var d, n := CrashFree(job), |c.history|;
    assert c.history == d.history[..n] && d.history[..|d.history|] == d.history;
    CrashFreeHistory(job.cg, job.cg.entry, job.input, 0, job.max, n);
  }

  /** A worker that catches up and whose awaited node is then executed and recorded gets one result further. */
  lemma ThreeSteps(job: Job, c: Cluster, answer: Result<State, RunError>)
    requires var p := Replayed(job, c.history); p.Awaiting? && answer == NodeResult(job.cg, p.node, p.state)
    ensures var c1 := Step(job, c, Replay);
            var c2 := Step(job, c1, Execute(answer));
            && PureStep(job, c, Replay) && PureStep(job, c1, Execute(answer)) && PureStep(job, c2, Record)
            && |Step(job, c2, Record).history| == |c.history| + 1
  {
  }

  lemma RunAppendThree(job: Job, evs: seq<Event>, a: Event, b: Event, d: Event)
    requires PureRun(job, evs)
    ensures var c := Run(job, Started, evs);
            var c1 := Step(job, c, a);
            var c2 := Step(job, c1, b);
            && Run(job, Started, evs + [a] + [b] + [d]) == Step(job, c2, d)
            && (PureStep(job, c, a) && PureStep(job, c1, b) && PureStep(job, c2, d) ==>
                  PureRun(job, evs + [a] + [b] + [d]))
  {
    RunAppend(job, evs, a);
    RunAppend(job, evs + [a], b);
    RunAppend(job, evs + [a] + [b], d);
  }

  /** And it can always be finished: after any crashes, replaying and running what is missing completes the run. */
  lemma {:induction false} EveryRunCanBeFinished(job: Job, evs: seq<Event>) returns (all: seq<Event>)
    requires PureRun(job, evs)
    ensures PureRun(job, all) && evs <= all
    ensures Run(job, Started, all).worker == Some(CrashFree(job).progress)
    decreases |CrashFree(job).history| - |Run(job, Started, evs).history|
  {
    var c := Run(job, Started, evs);
    PureRunsStayOnTrack(job, evs);
    ReplayAwaitsTheMissing(job, c);
    if c.history == CrashFree(job).history {
      all := evs + [Replay];
      RunAppend(job, evs, Replay);
    } else {
      var p := Replayed(job, c.history);
      var answer := NodeResult(job.cg, p.node, p.state);
      ThreeSteps(job, c, answer);
      RunAppendThree(job, evs, Replay, Execute(answer), Record);
      var more := evs + [Replay] + [Execute(answer)] + [Record];
      PureRunsStayOnTrack(job, more);
      all := EveryRunCanBeFinished(job, more);
    }
  }
}
