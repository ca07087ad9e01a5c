/**
  Many clients registering and deregistering at once, as a step machine.

  Every store call locks the store, so a client moves from one store call to the next: write or
  delete the record, load the index, compare-and-set the index, and load again after a conflict.
  Between two calls of one client any number of calls of the others may happen. The log records, in
  the order they took effect, the operations that finished without error.
 */
module RegistryProtocol {
  import opened Outcomes
  import opened StateStore
  import opened Registry

  datatype Op = Register(team: string, name: string, rec: RecordDoc) | Deregister(team: string, name: string)

  function MutationOf(op: Op): Mutation
  {
    if op.Register? then Add(op.name) else Remove(op.name)
  }

  datatype Outcome = Succeeded | GaveUp | Failed

  /** A stretch of the log, from the moment an index was loaded to the moment its write was refused. */
  datatype Span = Span(lo: nat, hi: nat)

  /** Where a client is; start, at and losses only remember the log positions of its loads and conflicts. */
  datatype Phase =
    | Idle
    | Begun(op: Op)
    | Loading(op: Op, attempt: nat, start: nat, losses: seq<Span>)
    | Storing(op: Op, attempt: nat, list: seq<string>, tag: string, at: nat, start: nat, losses: seq<Span>)
    | Finished(op: Op, outcome: Outcome, start: nat, losses: seq<Span>)

  datatype LogEntry = LogEntry(client: nat, op: Op, wrote: bool)

  /** Settled: the last operation on the name finished without error. */
  datatype Status = Settled | Busy(client: nat) | Unsettled

  datatype World = World(
    store: View<Doc>,
    clients: map<nat, Phase>,
    log: seq<LogEntry>,
    status: map<(string, string), Status>)

  /** A client starts an operation, makes its next store call, or sees a store failure. */
  datatype Event = Begin(client: nat, op: Op) | Call(client: nat) | Fault(client: nat)

  function PhaseOf(w: World, i: nat): Phase
  {
    if i in w.clients then w.clients[i] else Idle
  }

  function StatusOf(w: World, team: string, name: string): Status
  {
    if (team, name) in w.status then w.status[(team, name)] else Settled
  }

  predicate InFlight(p: Phase)
  {
    p.Begun? || p.Loading? || p.Storing?
  }

  // ---------- one step ----------

  function Finish(w: World, i: nat, op: Op, outcome: Outcome, start: nat, losses: seq<Span>): World
  {
    w.(clients := w.clients[i := Finished(op, outcome, start, losses)],
       status := w.status[(op.team, op.name) := if outcome == Succeeded then Settled else Unsettled])
  }

  /** The first store call: overwrite or delete the record, without looking at its etag. */
  function RecordStep(w: World, i: nat, op: Op): World
  {
    var key := AgentKey(op.team, op.name);
    w.(store := if op.Register? then Put(w.store, key, Record(op.rec)) else w.store - {key},
       clients := w.clients[i := Loading(op, 1, |w.log|, [])])
  }

  function LoadStep(w: World, i: nat, op: Op, attempt: nat, start: nat, losses: seq<Span>): World
  {
    match LoadView(w.store, IndexKey(op.team))
    case Err(_) => Finish(w, i, op, Failed, start, losses)
    case Ok((list, tag)) =>
      if Changes(MutationOf(op), list)
      then w.(clients := w.clients[i := Storing(op, attempt, list, tag, |w.log|, start, losses)])
      else Finish(w, i, op, Succeeded, start, losses).(log := w.log + [LogEntry(i, op, false)])
  }

  function StoreStep(w: World, i: nat, p: Phase): World
    requires p.Storing?
  {
    var doc := Index(Applied(MutationOf(p.op), p.list));
    var (store, stored) := TrySet(w.store, IndexKey(p.op.team), doc, p.tag);
    var losses := p.losses + [Span(p.at, |w.log|)];
    if stored then
      Finish(w, i, p.op, Succeeded, p.start, p.losses).(store := store, log := w.log + [LogEntry(i, p.op, true)])
    else if p.attempt >= MAX_ETAG_ATTEMPTS then
      Finish(w, i, p.op, GaveUp, p.start, losses)
    else
      w.(clients := w.clients[i := Loading(p.op, p.attempt + 1, p.start, losses)])
  }

  function CallStep(w: World, i: nat): World
  {
    match PhaseOf(w, i)
    case Begun(op) => RecordStep(w, i, op)
    case Loading(op, attempt, start, losses) => LoadStep(w, i, op, attempt, start, losses)
    case Storing(_, _, _, _, _, _, _) => StoreStep(w, i, PhaseOf(w, i))
    case _ => w
  }

  function BeginStep(w: World, i: nat, op: Op): World
  {
    var o := op.(team := EffectiveTeam(op.team));
    if InFlight(PhaseOf(w, i)) then w
    else if o.Register? && o.name == "" then w.(clients := w.clients[i := Finished(o, Failed, 0, [])])
    else w.(clients := w.clients[i := Begun(o)], status := w.status[(o.team, o.name) := Busy(i)])
  }

  function Step(w: World, ev: Event): World
  {
    match ev
    case Begin(i, op) => BeginStep(w, i, op)
    case Call(i) => CallStep(w, i)
    case Fault(i) => if InFlight(PhaseOf(w, i)) then Finish(w, i, PhaseOf(w, i).op, Failed, 0, []) else w
  }

  function Run(w: World, evs: seq<Event>): World
  {
    if evs == [] then w else Step(Run(w, evs[..|evs| - 1]), evs[|evs| - 1])
  }

  // ---------- what is assumed of the runs ----------

  /** No colon in a team and no agent called _index: then no record key is an index key. */
  predicate WellNamed(op: Op)
  {
    ColonFree(op.team) && op.name != "_index"
  }

  ghost predicate WellNamedRun(evs: seq<Event>)
  {
    forall k :: 0 <= k < |evs| && evs[k].Begin? ==> WellNamed(evs[k].op)
  }

  /** A start: any store, no client under way. */
  predicate Fresh(w: World)
  {
    w.clients == map[] && w.log == [] && w.status == map[]
  }

  predicate TeamName(team: string)
  {
    team != "" && ColonFree(team)
  }

  predicate ResolvedOp(op: Op)
  {
    WellNamed(op) && op.team != ""
  }

  // ---------- reading the log ----------

  function IndexList(s: View<Doc>, team: string): seq<string>
  {
    match LoadView(s, IndexKey(team))
    case Ok((list, _)) => list
    case Err(_) => []
  }

  /** The list that results from applying the logged operations of a team one after the other. */
  function Fold(start: seq<string>, log: seq<LogEntry>, team: string): seq<string>
  {
    if log == [] then start else
    var before := Fold(start, log[..|log| - 1], team);
    var e := log[|log| - 1];
    if e.op.team == team then Applied(MutationOf(e.op), before) else before
  }

  /** How many index writes of a team the log holds. */
  function Writes(log: seq<LogEntry>, team: string): nat
  {
    if log == [] then 0 else
    var e := log[|log| - 1];
    Writes(log[..|log| - 1], team) + if e.wrote && e.op.team == team then 1 else 0
  }

  predicate ForeignWrite(e: LogEntry, team: string, i: nat)
  {
    e.wrote && e.op.team == team && e.client != i
  }

  /** How many index writes of a team by clients other than i the log holds. */
  function ForeignWrites(log: seq<LogEntry>, team: string, i: nat): nat
  {
    if log == [] then 0 else
    ForeignWrites(log[..|log| - 1], team, i) + if ForeignWrite(log[|log| - 1], team, i) then 1 else 0
  }

  lemma LogGrows(log: seq<LogEntry>, e: LogEntry)
    ensures (log + [e])[..|log|] == log && (log + [e])[|log|] == e
    ensures forall n :: 0 <= n <= |log| ==> (log + [e])[..n] == log[..n]
  {
  }

  lemma {:induction false} WriteBetween(log: seq<LogEntry>, a: nat, b: nat, team: string)
    requires a <= b <= |log|
    ensures Writes(log[..a], team) <= Writes(log[..b], team)
    ensures Writes(log[..a], team) < Writes(log[..b], team) ==>
              exists j :: a <= j < b && log[j].wrote && log[j].op.team == team
  {
    if a < b {
      WriteBetween(log, a, b - 1, team);
      assert log[..b][..b - 1] == log[..b - 1];
      if log[b - 1].wrote && log[b - 1].op.team == team {
        assert a <= b - 1 < b;
      }
    }
  }

  lemma {:induction false} ForeignWritesGrow(log: seq<LogEntry>, a: nat, b: nat, team: string, i: nat)
    requires a <= b <= |log|
    ensures ForeignWrites(log[..a], team, i) <= ForeignWrites(log[..b], team, i)
  {
    if a < b {
      ForeignWritesGrow(log, a, b - 1, team, i);
      assert log[..b][..b - 1] == log[..b - 1];
    }
  }

  // ---------- invariant: versions count writes, and every refused write was beaten by another client ----------

  ghost predicate HoldsForeignWrite(log: seq<LogEntry>, span: Span, team: string, i: nat)
    requires span.hi <= |log|
  {
    exists j :: span.lo <= j < span.hi && ForeignWrite(log[j], team, i)
  }

  /** The refused attempts: disjoint stretches of the log, each holding an index write by another client. */
  ghost predicate SpansHoldForeignWrites(
      log: seq<LogEntry>, team: string, i: nat, start: nat, losses: seq<Span>, end: nat)
  {
    && start <= end <= |log|
    && (forall k :: 0 <= k < |losses| ==> start <= losses[k].lo < losses[k].hi <= end)
    && (forall k, l :: 0 <= k < l < |losses| ==> losses[k].hi <= losses[l].lo)
    && (forall k :: 0 <= k < |losses| ==> HoldsForeignWrite(log, losses[k], team, i))
  }

  /** Nothing client i did has been logged since position start. */
  ghost predicate Silent(log: seq<LogEntry>, i: nat, start: nat)
  {
    forall j :: start <= j < |log| ==> log[j].client != i
  }

  ghost function VersionAt(s0: View<Doc>, log: seq<LogEntry>, team: string): nat
  {
    VersionOf(s0, IndexKey(team)) + Writes(log, team)
  }

  ghost predicate ClientOk(s0: View<Doc>, w: World, i: nat)
  {
    match PhaseOf(w, i)
    case Idle => true
    case Begun(op) => ResolvedOp(op)
    case Loading(op, attempt, start, losses) =>
      && ResolvedOp(op) && attempt == |losses| + 1 <= MAX_ETAG_ATTEMPTS
      && Silent(w.log, i, start)
      && SpansHoldForeignWrites(w.log, op.team, i, start, losses, |w.log|)
    case Storing(op, attempt, list, tag, at, start, losses) =>
      && ResolvedOp(op) && attempt == |losses| + 1 <= MAX_ETAG_ATTEMPTS
      && Silent(w.log, i, start)
      && SpansHoldForeignWrites(w.log, op.team, i, start, losses, at)
      && tag == EtagString(VersionAt(s0, w.log[..at], op.team))
    case Finished(op, outcome, start, losses) =>
      outcome == GaveUp ==>
        && |losses| == MAX_ETAG_ATTEMPTS
        && SpansHoldForeignWrites(w.log, op.team, i, start, losses, |w.log|)
  }

  ghost predicate VersionsOk(s0: View<Doc>, w: World)
  {
    forall t :: TeamName(t) ==> VersionOf(w.store, IndexKey(t)) == VersionAt(s0, w.log, t)
  }

  ghost predicate Inv(s0: View<Doc>, w: World)
  {
    VersionsOk(s0, w) && forall i: nat :: ClientOk(s0, w, i)
  }

  /** What one event can do to a world, seen from a bystander: at most one log entry, by the acting client. */
  lemma StepFrame(w: World, ev: Event, i: nat)
    requires i != ev.client
    ensures PhaseOf(Step(w, ev), i) == PhaseOf(w, i)
    ensures || Step(w, ev).log == w.log
            || exists e: LogEntry :: e.client == ev.client && Step(w, ev).log == w.log + [e]
  {
    var w' := Step(w, ev);
    if w'.log != w.log {
      assert w'.log == w.log + [w'.log[|w.log|]];
    }
  }

  lemma SpansSurvive(log: seq<LogEntry>, e: LogEntry, team: string, i: nat, start: nat, losses: seq<Span>, end: nat)
    requires SpansHoldForeignWrites(log, team, i, start, losses, end)
    ensures SpansHoldForeignWrites(log + [e], team, i, start, losses, end)
    ensures SpansHoldForeignWrites(log + [e], team, i, start, losses, |log| + 1)
  {
    forall k | 0 <= k < |losses|
      ensures HoldsForeignWrite(log + [e], losses[k], team, i)
    {
      assert HoldsForeignWrite(log, losses[k], team, i);
      var j :| losses[k].lo <= j < losses[k].hi && ForeignWrite(log[j], team, i);
      assert (log + [e])[j] == log[j];
    }
  }

  lemma BystanderOk(s0: View<Doc>, w: World, ev: Event, i: nat)
    requires ClientOk(s0, w, i) && i != ev.client
    ensures ClientOk(s0, Step(w, ev), i)
  {
    StepFrame(w, ev, i);
    var w' := Step(w, ev);
    if w'.log != w.log {
      var e: LogEntry :| e.client == ev.client && w'.log == w.log + [e];
      LogGrows(w.log, e);
      match PhaseOf(w, i)
      case Loading(op, _, start, losses) => SpansSurvive(w.log, e, op.team, i, start, losses, |w.log|);
      case Storing(op, _, _, _, at, start, losses) => SpansSurvive(w.log, e, op.team, i, start, losses, at);
      case Finished(op, outcome, start, losses) =>
        if outcome == GaveUp { SpansSurvive(w.log, e, op.team, i, start, losses, |w.log|); }
      case _ =>
    }
  }

  /** A refused write means another client has written the index since this one loaded it. */
  lemma RefusalNeedsForeignWrite(s0: View<Doc>, w: World, i: nat)
    requires Inv(s0, w) && PhaseOf(w, i).Storing?
    requires !TrySet(w.store, IndexKey(PhaseOf(w, i).op.team), Blank, PhaseOf(w, i).tag).1
    ensures var p := PhaseOf(w, i);
            p.at < |w.log| && HoldsForeignWrite(w.log, Span(p.at, |w.log|), p.op.team, i)
  {
    var p := PhaseOf(w, i);
    assert ClientOk(s0, w, i);
    var t := p.op.team;
    TrySetSucceedsIffCurrent(w.store, IndexKey(t), Blank, VersionAt(s0, w.log[..p.at], t));
    assert VersionOf(w.store, IndexKey(t)) == VersionAt(s0, w.log, t);
    assert w.log[..|w.log|] == w.log;
    WriteBetween(w.log, p.at, |w.log|, t);
    var j :| p.at <= j < |w.log| && w.log[j].wrote && w.log[j].op.team == t;
    assert ForeignWrite(w.log[j], t, i);
  }

  lemma OneMoreSpan(log: seq<LogEntry>, team: string, i: nat, start: nat, losses: seq<Span>, at: nat)
    requires SpansHoldForeignWrites(log, team, i, start, losses, at)
    requires at < |log| && HoldsForeignWrite(log, Span(at, |log|), team, i)
    ensures SpansHoldForeignWrites(log, team, i, start, losses + [Span(at, |log|)], |log|)
  {
  }

  /** So each refused attempt adds one more such stretch to those before it. */
  lemma ConflictWasForeign(s0: View<Doc>, w: World, i: nat)
    requires Inv(s0, w) && PhaseOf(w, i).Storing?
    requires !TrySet(w.store, IndexKey(PhaseOf(w, i).op.team), Blank, PhaseOf(w, i).tag).1
    ensures var p := PhaseOf(w, i);
            SpansHoldForeignWrites(w.log, p.op.team, i, p.start, p.losses + [Span(p.at, |w.log|)], |w.log|)
  {
    var p := PhaseOf(w, i);
    assert ClientOk(s0, w, i);
    RefusalNeedsForeignWrite(s0, w, i);
    OneMoreSpan(w.log, p.op.team, i, p.start, p.losses, p.at);
  }

  lemma BeginOk(s0: View<Doc>, w: World, i: nat, op: Op)
    requires ClientOk(s0, w, i) && WellNamed(op)
    ensures ClientOk(s0, BeginStep(w, i, op), i)
  {
    assert ColonFree(DEFAULT_TEAM);
  }

  lemma LoadOk(s0: View<Doc>, w: World, i: nat)
    requires Inv(s0, w) && PhaseOf(w, i).Loading?
    ensures ClientOk(s0, CallStep(w, i), i)
  {
    assert ClientOk(s0, w, i);
    var t := PhaseOf(w, i).op.team;
    assert w.log[..|w.log|] == w.log;
    assert VersionOf(w.store, IndexKey(t)) == VersionAt(s0, w.log, t);
  }

  lemma StoreOk(s0: View<Doc>, w: World, i: nat)
    requires Inv(s0, w) && PhaseOf(w, i).Storing?
    ensures ClientOk(s0, CallStep(w, i), i)
  {
    assert ClientOk(s0, w, i);
    var p := PhaseOf(w, i);
    if !TrySet(w.store, IndexKey(p.op.team), Blank, p.tag).1 {
      ConflictWasForeign(s0, w, i);
    }
  }

  lemma ActorOk(s0: View<Doc>, w: World, ev: Event)
    requires Inv(s0, w) && (ev.Begin? ==> WellNamed(ev.op))
    ensures ClientOk(s0, Step(w, ev), ev.client)
  {
    var i := ev.client;
    assert ClientOk(s0, w, i);
    match ev
    case Begin(_, op) => BeginOk(s0, w, i, op);
    case Fault(_) =>
    case Call(_) =>
      match PhaseOf(w, i)
      case Loading(_, _, _, _) => LoadOk(s0, w, i);
      case Storing(_, _, _, _, _, _, _) => StoreOk(s0, w, i);
      case _ =>
  }

  /** No step of a well-named operation touches another team's index, and its record call touches no index. */
  lemma OtherIndexUntouched(w: World, i: nat, t: string)
    requires TeamName(t)
    requires InFlight(PhaseOf(w, i)) && ResolvedOp(PhaseOf(w, i).op)
    requires PhaseOf(w, i).Storing? ==> PhaseOf(w, i).op.team != t
    ensures IndexKey(t) in CallStep(w, i).store <==> IndexKey(t) in w.store
    ensures IndexKey(t) in w.store ==> CallStep(w, i).store[IndexKey(t)] == w.store[IndexKey(t)]
  {
    var op := PhaseOf(w, i).op;
    KeysAreInjective(op.team, op.name, t, "");
  }

  /** Whether client i's next call is a compare-and-set that will succeed on team t's index. */
  predicate AboutToWrite(w: World, i: nat, t: string)
  {
    var p := PhaseOf(w, i);
    p.Storing? && p.op.team == t && TrySet(w.store, IndexKey(t), Blank, p.tag).1
  }

  lemma WritesOneMore(log: seq<LogEntry>, e: LogEntry, t: string)
    ensures Writes(log + [e], t) == Writes(log, t) + if e.wrote && e.op.team == t then 1 else 0
  {
    LogGrows(log, e);
  }

  lemma LogCountsWrites(w: World, i: nat, t: string)
    ensures Writes(CallStep(w, i).log, t) == Writes(w.log, t) + if AboutToWrite(w, i, t) then 1 else 0
  {
    match PhaseOf(w, i)
    case Loading(op, _, _, _) => WritesOneMore(w.log, LogEntry(i, op, false), t);
    case Storing(op, _, _, _, _, _, _) => WritesOneMore(w.log, LogEntry(i, op, true), t);
    case _ =>
  }

  lemma StoreCountsWrites(w: World, i: nat, t: string)
    requires PhaseOf(w, i).Storing? && PhaseOf(w, i).op.team == t
    ensures VersionOf(CallStep(w, i).store, IndexKey(t)) ==
            VersionOf(w.store, IndexKey(t)) + if AboutToWrite(w, i, t) then 1 else 0
  {
  }

  lemma VersionStep(s0: View<Doc>, w: World, i: nat, t: string)
    requires Inv(s0, w) && TeamName(t)
    ensures VersionOf(CallStep(w, i).store, IndexKey(t)) == VersionAt(s0, CallStep(w, i).log, t)
  {
    assert VersionOf(w.store, IndexKey(t)) == VersionAt(s0, w.log, t);
    assert ClientOk(s0, w, i);
    LogCountsWrites(w, i, t);
    if PhaseOf(w, i).Storing? && PhaseOf(w, i).op.team == t {
      StoreCountsWrites(w, i, t);
    } else if InFlight(PhaseOf(w, i)) {
      OtherIndexUntouched(w, i, t);
    }
  }

  lemma VersionsStep(s0: View<Doc>, w: World, ev: Event)
    requires Inv(s0, w)
    ensures VersionsOk(s0, Step(w, ev))
  {
    var w' := Step(w, ev);
    forall t | TeamName(t)
      ensures VersionOf(w'.store, IndexKey(t)) == VersionAt(s0, w'.log, t)
    {
      assert VersionOf(w.store, IndexKey(t)) == VersionAt(s0, w.log, t);
      if ev.Call? {
        VersionStep(s0, w, ev.client, t);
      }
    }
  }

  lemma {:induction false} InvHolds(w0: World, evs: seq<Event>)
    requires Fresh(w0) && WellNamedRun(evs)
    ensures Inv(w0.store, Run(w0, evs))
  {
    if evs != [] {
      var front, ev := evs[..|evs| - 1], evs[|evs| - 1];
      InvHolds(w0, front);
      var w := Run(w0, front);
      VersionsStep(w0.store, w, ev);
      forall i: nat ensures ClientOk(w0.store, Step(w, ev), i) {
        assert ClientOk(w0.store, w, i);
        if i == ev.client { ActorOk(w0.store, w, ev); } else { BystanderOk(w0.store, w, ev, i); }
      }
    }
  }

  // ---------- giving up ----------

  lemma {:induction false} SpansCount(log: seq<LogEntry>, team: string, i: nat, start: nat, losses: seq<Span>, end: nat)
    requires SpansHoldForeignWrites(log, team, i, start, losses, end)
    ensures ForeignWrites(log[..end], team, i) >= ForeignWrites(log[..start], team, i) + |losses|
    decreases |losses|
  {
    if losses == [] {
      ForeignWritesGrow(log, start, end, team, i);
    } else {
      var n := |losses| - 1;
      var last := losses[n];
      var front := losses[..n];
      assert forall k :: 0 <= k < n ==> front[k] == losses[k];
      SpansCount(log, team, i, start, front, last.lo);
      assert HoldsForeignWrite(log, last, team, i);
      var j :| last.lo <= j < last.hi && ForeignWrite(log[j], team, i);
      ForeignWritesGrow(log, last.lo, j, team, i);
      assert log[..j + 1][..j] == log[..j];
      ForeignWritesGrow(log, j + 1, end, team, i);
    }
  }

  /**
    An update that gives up lost ten times, each time to an index write by another client between its
    load and its compare-and-set; these stretches are disjoint, so the others made at least ten writes.
   */
  lemma GivingUpCostsTenForeignWrites(w0: World, evs: seq<Event>, i: nat)
    requires Fresh(w0) && WellNamedRun(evs)
    requires PhaseOf(Run(w0, evs), i).Finished? && PhaseOf(Run(w0, evs), i).outcome == GaveUp
    ensures var w := Run(w0, evs); var p := PhaseOf(w, i);
            && |p.losses| == MAX_ETAG_ATTEMPTS
            && SpansHoldForeignWrites(w.log, p.op.team, i, p.start, p.losses, |w.log|)
            && ForeignWrites(w.log, p.op.team, i) - ForeignWrites(w.log[..p.start], p.op.team, i) >= 10
  {
    InvHolds(w0, evs);
    var w := Run(w0, evs);
    var p := PhaseOf(w, i);
    assert ClientOk(w0.store, w, i);
    SpansCount(w.log, p.op.team, i, p.start, p.losses, |w.log|);
    assert w.log[..|w.log|] == w.log;
  }
}
