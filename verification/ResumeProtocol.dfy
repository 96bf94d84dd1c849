/** Resuming executions, across processes. Timers, webhooks, completing children and retries, and the
    recovery of executions enqueued before a restart, all end in the same three accesses to the database:
    read the execution, claim the row with a compare-and-swap on its status, run on what was read. A
    completing child first patches the waiting parent with an unguarded read-check-write. Every access is
    an atomic step; everything else interleaves, and processes may crash.

    This module is about who wins; `ParentResume` is about what the winner runs on. */
module ResumeProtocol {
  import opened Common
  import opened ParentResults
  import Lifecycle = ExecutionLifecycle

  type Status = Lifecycle.Status

  /** Where data comes from: what some pause or creation wrote, and the children whose patches it has gone
      through since, each of whom had read what the one before wrote. */
  datatype Lineage = Lineage(base: ParentData, chain: seq<ChildRun>)

  /** Bookkeeping that influences nothing: how often the row became `waiting` and was canceled while it was,
      what its last pause wrote, which children have written since, where its data comes from, and how often
      its data was written. */
  datatype History = History(
    entered: nat,
    withdrawn: nat,
    paused: ParentData,
    writers: seq<ChildRun>,
    lineage: Lineage,
    version: nat)

  datatype Row = Row(status: Status, data: ParentData, history: History)

  /** What was read; the rest says when and where it came from, and influences nothing. */
  datatype Reading = Reading(data: ParentData, lineage: Lineage, version: nat, wait: nat, writes: nat)

  datatype Pc =
    | Updating                 // about to read the parent it will patch
    | Writing(read: Reading)   // read it waiting, about to write
    | Starting                 // about to read the data to run on
    | Claiming(read: Reading)  // about to compare-and-swap
    | Won(run: nat)
    | Lost
    | GaveUp

  /** One flow of control trying to take over `target`; `child` if it starts with a child's results. `phase`
      is the wait its target was in when it began and influences nothing. */
  datatype Actor = Actor(target: string, expected: Status, child: Option<ChildRun>, pc: Pc, phase: nat)

  /** A run of the engine, from being started or claimed until it has written its final status; `claimed`
      is the status its claim expected. */
  datatype EngineRun = EngineRun(target: string, input: ParentData, claimed: Option<Status>, live: bool)

  datatype System = System(rows: map<string, Row>, actors: map<nat, Actor>, runs: map<nat, EngineRun>)

  datatype Step =
    | Create(id: string, data: ParentData, run: nat)
    | Enqueue(id: string, data: ParentData)                 // a row for somebody to take over
    | ChildEnds(actor: nat, id: string, child: ChildRun)
    | Attempt(actor: nat, id: string, expected: Status)     // a timer, an orphan timer, a webhook, a recovery
    | ReadParent(actor: nat)
    | WriteParent(actor: nat)
    | ReadExecution(actor: nat)
    | Claim(actor: nat, run: nat)
    | Retry(actor: nat)
    | GiveUp(actor: nat)
    | MarkRunning(run: nat)                                 // the unconditional `setRunning`
    | Pause(run: nat, data: ParentData)
    | Finish(run: nat, status: Status)
    | Crash(run: nat)                                       // the process dies, the row stays as it is
    | Cancel(id: string)                                    // the unconditional write of a stop

  function Init(): System { System(map[], map[], map[]) }

  // ---------- steps ----------

  function Goto(s: System, a: nat, pc: Pc): System
    requires a in s.actors
  {
    s.(actors := s.actors[a := s.actors[a].(pc := pc)])
  }

  function SetRow(s: System, id: string, row: Row): System { s.(rows := s.rows[id := row]) }

  function NewRow(data: ParentData): Row {
    Row(Lifecycle.New, data, History(0, 0, data, [], Lineage(data, []), 0))
  }

  /** Creating a row, and a run of it if its creator starts one. */
  function AddRow(s: System, id: string, data: ParentData, run: Option<nat>): System {
    var s' := SetRow(s, id, NewRow(data));
    if run.Some? then s'.(runs := s.runs[run.value := EngineRun(id, data, None, true)]) else s'
  }

  function Begin(s: System, a: nat, id: string, expected: Status, child: Option<ChildRun>): System {
    s.(actors := s.actors[a := Actor(id, expected, child, if child.Some? then Updating else Starting,
                                     if id in s.rows then s.rows[id].history.entered else 0)])
  }

  function Read(row: Row): Reading {
    Reading(row.data, row.history.lineage, row.history.version, row.history.entered, |row.history.writers|)
  }

  function DoReadParent(s: System, a: nat): System
    requires a in s.actors && s.actors[a].child.Some?
  {
    var id, child := s.actors[a].target, s.actors[a].child.value;
    if Reports(child) && id in s.rows && s.rows[id].status == Lifecycle.Waiting && s.rows[id].data.stack != []
    then Goto(s, a, Writing(Read(s.rows[id])))
    else Goto(s, a, Starting)
  }

  function Written(row: Row, read: Reading, child: ChildRun): Row {
    row.(data := Patched(read.data, child),
         history := row.history.(writers := row.history.writers + [child],
                                 lineage := Lineage(read.lineage.base, read.lineage.chain + [child]),
                                 version := row.history.version + 1))
  }

  predicate CanWrite(s: System, a: nat) {
    a in s.actors && s.actors[a].pc.Writing? && s.actors[a].child.Some? && s.actors[a].target in s.rows
  }

  /** No condition on the status the row has by now. */
  function DoWriteParent(s: System, a: nat): System
    requires CanWrite(s, a)
  {
    var id := s.actors[a].target;
    Goto(SetRow(s, id, Written(s.rows[id], s.actors[a].pc.read, s.actors[a].child.value)), a, Starting)
  }

  function DoReadExecution(s: System, a: nat): System
    requires a in s.actors
  {
    var id := s.actors[a].target;
    if id !in s.rows || s.rows[id].status == Lifecycle.Success then Goto(s, a, GaveUp)
    else Goto(s, a, Claiming(Read(s.rows[id])))
  }

  predicate CanClaim(s: System, a: nat) {
    a in s.actors && s.actors[a].pc.Claiming? && s.actors[a].target in s.rows
      && s.rows[s.actors[a].target].status == s.actors[a].expected
  }

  /** The compare-and-swap also writes back the data that was read. */
  function Claimed(row: Row, read: Reading): Row {
    row.(status := Lifecycle.Running, data := read.data,
         history := row.history.(lineage := read.lineage, version := row.history.version + 1))
  }

  function DoClaim(s: System, a: nat, run: nat): System
    requires a in s.actors && s.actors[a].pc.Claiming?
  {
    if !CanClaim(s, a) then Goto(s, a, Lost) else
      var actor := s.actors[a];
      Goto(SetRow(s, actor.target, Claimed(s.rows[actor.target], actor.pc.read)), a, Won(run))
        .(runs := s.runs[run := EngineRun(actor.target, actor.pc.read.data, Some(actor.expected), true)])
  }

  /** An attempt that failed starts over; after a claim too, if something after it threw. */
  function DoRetry(s: System, a: nat): System
    requires a in s.actors
  {
    match s.actors[a].pc
    case Writing(_) => Goto(s, a, Updating)
    case Claiming(_) => Goto(s, a, Starting)
    case Won(_) => Goto(s, a, Starting)
    case _ => s
  }

  predicate Live(s: System, run: nat) {
    run in s.runs && s.runs[run].live && s.runs[run].target in s.rows
  }

  type Runs = map<nat, EngineRun>

  function Stopped(runs: Runs, run: nat): Runs
    requires run in runs
  {
    runs[run := runs[run].(live := false)]
  }

  function Stop(s: System, run: nat): System
    requires run in s.runs
  {
    s.(runs := Stopped(s.runs, run))
  }

  /** The final write of a run never overwrites a canceled status. */
  function EndRun(s: System, run: nat, row: Row): System
    requires Live(s, run)
  {
    var id := s.runs[run].target;
    Stop(if s.rows[id].status == Lifecycle.Canceled then s else SetRow(s, id, row), run)
  }

  function Paused(row: Row, data: ParentData): Row {
    Row(Lifecycle.Waiting, data,
        History(row.history.entered + 1, row.history.withdrawn, data, [], Lineage(data, []), row.history.version + 1))
  }

  predicate Over(status: Status) { status !in {Lifecycle.New, Lifecycle.Running, Lifecycle.Waiting} }

  function Withdrawn(row: Row): Row {
    var withdrawals := if row.status == Lifecycle.Waiting then 1 else 0;
    row.(status := Lifecycle.Canceled, history := row.history.(withdrawn := row.history.withdrawn + withdrawals))
  }

  /** A stop looks at the status first, but at any time before: every row was stoppable once. */
  function DoCancel(s: System, id: string): System
    requires id in s.rows
  {
    SetRow(s, id, Withdrawn(s.rows[id]))
  }

  /** A step that is not possible leaves the system alone. A waiting execution has the node it waits in on
      its stack. */
  function Apply(s: System, step: Step): System {
    match step
    case Create(id, data, run) =>
      if id in s.rows || run in s.runs || data.stack == [] then s else AddRow(s, id, data, Some(run))
    case Enqueue(id, data) => if id in s.rows || data.stack == [] then s else AddRow(s, id, data, None)
    case ChildEnds(a, id, child) => if a in s.actors then s else Begin(s, a, id, Lifecycle.Waiting, Some(child))
    case Attempt(a, id, expected) =>
      if a in s.actors || expected !in {Lifecycle.New, Lifecycle.Waiting} then s else Begin(s, a, id, expected, None)
    case ReadParent(a) =>
      if a in s.actors && s.actors[a].pc.Updating? && s.actors[a].child.Some? then DoReadParent(s, a) else s
    case WriteParent(a) => if CanWrite(s, a) then DoWriteParent(s, a) else s
    case ReadExecution(a) => if a in s.actors && s.actors[a].pc.Starting? then DoReadExecution(s, a) else s
    case Claim(a, run) =>
      if a in s.actors && s.actors[a].pc.Claiming? && run !in s.runs then DoClaim(s, a, run) else s
    case Retry(a) => if a in s.actors then DoRetry(s, a) else s
    case GiveUp(a) => if a in s.actors then Goto(s, a, GaveUp) else s
    case MarkRunning(run) =>
      if !Live(s, run) then s else
        var id := s.runs[run].target;
        SetRow(s, id, s.rows[id].(status := Lifecycle.Running))
    case Pause(run, data) =>
      if Live(s, run) && data.stack != [] then EndRun(s, run, Paused(s.rows[s.runs[run].target], data)) else s
    case Finish(run, status) =>
      if Live(s, run) && Over(status) then EndRun(s, run, s.rows[s.runs[run].target].(status := status)) else s
    case Crash(run) => if Live(s, run) then Stop(s, run) else s
    case Cancel(id) => if id in s.rows then DoCancel(s, id) else s
  }

  function Run(s: System, steps: seq<Step>): System {
    if steps == [] then s else Apply(Run(s, steps[..|steps| - 1]), steps[|steps| - 1])
  }

  // ---------- claims never exceed waits ----------

  predicate IsWaiting(s: System, id: string) { id in s.rows && s.rows[id].status == Lifecycle.Waiting }

  /** The step is a claim that expects the row to wait, and wins. */
  predicate WinsWait(s: System, step: Step, id: string) {
    step.Claim? && step.run !in s.runs && CanClaim(s, step.actor)
      && s.actors[step.actor].target == id && s.actors[step.actor].expected == Lifecycle.Waiting
  }

  /** How many claims of `id` as a waiting execution win in a run. */
  ghost function Wins(steps: seq<Step>, id: string): nat {
    if steps == [] then 0 else
      var n := |steps| - 1;
      Wins(steps[..n], id) + if WinsWait(Run(Init(), steps[..n]), steps[n], id) then 1 else 0
  }

  /** How often the row of `id` becomes waiting in a run. */
  ghost function Waits(steps: seq<Step>, id: string): nat {
    if steps == [] then 0 else
      var n := |steps| - 1;
      Waits(steps[..n], id)
        + if !IsWaiting(Run(Init(), steps[..n]), id) && IsWaiting(Run(Init(), steps), id) then 1 else 0
  }

  lemma WinningEndsTheWait(s: System, step: Step, id: string)
    requires WinsWait(s, step, id)
    ensures IsWaiting(s, id) && !IsWaiting(Apply(s, step), id)
  {}

  /** In every interleaving of any number of timers, child completions, webhooks, retries, recoveries,
      cancellations and crashes: an execution is resumed at most as often as its row became waiting, and
      less often while it still waits. */
  lemma {:induction false} WinsNeverExceedWaits(steps: seq<Step>, id: string)
    ensures Wins(steps, id) + (if IsWaiting(Run(Init(), steps), id) then 1 else 0) <= Waits(steps, id)
  {
    if steps != [] {
      var n := |steps| - 1;
      WinsNeverExceedWaits(steps[..n], id);
      if WinsWait(Run(Init(), steps[..n]), steps[n], id) {
        WinningEndsTheWait(Run(Init(), steps[..n]), steps[n], id);
      }
    }
  }

  /** A claim wins exactly if the row has the status it expects; one that loses changes no row and starts
      no run, however it came about. */
  lemma ClaimWinsIffExpected(s: System, a: nat, run: nat)
    requires a in s.actors && s.actors[a].pc.Claiming? && run !in s.runs && s.actors[a].target in s.rows
    ensures var s', actor := Apply(s, Claim(a, run)), s.actors[a];
      && (s'.actors[a].pc == Won(run) <==> s.rows[actor.target].status == actor.expected)
      && (s'.actors[a].pc == Lost <==> s.rows[actor.target].status != actor.expected)
      && (s'.actors[a].pc == Lost ==> s'.rows == s.rows && s'.runs == s.runs)
      && (s'.actors[a].pc == Won(run) ==> s'.rows[actor.target].status == Lifecycle.Running && Live(s', run))
  {}

  // ---------- how one row and the runs of its execution change ----------

  /** Runs belong to rows, and actors only ever expect `new` or `waiting`. */
  ghost predicate Grounded(s: System) {
    && (forall r :: r in s.runs ==> s.runs[r].target in s.rows)
    && (forall a :: a in s.actors ==> s.actors[a].expected in {Lifecycle.New, Lifecycle.Waiting})
  }

  lemma ApplyKeepsRunsGrounded(s: System, step: Step)
    requires Grounded(s)
    ensures forall r :: r in Apply(s, step).runs ==> Apply(s, step).runs[r].target in Apply(s, step).rows
  {}

  lemma ApplyKeepsExpectations(s: System, step: Step)
    requires Grounded(s)
    ensures forall a :: a in Apply(s, step).actors ==>
      Apply(s, step).actors[a].expected in {Lifecycle.New, Lifecycle.Waiting}
  {}

  lemma {:induction false} RunIsGrounded(steps: seq<Step>)
    ensures Grounded(Run(Init(), steps))
  {
    if steps != [] {
      var n := |steps| - 1;
      RunIsGrounded(steps[..n]);
      ApplyKeepsRunsGrounded(Run(Init(), steps[..n]), steps[n]);
      ApplyKeepsExpectations(Run(Init(), steps[..n]), steps[n]);
    }
  }

  predicate RunsNow(runs: Runs, run: nat, id: string) { run in runs && runs[run].live && runs[run].target == id }

  predicate SameCounts(row: Row, row': Row) {
    && row'.history.entered == row.history.entered && row'.history.withdrawn == row.history.withdrawn
    && (row'.status == Lifecycle.Waiting <==> row.status == Lifecycle.Waiting)
    && (row'.status == Lifecycle.New ==> row.status == Lifecycle.New)
  }

  function One(b: bool): nat { if b then 1 else 0 }

  /** How a run's final write may count: only becoming waiting counts, and it counts once. */
  predicate CountsFinalWrite(before: Row, after: Row) {
    && after.status != Lifecycle.New && after.history.withdrawn == before.history.withdrawn
    && after.history.entered == before.history.entered + One(after.status == Lifecycle.Waiting)
  }

  /** What a step can do to a row and to the runs, seen from one execution. */
  datatype Change =
    | Quietly                            // nothing that counts
    | ByStarting(run: nat, r: EngineRun) // a run of another execution
    | ByStopping(run: nat)               // any run, without a write to this row
    | ByEnding(run: nat)                 // a run of this execution, with its final write
    | ByMarking(run: nat)
    | ByClaiming(run: nat, read: Reading)
    | ByCanceling

  ghost predicate Fits(c: Change, row: Row, runs: Runs, row': Row, runs': Runs, id: string) {
    match c
    case Quietly => runs' == runs && SameCounts(row, row')
    case ByStarting(run, r) => run !in runs && r.target != id && runs' == runs[run := r] && row' == row
    case ByStopping(run) => run in runs && runs' == Stopped(runs, run) && row' == row
    case ByEnding(run) => RunsNow(runs, run, id) && runs' == Stopped(runs, run) && CountsFinalWrite(row, row')
    case ByMarking(run) => RunsNow(runs, run, id) && runs' == runs && row' == row.(status := Lifecycle.Running)
    case ByClaiming(run, read) =>
      && run !in runs && row.status in {Lifecycle.New, Lifecycle.Waiting} && row' == Claimed(row, read)
      && runs' == runs[run := EngineRun(id, read.data, Some(row.status), true)]
    case ByCanceling => runs' == runs && row' == Withdrawn(row)
  }

  /** The change is the one the step makes to the row of `id`. */
  ghost predicate Makes(s: System, step: Step, id: string, c: Change)
    requires id in s.rows
  {
    && id in Apply(s, step).rows && Fits(c, s.rows[id], s.runs, Apply(s, step).rows[id], Apply(s, step).runs, id)
    && (c.ByClaiming? ==> WinsClaim(s, step, id))
  }

  /** The step is a claim of `id` that wins. */
  predicate WinsClaim(s: System, step: Step, id: string) {
    step.Claim? && step.run !in s.runs && CanClaim(s, step.actor) && s.actors[step.actor].target == id
  }

  predicate IsActorStep(step: Step) {
    || step.ChildEnds? || step.Attempt? || step.ReadParent? || step.WriteParent? || step.ReadExecution?
    || step.Retry? || step.GiveUp?
  }

  lemma ActorStepsAreQuiet(s: System, step: Step, id: string)
    requires IsActorStep(step) && id in s.rows
    ensures Makes(s, step, id, Quietly)
  {}

  lemma FinalWriteChange(s: System, run: nat, row: Row, id: string) returns (c: Change)
    requires Live(s, run) && CountsFinalWrite(s.rows[s.runs[run].target], row) && id in s.rows
    ensures var s' := EndRun(s, run, row); id in s'.rows && Fits(c, s.rows[id], s.runs, s'.rows[id], s'.runs, id)
    ensures !c.ByClaiming?
  {
    c := if s.runs[run].target == id && s.rows[id].status != Lifecycle.Canceled then ByEnding(run) else ByStopping(run);
  }

  predicate IsRunStep(step: Step) { step.Pause? || step.Finish? || step.Crash? || step.MarkRunning? }

  lemma RunStepChange(s: System, step: Step, id: string) returns (c: Change)
    requires IsRunStep(step) && id in s.rows
    ensures Makes(s, step, id, c)
  {
    c := Quietly;
    if Live(s, step.run) {
      var row := s.rows[s.runs[step.run].target];
      match step
      case Pause(run, data) => if data.stack != [] { c := FinalWriteChange(s, run, Paused(row, data), id); }
      case Finish(run, status) => if Over(status) { c := FinalWriteChange(s, run, row.(status := status), id); }
      case Crash(run) => c := ByStopping(run);
      case MarkRunning(run) => if s.runs[run].target == id { c := ByMarking(run); }
    }
  }

  lemma ClaimChange(s: System, a: nat, run: nat, id: string) returns (c: Change)
    requires Grounded(s) && id in s.rows
    ensures Makes(s, Claim(a, run), id, c)
  {
    c := Quietly;
    if CanClaim(s, a) && run !in s.runs {
      var actor := s.actors[a];
      c := if actor.target == id then ByClaiming(run, actor.pc.read)
           else ByStarting(run, EngineRun(actor.target, actor.pc.read.data, Some(actor.expected), true));
    }
  }

  lemma StepChange(s: System, step: Step, id: string) returns (c: Change)
    requires Grounded(s) && id in s.rows
    ensures Makes(s, step, id, c)
  {
    if IsActorStep(step) {
      ActorStepsAreQuiet(s, step, id);
      c := Quietly;
    } else if IsRunStep(step) {
      c := RunStepChange(s, step, id);
    } else if step.Claim? {
      c := ClaimChange(s, step.actor, step.run, id);
    } else if step.Create? && Apply(s, step) != s {
      c := ByStarting(step.run, EngineRun(step.id, step.data, None, true));
    } else if step.Cancel? && Apply(s, step) != s && step.id == id {
      c := ByCanceling;
    } else {
      c := Quietly;
    }
  }

  /** The row of `id` comes into being, perhaps with a run. */
  lemma RowIsNew(s: System, step: Step, id: string)
    requires id !in s.rows && id in Apply(s, step).rows
    ensures (step.Create? || step.Enqueue?) && step.data.stack != [] && Apply(s, step).rows[id] == NewRow(step.data)
    ensures Apply(s, step).runs == s.runs || (step.Create? && step.run !in s.runs
      && Apply(s, step).runs == s.runs[step.run := EngineRun(id, step.data, None, true)])
  {}

  // ---------- one run at a time ----------

  /** A live run means the row is not waiting, and there is only one live run for it. */
  ghost predicate Exclusive(row: Row, runs: Runs, id: string) {
    && (forall r :: RunsNow(runs, r, id) ==> row.status != Lifecycle.Waiting)
    && (forall r, q :: RunsNow(runs, r, id) && RunsNow(runs, q, id) ==> r == q)
  }

  ghost function ClaimedRuns(runs: Runs, id: string, expected: Status): set<nat> {
    set r | r in runs && runs[r].claimed == Some(expected) && runs[r].target == id
  }

  /** Every time the row became waiting it was claimed, or canceled, or it still is waiting. */
  ghost predicate WaitsBalance(row: Row, runs: Runs, id: string) {
    row.history.entered ==
      |ClaimedRuns(runs, id, Lifecycle.Waiting)| + row.history.withdrawn + One(row.status == Lifecycle.Waiting)
  }

  ghost predicate SafeRow(row: Row, runs: Runs, id: string) { Exclusive(row, runs, id) && WaitsBalance(row, runs, id) }

  ghost predicate Safe(s: System, id: string) { id in s.rows ==> SafeRow(s.rows[id], s.runs, id) }

  ghost predicate NobodyRuns(runs: Runs, id: string) { forall r :: !RunsNow(runs, r, id) }

  lemma OneMoreRun(runs: Runs, run: nat, r: EngineRun, id: string, expected: Status)
    requires run !in runs
    ensures ClaimedRuns(runs[run := r], id, expected) ==
      ClaimedRuns(runs, id, expected) + if r.claimed == Some(expected) && r.target == id then {run} else {}
  {}

  lemma StoppingKeepsClaims(runs: Runs, run: nat, id: string, expected: Status)
    requires run in runs
    ensures ClaimedRuns(Stopped(runs, run), id, expected) == ClaimedRuns(runs, id, expected)
  {}

  /** Each change keeps the balance; a final write needs to be that of the only run. */
  lemma ChangeKeepsBalance(c: Change, row: Row, runs: Runs, row': Row, runs': Runs, id: string)
    requires Fits(c, row, runs, row', runs', id) && SafeRow(row, runs, id)
    ensures WaitsBalance(row', runs', id)
  {
    match c
    case ByStarting(run, r) => OneMoreRun(runs, run, r, id, Lifecycle.Waiting);
    case ByStopping(run) => StoppingKeepsClaims(runs, run, id, Lifecycle.Waiting);
    case ByEnding(run) => StoppingKeepsClaims(runs, run, id, Lifecycle.Waiting);
    case ByClaiming(run, read) =>
      OneMoreRun(runs, run, EngineRun(id, read.data, Some(row.status), true), id, Lifecycle.Waiting);
    case _ =>
  }

  /** Each change keeps a single run exactly if it is not a claim of a row that somebody runs. */
  lemma ChangeKeepsExclusiveIff(c: Change, row: Row, runs: Runs, row': Row, runs': Runs, id: string)
    requires Fits(c, row, runs, row', runs', id) && Exclusive(row, runs, id)
    ensures Exclusive(row', runs', id) <==> (c.ByClaiming? ==> NobodyRuns(runs, id))
  {
    if c.ByClaiming? {
      assert RunsNow(runs', c.run, id);
      forall r ensures RunsNow(runs', r, id) <==> r == c.run || RunsNow(runs, r, id) {}
    } else {
      forall r ensures RunsNow(runs', r, id) ==> RunsNow(runs, r, id) {}
    }
  }

  /** A claim that expects `new` only meets a row whose starter is gone. */
  ghost predicate TakesOverAbandoned(s: System, step: Step, id: string) {
    WinsClaim(s, step, id) && s.rows[id].status == Lifecycle.New ==> NobodyRuns(s.runs, id)
  }

  ghost predicate OrderlyRecovery(steps: seq<Step>, id: string) {
    steps == [] ||
      (OrderlyRecovery(steps[..|steps| - 1], id)
       && TakesOverAbandoned(Run(Init(), steps[..|steps| - 1]), steps[|steps| - 1], id))
  }

  lemma NewRowIsSafe(data: ParentData, runs: Runs, run: Option<nat>, id: string)
    requires (forall r :: r in runs ==> runs[r].target != id) && (run.Some? ==> run.value !in runs)
    ensures SafeRow(NewRow(data), if run.Some? then runs[run.value := EngineRun(id, data, None, true)] else runs, id)
  {
    var runs' := if run.Some? then runs[run.value := EngineRun(id, data, None, true)] else runs;
    assert ClaimedRuns(runs', id, Lifecycle.Waiting) == {};
    forall r: nat ensures RunsNow(runs', r, id) ==> run == Some(r) {}
  }

  /** Whatever a step does to other executions, it keeps this one safe unless it claims it from `new` while
      somebody runs it. */
  lemma ApplyKeepsSafe(s: System, step: Step, id: string)
    requires Grounded(s) && Safe(s, id) && TakesOverAbandoned(s, step, id)
    ensures Safe(Apply(s, step), id)
  {
    var s' := Apply(s, step);
    if id in s.rows {
      var c := StepChange(s, step, id);
      ChangeKeepsBalance(c, s.rows[id], s.runs, s'.rows[id], s'.runs, id);
      ChangeKeepsExclusiveIff(c, s.rows[id], s.runs, s'.rows[id], s'.runs, id);
    } else if id in s'.rows {
      RowIsNew(s, step, id);
      NewRowIsSafe(step.data, s.runs, if s'.runs == s.runs then None else Some(step.run), id);
    }
  }

  /** A winning claim leaves a single live run exactly if nobody runs the execution, which is always so for
      a waiting one. */
  lemma ClaimKeepsExclusiveIff(s: System, a: nat, run: nat)
    requires Grounded(s) && CanClaim(s, a) && run !in s.runs
    requires Exclusive(s.rows[s.actors[a].target], s.runs, s.actors[a].target)
    ensures var s', id := Apply(s, Claim(a, run)), s.actors[a].target;
      id in s'.rows && (Exclusive(s'.rows[id], s'.runs, id) <==> NobodyRuns(s.runs, id))
    ensures s.actors[a].expected == Lifecycle.Waiting ==> NobodyRuns(s.runs, s.actors[a].target)
  {
    var s', id := Apply(s, Claim(a, run)), s.actors[a].target;
    ChangeKeepsExclusiveIff(ByClaiming(run, s.actors[a].pc.read), s.rows[id], s.runs, s'.rows[id], s'.runs, id);
  }

  /** For every execution, over all runs whose recoveries only take it over when it is abandoned: at most one
      live run across all processes, none while its row waits; and the number of runs resumed by a claim is
      exactly how often the row became waiting, less the times it was canceled while waiting and the wait
      still going on. Nothing is assumed of other executions. */
  lemma {:induction false} ClaimsMatchWaits(steps: seq<Step>, id: string)
    requires OrderlyRecovery(steps, id)
    ensures Safe(Run(Init(), steps), id)
  {
    if steps != [] {
      var n := |steps| - 1;
      ClaimsMatchWaits(steps[..n], id);
      RunIsGrounded(steps[..n]);
      ApplyKeepsSafe(Run(Init(), steps[..n]), steps[n], id);
    }
  }

  /** Without attempts on it that expect `new` nothing is assumed at all. */
  lemma {:induction false} NoRecoveryIsOrderly(steps: seq<Step>, id: string)
    requires forall i :: 0 <= i < |steps| && steps[i].Attempt? && steps[i].id == id ==>
      steps[i].expected == Lifecycle.Waiting
    ensures OrderlyRecovery(steps, id) && OnlyWaitingExpected(Run(Init(), steps), id)
  {
    if steps != [] {
      var n := |steps| - 1;
      NoRecoveryIsOrderly(steps[..n], id);
      assert steps[n].Attempt? && steps[n].id == id ==> steps[n].expected == Lifecycle.Waiting;
      OnlyWaitingStaysExpected(Run(Init(), steps[..n]), steps[n], id);
    }
  }

  ghost predicate OnlyWaitingExpected(s: System, id: string) {
    forall a :: a in s.actors && s.actors[a].target == id ==> s.actors[a].expected == Lifecycle.Waiting
  }

  lemma OnlyWaitingStaysExpected(s: System, step: Step, id: string)
    requires OnlyWaitingExpected(s, id) && (step.Attempt? && step.id == id ==> step.expected == Lifecycle.Waiting)
    ensures OnlyWaitingExpected(Apply(s, step), id)
  {}

  // ---------- taken over once ----------

  ghost predicate TakenOverOnce(row: Row, runs: Runs, id: string) {
    |ClaimedRuns(runs, id, Lifecycle.New)| + One(row.status == Lifecycle.New) <= 1
  }

  lemma ChangeKeepsTakenOverOnce(c: Change, row: Row, runs: Runs, row': Row, runs': Runs, id: string)
    requires Fits(c, row, runs, row', runs', id) && TakenOverOnce(row, runs, id)
    ensures TakenOverOnce(row', runs', id)
  {
    match c
    case ByStarting(run, r) => OneMoreRun(runs, run, r, id, Lifecycle.New);
    case ByStopping(run) => StoppingKeepsClaims(runs, run, id, Lifecycle.New);
    case ByEnding(run) => StoppingKeepsClaims(runs, run, id, Lifecycle.New);
    case ByClaiming(run, read) =>
      OneMoreRun(runs, run, EngineRun(id, read.data, Some(row.status), true), id, Lifecycle.New);
    case _ =>
  }

  /** Over all runs, disorderly recoveries included: an execution is taken over from `new` at most once, and
      not at all while it still is `new`. */
  lemma {:induction false} NewIsClaimedOnce(steps: seq<Step>, id: string)
    ensures var s := Run(Init(), steps); id in s.rows ==> TakenOverOnce(s.rows[id], s.runs, id)
  {
    if steps != [] {
      var n := |steps| - 1;
      var before, after := Run(Init(), steps[..n]), Run(Init(), steps);
      NewIsClaimedOnce(steps[..n], id);
      RunIsGrounded(steps[..n]);
      if id in before.rows {
        var c := StepChange(before, steps[n], id);
        ChangeKeepsTakenOverOnce(c, before.rows[id], before.runs, after.rows[id], after.runs, id);
      } else if id in after.rows {
        RowIsNew(before, steps[n], id);
        assert ClaimedRuns(after.runs, id, Lifecycle.New) == {};
      }
    }
  }

  /** The final write of a run that was the only one counts one wait or none, and leaves canceled rows alone. */
  lemma EndRunKeepsSafe(s: System, run: nat, row: Row, id: string)
    requires Safe(s, id) && id in s.rows && Live(s, run) && CountsFinalWrite(s.rows[s.runs[run].target], row)
    ensures Safe(EndRun(s, run, row), id)
    ensures s.rows[s.runs[run].target].status == Lifecycle.Canceled ==> EndRun(s, run, row).rows == s.rows
  {
    var s' := EndRun(s, run, row);
    var c := FinalWriteChange(s, run, row, id);
    ChangeKeepsBalance(c, s.rows[id], s.runs, s'.rows[id], s'.runs, id);
    ChangeKeepsExclusiveIff(c, s.rows[id], s.runs, s'.rows[id], s'.runs, id);
  }

  /** A recovery that runs while the starter still waits for capacity runs the execution a second time. */
  lemma RecoveryUnderStarterRunsTwice(data: ParentData) returns (steps: seq<Step>)
    requires data.stack != []
    ensures steps == [Create("p", data, 0), Attempt(1, "p", Lifecycle.New), ReadExecution(1), Claim(1, 2)]
    ensures var s := Run(Init(), steps); Live(s, 0) && Live(s, 2) && s.runs[0].target == s.runs[2].target
  {
    var s := Init();
    steps := [];
    steps, s := Extend(steps, s, Create("p", data, 0));
    steps, s := Extend(steps, s, Attempt(1, "p", Lifecycle.New));
    steps, s := Extend(steps, s, ReadExecution(1));
    steps, s := Extend(steps, s, Claim(1, 2));
  }

  lemma Extend(steps: seq<Step>, now: System, step: Step) returns (steps': seq<Step>, now': System)
    requires now == Run(Init(), steps)
    ensures steps' == steps + [step] && now' == Apply(now, step) && now' == Run(Init(), steps')
  {
    steps', now' := steps + [step], Apply(now, step);
    assert (steps + [step])[..|steps|] == steps;
  }
}
