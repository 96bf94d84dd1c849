/** The processes and the database together: each process runs the lifecycle of `ExecutionLifecycle`, and a
    call of `add` registers exactly if its row was created for it or its claim won in `ResumeProtocol`. */
module Processes {
  import opened Common
  import opened ExecutionLifecycle
  import Db = ResumeProtocol
  import Results = ParentResults
  import Table = ExecutionTable

  /** A call of `add` in some process. */
  datatype Slot = Slot(process: nat, call: nat)

  /** `runs` tells which run of the engine was created or claimed for a call. */
  datatype World = World(db: Db.System, processes: map<nat, State>, runs: map<Slot, nat>)

  datatype Event =
    | Boot(process: nat, limit: nat)
    | Enters(slot: Slot, id: string, mode: Mode, data: Results.ParentData, run: nat) // `add` creates a row
    | Claims(slot: Slot, actor: nat, run: nat)                                       // `add` claims one
    | Registers(slot: Slot, now: int)
    | Fails(slot: Slot)
    | InProcess(process: nat, step: Step)
    | InDatabase(access: Db.Step)

  function Empty(): World { World(Db.Init(), map[], map[]) }

  predicate IsCall(w: World, slot: Slot) { slot.process in w.processes && slot.call in w.processes[slot.process].calls }

  function CallOf(w: World, slot: Slot): Call
    requires IsCall(w, slot)
  {
    w.processes[slot.process].calls[slot.call]
  }

  /** The steps that are left to a process alone: everything but how a call of `add` ends. */
  predicate IsLocal(step: Step) { !step.Register? && !step.Fail? }

  /** The accesses that start no run. */
  predicate StartsNothing(access: Db.Step) { !access.Create? && !access.Claim? }

  function Advance(w: World, p: nat, step: Step): World
    requires p in w.processes
  {
    w.(processes := w.processes[p := Apply(w.processes[p], step)])
  }

  function Access(w: World, access: Db.Step): World { w.(db := Db.Apply(w.db, access)) }

  function Assign(w: World, slot: Slot, run: nat): World { w.(runs := w.runs[slot := run]) }

  predicate CanEnter(w: World, slot: Slot, id: string, data: Results.ParentData, run: nat) {
    slot.process in w.processes && !IsCall(w, slot) && id !in w.db.rows && run !in w.db.runs && data.stack != []
  }

  predicate CanClaimFor(w: World, slot: Slot, a: nat, run: nat) {
    && IsCall(w, slot) && CallOf(w, slot).phase == Reserved && slot !in w.runs
    && a in w.db.actors && w.db.actors[a].pc.Claiming? && w.db.actors[a].target == CallOf(w, slot).id
    && run !in w.db.runs
  }

  function Happen(w: World, e: Event): World {
    match e
    case Boot(p, limit) => if p in w.processes then w else w.(processes := w.processes[p := Init(limit)])
    case Enters(slot, id, mode, data, run) =>
      if !CanEnter(w, slot, id, data, run) then w else
        Assign(Access(Advance(w, slot.process, Begin(slot.call, id, mode)), Db.Create(id, data, run)), slot, run)
    case Claims(slot, a, run) =>
      if !CanClaimFor(w, slot, a, run) then w else
        var w' := Access(w, Db.Claim(a, run));
        if Db.CanClaim(w.db, a) then Assign(w', slot, run) else w'
    case Registers(slot, now) =>
      if IsCall(w, slot) && slot in w.runs then Advance(w, slot.process, Register(slot.call, now)) else w
    case Fails(slot) => if IsCall(w, slot) then Advance(w, slot.process, Fail(slot.call)) else w
    case InProcess(p, step) => if p in w.processes && IsLocal(step) then Advance(w, p, step) else w
    case InDatabase(access) => if StartsNothing(access) then Access(w, access) else w
  }

  function Play(events: seq<Event>): World {
    if events == [] then Empty() else Happen(Play(events[..|events| - 1]), events[|events| - 1])
  }

  // ---------- which call a run belongs to ----------

  ghost predicate RunMatches(w: World, slot: Slot)
    requires slot in w.runs
  {
    IsCall(w, slot) && w.runs[slot] in w.db.runs && CallOf(w, slot).id == w.db.runs[w.runs[slot]].target
  }

  ghost predicate RunsMatch(w: World) { forall slot :: slot in w.runs ==> RunMatches(w, slot) }

  ghost predicate RunsDiffer(w: World) {
    forall slot, other :: slot in w.runs && other in w.runs && w.runs[slot] == w.runs[other] ==> slot == other
  }

  ghost predicate RegisteredRun(w: World) {
    forall slot :: IsCall(w, slot) && CallOf(w, slot).phase == Registered ==> slot in w.runs
  }

  ghost predicate ProcessesValid(w: World) { forall p :: p in w.processes ==> Valid(w.processes[p]) }

  ghost predicate Coherent(w: World) {
    Db.Grounded(w.db) && ProcessesValid(w) && RunsMatch(w) && RunsDiffer(w) && RegisteredRun(w)
  }

  /** A recovery takes over `id` only if its starter is gone. */
  ghost predicate OrderlyEvent(w: World, e: Event, id: string) {
    e.Claims? && CanClaimFor(w, e.slot, e.actor, e.run) ==> Db.TakesOverAbandoned(w.db, Db.Claim(e.actor, e.run), id)
  }

  ghost predicate OrderlyPlay(events: seq<Event>, id: string) {
    events == [] ||
      (OrderlyPlay(events[..|events| - 1], id)
       && OrderlyEvent(Play(events[..|events| - 1]), events[|events| - 1], id))
  }

  // ---------- a process takes a step ----------

  /** Calls stay and keep their id; only `Register` registers. */
  lemma CallsStay(s: State, step: Step, k: nat)
    requires Valid(s) && k in s.calls
    ensures k in Apply(s, step).calls && Apply(s, step).calls[k].id == s.calls[k].id
    ensures Apply(s, step).calls[k].phase == Registered && s.calls[k].phase != Registered ==>
      step.Register? && step.call == k
  {
    StepsOnlyMoveForward(s, step, k);
    if IsQueueStep(step) {
      Table.QueueStepsKeepRegistered(s, step);
    } else if step.Callback? && CallbackDue(s, step.call) {
      Table.CallbackKeepsRegistered(s, step.call);
    }
  }

  lemma OnlyBeginAddsCalls(s: State, step: Step, k: nat)
    requires k !in s.calls && k in Apply(s, step).calls
    ensures step.Begin? && step.call == k
  {}

  lemma BegunAs(s: State, k: nat, id: string, mode: Mode)
    requires k !in s.calls
    ensures var s' := Apply(s, Begin(k, id, mode));
      k in s'.calls && s'.calls[k].id == id && s'.calls[k].phase != Registered
  {}

  lemma AdvanceKeepsMatch(w: World, p: nat, step: Step)
    requires ProcessesValid(w) && RunsMatch(w) && p in w.processes
    ensures RunsMatch(Advance(w, p, step))
  {
    var w' := Advance(w, p, step);
    forall slot | slot in w'.runs ensures RunMatches(w', slot) {
      assert RunMatches(w, slot);
      if slot.process == p { CallsStay(w.processes[p], step, slot.call); }
    }
  }

  /** A process may register a call only if a run belongs to it. */
  lemma AdvanceKeepsRegisteredRun(w: World, p: nat, step: Step)
    requires ProcessesValid(w) && RegisteredRun(w) && p in w.processes
    requires step.Register? ==> Slot(p, step.call) in w.runs
    ensures RegisteredRun(Advance(w, p, step))
  {
    var w' := Advance(w, p, step);
    forall slot | IsCall(w', slot) && CallOf(w', slot).phase == Registered ensures slot in w'.runs {
      if slot.process == p { RegisteredHasRun(w, p, step, slot); } else { assert IsCall(w, slot); }
    }
  }

  lemma RegisteredHasRun(w: World, p: nat, step: Step, slot: Slot)
    requires ProcessesValid(w) && RegisteredRun(w) && p in w.processes && slot.process == p
    requires step.Register? ==> Slot(p, step.call) in w.runs
    requires slot.call in Apply(w.processes[p], step).calls
    requires Apply(w.processes[p], step).calls[slot.call].phase == Registered
    ensures slot in w.runs
  {
    if IsCall(w, slot) {
      CallsStay(w.processes[p], step, slot.call);
      if CallOf(w, slot).phase != Registered { assert slot == Slot(p, step.call); }
    } else {
      OnlyBeginAddsCalls(w.processes[p], step, slot.call);
      BegunAs(w.processes[p], slot.call, step.id, step.mode);
    }
  }

  lemma AdvanceKeepsCoherent(w: World, p: nat, step: Step)
    requires Coherent(w) && p in w.processes && (step.Register? ==> Slot(p, step.call) in w.runs)
    ensures Coherent(Advance(w, p, step))
  {
    ApplyKeeps(w.processes[p], step);
    AdvanceKeepsMatch(w, p, step);
    AdvanceKeepsRegisteredRun(w, p, step);
  }

  // ---------- the database is accessed ----------

  lemma RunsStay(s: Db.System, access: Db.Step, run: nat)
    requires run in s.runs
    ensures run in Db.Apply(s, access).runs && Db.Apply(s, access).runs[run].target == s.runs[run].target
  {}

  lemma AccessKeepsRuns(w: World, access: Db.Step)
    requires RunsMatch(w) && RegisteredRun(w)
    ensures RunsMatch(Access(w, access)) && RegisteredRun(Access(w, access))
  {
    var w' := Access(w, access);
    forall slot | slot in w'.runs ensures RunMatches(w', slot) {
      assert RunMatches(w, slot);
      RunsStay(w.db, access, w.runs[slot]);
    }
    forall slot | IsCall(w', slot) && CallOf(w', slot).phase == Registered ensures slot in w'.runs {
      assert IsCall(w, slot);
    }
  }

  lemma AccessKeepsCoherent(w: World, access: Db.Step)
    requires Coherent(w)
    ensures Coherent(Access(w, access))
  {
    Db.ApplyKeepsRunsGrounded(w.db, access);
    Db.ApplyKeepsExpectations(w.db, access);
    AccessKeepsRuns(w, access);
  }

  // ---------- a run comes to belong to a call ----------

  ghost predicate IsFresh(w: World, run: nat) { forall slot :: slot in w.runs ==> w.runs[slot] != run }

  lemma AssignKeepsMatch(w: World, slot: Slot, run: nat)
    requires RunsMatch(w) && IsCall(w, slot) && run in w.db.runs && CallOf(w, slot).id == w.db.runs[run].target
    ensures RunsMatch(Assign(w, slot, run))
  {
    var w' := Assign(w, slot, run);
    forall other | other in w'.runs ensures RunMatches(w', other) { if other != slot { assert RunMatches(w, other); } }
  }

  lemma AssignKeepsDiffer(w: World, slot: Slot, run: nat)
    requires RunsDiffer(w) && IsFresh(w, run)
    ensures RunsDiffer(Assign(w, slot, run))
  {}

  lemma AssignKeepsRegisteredRun(w: World, slot: Slot, run: nat)
    requires RegisteredRun(w)
    ensures RegisteredRun(Assign(w, slot, run))
  {
    var w' := Assign(w, slot, run);
    forall other | IsCall(w', other) && CallOf(w', other).phase == Registered ensures other in w'.runs {
      assert IsCall(w, other);
    }
  }

  lemma AssignKeepsCoherent(w: World, slot: Slot, run: nat)
    requires Coherent(w) && IsCall(w, slot) && run in w.db.runs && CallOf(w, slot).id == w.db.runs[run].target
    requires IsFresh(w, run)
    ensures Coherent(Assign(w, slot, run))
  {
    AssignKeepsMatch(w, slot, run);
    AssignKeepsDiffer(w, slot, run);
    AssignKeepsRegisteredRun(w, slot, run);
  }

  lemma NewRunIsFresh(w: World, run: nat)
    requires RunsMatch(w) && run !in w.db.runs
    ensures IsFresh(w, run)
  {
    forall slot | slot in w.runs ensures w.runs[slot] != run { assert RunMatches(w, slot); }
  }

  lemma CreatedFor(s: Db.System, id: string, data: Results.ParentData, run: nat)
    requires id !in s.rows && run !in s.runs && data.stack != []
    ensures var s' := Db.Apply(s, Db.Create(id, data, run)); run in s'.runs && s'.runs[run].target == id
  {}

  lemma ClaimedFor(s: Db.System, a: nat, run: nat)
    requires Db.CanClaim(s, a) && run !in s.runs
    ensures var s' := Db.Apply(s, Db.Claim(a, run)); run in s'.runs && s'.runs[run].target == s.actors[a].target
  {}

  lemma EnteringKeepsCoherent(w: World, slot: Slot, id: string, mode: Mode, data: Results.ParentData, run: nat)
    requires Coherent(w) && CanEnter(w, slot, id, data, run)
    ensures Coherent(Happen(w, Enters(slot, id, mode, data, run)))
  {
    var begun := Advance(w, slot.process, Begin(slot.call, id, mode));
    AdvanceKeepsCoherent(w, slot.process, Begin(slot.call, id, mode));
    BegunAs(w.processes[slot.process], slot.call, id, mode);
    AccessKeepsCoherent(begun, Db.Create(id, data, run));
    CreatedFor(w.db, id, data, run);
    NewRunIsFresh(w, run);
    AssignKeepsCoherent(Access(begun, Db.Create(id, data, run)), slot, run);
  }

  lemma ClaimingKeepsCoherent(w: World, slot: Slot, a: nat, run: nat)
    requires Coherent(w) && CanClaimFor(w, slot, a, run)
    ensures Coherent(Happen(w, Claims(slot, a, run)))
  {
    AccessKeepsCoherent(w, Db.Claim(a, run));
    if Db.CanClaim(w.db, a) { WinningKeepsCoherent(w, slot, a, run); }
  }

  lemma WinningKeepsCoherent(w: World, slot: Slot, a: nat, run: nat)
    requires RunsMatch(w) && Coherent(Access(w, Db.Claim(a, run)))
    requires CanClaimFor(w, slot, a, run) && Db.CanClaim(w.db, a)
    ensures Coherent(Assign(Access(w, Db.Claim(a, run)), slot, run))
  {
    ClaimedFor(w.db, a, run);
    NewRunIsFresh(w, run);
    AssignKeepsCoherent(Access(w, Db.Claim(a, run)), slot, run);
  }

  lemma BootKeepsCoherent(w: World, p: nat, limit: nat)
    requires Coherent(w) && p !in w.processes
    ensures Coherent(Happen(w, Boot(p, limit)))
  {
    CapacityIsConserved(limit, []);
    BootKeepsRuns(w, p, limit);
  }

  lemma BootKeepsRuns(w: World, p: nat, limit: nat)
    requires RunsMatch(w) && RegisteredRun(w) && p !in w.processes
    ensures RunsMatch(Happen(w, Boot(p, limit))) && RegisteredRun(Happen(w, Boot(p, limit)))
  {
    var w' := Happen(w, Boot(p, limit));
    forall slot | slot in w'.runs ensures RunMatches(w', slot) { assert RunMatches(w, slot); }
    forall slot | IsCall(w', slot) && CallOf(w', slot).phase == Registered ensures slot in w'.runs {
      assert IsCall(w, slot);
    }
  }

  lemma EventKeepsCoherent(w: World, e: Event)
    requires Coherent(w)
    ensures Coherent(Happen(w, e))
  {
    match e
    case Boot(p, limit) => if p !in w.processes { BootKeepsCoherent(w, p, limit); }
    case Enters(slot, id, mode, data, run) =>
      if CanEnter(w, slot, id, data, run) { EnteringKeepsCoherent(w, slot, id, mode, data, run); }
    case Claims(slot, a, run) => if CanClaimFor(w, slot, a, run) { ClaimingKeepsCoherent(w, slot, a, run); }
    case Registers(slot, now) =>
      if IsCall(w, slot) && slot in w.runs { AdvanceKeepsCoherent(w, slot.process, Register(slot.call, now)); }
    case Fails(slot) => if IsCall(w, slot) { AdvanceKeepsCoherent(w, slot.process, Fail(slot.call)); }
    case InProcess(p, step) => if p in w.processes && IsLocal(step) { AdvanceKeepsCoherent(w, p, step); }
    case InDatabase(access) => if StartsNothing(access) { AccessKeepsCoherent(w, access); }
  }

  /** In every play processes, rows and the assignment of runs to calls agree. */
  lemma {:induction false} PlayIsCoherent(events: seq<Event>)
    ensures Coherent(Play(events))
  {
    if events != [] {
      var n := |events| - 1;
      PlayIsCoherent(events[..n]);
      EventKeepsCoherent(Play(events[..n]), events[n]);
    }
  }

  lemma EventKeepsSafe(w: World, e: Event, id: string)
    requires Db.Grounded(w.db) && Db.Safe(w.db, id) && OrderlyEvent(w, e, id)
    ensures Db.Safe(Happen(w, e).db, id)
  {
    match e
    case Enters(slot, i, mode, data, run) => Db.ApplyKeepsSafe(w.db, Db.Create(i, data, run), id);
    case Claims(slot, a, run) =>
      if CanClaimFor(w, slot, a, run) { Db.ApplyKeepsSafe(w.db, Db.Claim(a, run), id); }
    case InDatabase(access) => if StartsNothing(access) { Db.ApplyKeepsSafe(w.db, access, id); }
    case _ =>
  }

  lemma {:induction false} PlayIsSafe(events: seq<Event>, id: string)
    requires OrderlyPlay(events, id)
    ensures Db.Safe(Play(events).db, id)
  {
    if events != [] {
      var n := |events| - 1;
      PlayIsSafe(events[..n], id);
      PlayIsCoherent(events[..n]);
      EventKeepsSafe(Play(events[..n]), events[n], id);
    }
  }

  // ---------- what the database guarantees to the tables ----------

  /** The call has registered, and its run has not written its final status. */
  ghost predicate IsRunning(w: World, slot: Slot) {
    IsCall(w, slot) && CallOf(w, slot).phase == Registered && slot in w.runs && Db.Live(w.db, w.runs[slot])
  }

  /** In every play of any number of processes, for every execution whose recoveries only take it over when it
      is abandoned: no two calls run it, and while one does its row does not wait. */
  lemma OneRunnerPerExecution(events: seq<Event>, id: string, slot: Slot, other: Slot)
    requires OrderlyPlay(events, id)
    requires var w := Play(events);
      IsRunning(w, slot) && IsRunning(w, other) && CallOf(w, slot).id == id == CallOf(w, other).id
    ensures slot == other && !Db.IsWaiting(Play(events).db, id)
  {
    PlayIsCoherent(events);
    PlayIsSafe(events, id);
    var w := Play(events);
    RunnerIsKnown(w, slot);
    RunnerIsKnown(w, other);
  }

  lemma RunnerIsKnown(w: World, slot: Slot)
    requires RunsMatch(w) && slot in w.runs && Db.Live(w.db, w.runs[slot])
    ensures IsCall(w, slot) && CallOf(w, slot).id in w.db.rows
    ensures Db.RunsNow(w.db.runs, w.runs[slot], CallOf(w, slot).id)
  {
    assert RunMatches(w, slot);
  }

  /** Likewise: a call that registers with a live run never replaces an entry that is still running. The
      incarnation before it has written its final status; what it may not have done yet is settle. */
  lemma ReplacedEntryHasEnded(events: seq<Event>, slot: Slot)
    requires var w := Play(events);
      && IsCall(w, slot) && CallOf(w, slot).phase == Reserved && slot in w.runs && Db.Live(w.db, w.runs[slot])
      && Listed(w.processes[slot.process], CallOf(w, slot).id)
    requires OrderlyPlay(events, CallOf(Play(events), slot).id)
    ensures var w := Play(events);
      var before := w.processes[slot.process].active[CallOf(w, slot).id];
      before != slot.call && !IsRunning(w, Slot(slot.process, before))
  {
    PlayIsCoherent(events);
    PlayIsSafe(events, CallOf(Play(events), slot).id);
    PreviousHasEnded(Play(events), slot);
  }

  lemma PreviousHasEnded(w: World, slot: Slot)
    requires ProcessesValid(w) && RunsMatch(w) && RunsDiffer(w)
    requires IsCall(w, slot) && CallOf(w, slot).phase == Reserved && slot in w.runs && Db.Live(w.db, w.runs[slot])
    requires Db.Safe(w.db, CallOf(w, slot).id) && Listed(w.processes[slot.process], CallOf(w, slot).id)
    ensures var before := w.processes[slot.process].active[CallOf(w, slot).id];
      before != slot.call && !IsRunning(w, Slot(slot.process, before))
  {
    var before := Slot(slot.process, w.processes[slot.process].active[CallOf(w, slot).id]);
    assert TableMatchesCalls(w.processes[slot.process]);
    RunnerIsKnown(w, slot);
    if IsRunning(w, before) { RunnerIsKnown(w, before); }
  }

  /** In every play: a call whose claim was lost changes no row, cannot register, and holds no slot after it
      has failed. */
  lemma LostClaimOnlyFails(events: seq<Event>, slot: Slot, a: nat, run: nat, now: int)
    requires var w := Play(events); CanClaimFor(w, slot, a, run) && !Db.CanClaim(w.db, a)
    ensures var w := Play(events);
      var lost := Happen(w, Claims(slot, a, run));
      && lost.processes == w.processes && lost.runs == w.runs && lost.db.rows == w.db.rows && lost.db.runs == w.db.runs
      && Happen(lost, Registers(slot, now)) == lost
      && slot.call !in Holders(Happen(lost, Fails(slot)).processes[slot.process])
  {
    PlayIsCoherent(events);
    LosingChangesNothing(Play(events), slot, a, run);
    WithoutRunOnlyFails(Happen(Play(events), Claims(slot, a, run)), slot, now);
  }

  /** In every play: a call whose claim wins registers, runs its execution, and is the one its table leads to. */
  lemma WinningClaimRuns(events: seq<Event>, slot: Slot, a: nat, run: nat, now: int)
    requires var w := Play(events); CanClaimFor(w, slot, a, run) && Db.CanClaim(w.db, a)
    ensures var won := Happen(Play(events), Claims(slot, a, run));
      var w' := Happen(won, Registers(slot, now));
      IsRunning(w', slot) && w'.runs[slot] == run && LeadsTo(w', slot)
  {
    PlayIsCoherent(events);
    var w := Play(events);
    ClaimedFor(w.db, a, run);
    RegisteringRuns(Happen(w, Claims(slot, a, run)), slot, now);
  }

  /** And so does a call that creates its row, if it has got through to register. */
  lemma CreatingCallRuns(events: seq<Event>, slot: Slot, id: string, mode: Mode, data: Results.ParentData, run: nat,
                         now: int)
    requires CanEnter(Play(events), slot, id, data, run)
    ensures var entered := Happen(Play(events), Enters(slot, id, mode, data, run));
      IsCall(entered, slot) && CallOf(entered, slot).phase in {Reserved, Throttled}
    ensures var entered := Happen(Play(events), Enters(slot, id, mode, data, run));
      var w' := Happen(entered, Registers(slot, now));
      CallOf(entered, slot).phase == Reserved ==> IsRunning(w', slot) && w'.runs[slot] == run && LeadsTo(w', slot)
  {
    var entered := Happen(Play(events), Enters(slot, id, mode, data, run));
    assert Db.Live(entered.db, run);
    if CallOf(entered, slot).phase == Reserved { RegisteringRuns(entered, slot, now); }
  }

  /** The table of the process leads from the execution to the call. */
  ghost predicate LeadsTo(w: World, slot: Slot)
    requires IsCall(w, slot)
  {
    var active := w.processes[slot.process].active;
    CallOf(w, slot).id in active && active[CallOf(w, slot).id] == slot.call
  }

  lemma RegisteringRuns(w: World, slot: Slot, now: int)
    requires IsCall(w, slot) && CallOf(w, slot).phase == Reserved && slot in w.runs && Db.Live(w.db, w.runs[slot])
    ensures var w' := Happen(w, Registers(slot, now));
      IsRunning(w', slot) && w'.runs == w.runs && LeadsTo(w', slot)
  {}

  lemma WithoutRunOnlyFails(w: World, slot: Slot, now: int)
    requires IsCall(w, slot) && slot !in w.runs && CallOf(w, slot).phase == Reserved && Valid(w.processes[slot.process])
    ensures Happen(w, Registers(slot, now)) == w
    ensures slot.call !in Holders(Happen(w, Fails(slot)).processes[slot.process])
  {
    FailedHoldsNothing(w.processes[slot.process], slot.call);
  }

  lemma LosingChangesNothing(w: World, slot: Slot, a: nat, run: nat)
    requires CanClaimFor(w, slot, a, run) && !Db.CanClaim(w.db, a)
    ensures var lost := Happen(w, Claims(slot, a, run));
      lost.processes == w.processes && lost.runs == w.runs && lost.db.rows == w.db.rows && lost.db.runs == w.db.runs
  {}

  lemma FailedHoldsNothing(s: State, k: nat)
    requires Valid(s) && k in s.calls && s.calls[k].phase == Reserved
    ensures k !in Holders(Apply(s, Fail(k)))
  {
    ApplyKeeps(s, Fail(k));
    StepsOnlyMoveForward(s, Fail(k), k);
    var s' := Apply(s, Fail(k));
    assert s'.calls[k].reservation <==> Outstanding(s'.calls[k]);
  }
}
