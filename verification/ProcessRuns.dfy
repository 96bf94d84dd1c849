/** A play of `Processes` is one run of the database and one run of each process, so whatever is proved of all
    runs of `ResumeProtocol` and of `ExecutionLifecycle` holds of their product. */
module ProcessRuns {
  import opened Common
  import opened ExecutionLifecycle
  import opened Processes
  import Db = ResumeProtocol

  /** The access to the database an event makes, if any. */
  ghost function AccessOf(w: World, e: Event): Option<Db.Step> {
    match e
    case Enters(slot, id, mode, data, run) =>
      if CanEnter(w, slot, id, data, run) then Some(Db.Create(id, data, run)) else None
    case Claims(slot, a, run) => if CanClaimFor(w, slot, a, run) then Some(Db.Claim(a, run)) else None
    case InDatabase(access) => if StartsNothing(access) then Some(access) else None
    case _ => None
  }

  /** The step an event is for a process, if any. */
  ghost function StepOf(w: World, e: Event, p: nat): Option<Step> {
    match e
    case Enters(slot, id, mode, data, run) =>
      if slot.process == p && CanEnter(w, slot, id, data, run) then Some(Begin(slot.call, id, mode)) else None
    case Registers(slot, now) =>
      if slot.process == p && IsCall(w, slot) && slot in w.runs then Some(Register(slot.call, now)) else None
    case Fails(slot) => if slot.process == p && IsCall(w, slot) then Some(Fail(slot.call)) else None
    case InProcess(q, step) => if q == p && p in w.processes && IsLocal(step) then Some(step) else None
    case _ => None
  }

  function Listed<T>(o: Option<T>): seq<T> { if o.Some? then [o.value] else [] }

  ghost function Accesses(events: seq<Event>): seq<Db.Step> {
    if events == [] then [] else
      var n := |events| - 1;
      Accesses(events[..n]) + Listed(AccessOf(Play(events[..n]), events[n]))
  }

  ghost function StepsOf(events: seq<Event>, p: nat): seq<Step> {
    if events == [] then [] else
      var n := |events| - 1;
      StepsOf(events[..n], p) + Listed(StepOf(Play(events[..n]), events[n], p))
  }

  lemma EventAccesses(w: World, e: Event)
    ensures Happen(w, e).db == if AccessOf(w, e).Some? then Db.Apply(w.db, AccessOf(w, e).value) else w.db
  {}

  lemma EventSteps(w: World, e: Event, p: nat)
    requires p in w.processes
    ensures p in Happen(w, e).processes
    ensures Happen(w, e).processes[p] ==
      if StepOf(w, e, p).Some? then Apply(w.processes[p], StepOf(w, e, p).value) else w.processes[p]
  {}

  lemma OneMoreAccess(accesses: seq<Db.Step>, access: Option<Db.Step>)
    ensures var before := Db.Run(Db.Init(), accesses);
      Db.Run(Db.Init(), accesses + Listed(access)) == if access.Some? then Db.Apply(before, access.value) else before
  {
    var after := accesses + Listed(access);
    if access.Some? { assert after[..|after| - 1] == accesses; } else { assert after == accesses; }
  }

  lemma OneMoreStep(limit: nat, steps: seq<Step>, step: Option<Step>)
    ensures var before := Run(Init(limit), steps);
      Run(Init(limit), steps + Listed(step)) == if step.Some? then Apply(before, step.value) else before
  {
    var after := steps + Listed(step);
    if step.Some? { assert after[..|after| - 1] == steps; } else { assert after == steps; }
  }

  /** The database of every play is that of a run of `ResumeProtocol`: of the play's accesses, in their order. */
  lemma {:induction false} PlayRunsTheDatabase(events: seq<Event>)
    ensures Play(events).db == Db.Run(Db.Init(), Accesses(events))
  {
    if events != [] {
      var n := |events| - 1;
      PlayRunsTheDatabase(events[..n]);
      EventAccesses(Play(events[..n]), events[n]);
      OneMoreAccess(Accesses(events[..n]), AccessOf(Play(events[..n]), events[n]));
    }
  }

  /** The process was booted in the play with this limit. */
  ghost predicate Booted(events: seq<Event>, p: nat, limit: nat) {
    events != [] && (Booted(events[..|events| - 1], p, limit) ||
                     (events[|events| - 1] == Boot(p, limit) && p !in Play(events[..|events| - 1]).processes))
  }

  /** And each process is in the state of a run of `ExecutionLifecycle` of its own: of its steps in the play. */
  lemma {:induction false} PlayRunsEachProcess(events: seq<Event>, p: nat) returns (limit: nat)
    requires p in Play(events).processes
    ensures Booted(events, p, limit) && Play(events).processes[p] == Run(Init(limit), StepsOf(events, p))
  {
    var n := |events| - 1;
    var w := Play(events[..n]);
    if p in w.processes {
      limit := PlayRunsEachProcess(events[..n], p);
      EventSteps(w, events[n], p);
    } else {
      NothingBeforeBoot(events[..n], p);
      BootsHere(w, events[n], p);
      limit := events[n].limit;
    }
    OneMoreStep(limit, StepsOf(events[..n], p), StepOf(w, events[n], p));
  }

  lemma BootsHere(w: World, e: Event, p: nat)
    requires p !in w.processes && p in Happen(w, e).processes
    ensures e.Boot? && e.process == p && Happen(w, e).processes[p] == Init(e.limit)
  {}

  lemma ProcessesStay(w: World, e: Event, p: nat)
    requires p !in Happen(w, e).processes
    ensures p !in w.processes && StepOf(w, e, p) == None
  {}

  lemma {:induction false} NothingBeforeBoot(events: seq<Event>, p: nat)
    requires p !in Play(events).processes
    ensures StepsOf(events, p) == []
  {
    if events != [] {
      var n := |events| - 1;
      ProcessesStay(Play(events[..n]), events[n], p);
      NothingBeforeBoot(events[..n], p);
    }
  }
}
