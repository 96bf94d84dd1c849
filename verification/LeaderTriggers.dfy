/** Triggers held in memory across main instances: only the leader may hold them. `add` asks whether it
    may before it awaits and registers afterwards, also when the loop of `addActiveWorkflows` calls it; a
    stepdown tears everything down at once. Also the one-at-a-time guard of that loop and what a takeover
    during it leaves undone. */
module LeaderTriggers {
  import opened Common

  /** An activation between its check and its registration, with the answer of the check. */
  datatype Adding = Adding(workflowId: string, mayRegister: bool)

  /** `activating` are the workflows an `addActiveWorkflows` in progress has still to start on. */
  datatype Instance = Instance(
    leader: bool,
    triggers: set<string>,
    adding: map<nat, Adding>,
    activating: Option<seq<string>>)

  type System = map<nat, Instance>

  datatype Step =
    | Join(instance: nat)
    | CheckAdd(instance: nat, op: nat, workflowId: string)   // a command or a retry
    | ActivateNext(instance: nat, op: nat)                   // the loop's next workflow, within a batch or not
    | RegisterAdd(instance: nat, op: nat)
    | FailAdd(instance: nat, op: nat)                        // an error, or refused by policy
    | RemoveTriggers(instance: nat, workflowId: string)
    | StepDown(instance: nat)
    | TakeOver(instance: nat, active: seq<string>)
    | BeginInit(instance: nat, active: seq<string>)
    | EndLoop(instance: nat)                                 // all done, or an activation threw

  const NEW_INSTANCE := Instance(false, {}, map[], None)

  /** `shouldAddNonWebhookTriggers` is asked when the add starts. */
  function Checked(i: Instance, op: nat, w: string): Instance {
    if op in i.adding then i else i.(adding := i.adding[op := Adding(w, i.leader)])
  }

  function Pending(i: Instance): seq<string> { if i.activating.Some? then i.activating.value else [] }

  function Started(i: Instance, op: nat): Instance {
    if op in i.adding || Pending(i) == [] then i else
      Checked(i, op, Pending(i)[0]).(activating := Some(Pending(i)[1..]))
  }

  function Registered(i: Instance, op: nat): Instance {
    if op !in i.adding then i else
      i.(adding := i.adding - {op},
         triggers := if i.adding[op].mayRegister then i.triggers + {i.adding[op].workflowId} else i.triggers)
  }

  function Failed(i: Instance, op: nat): Instance { i.(adding := i.adding - {op}) }

  function SteppedDown(i: Instance): Instance { i.(leader := false, triggers := {}) }

  /** Skipped when one is already in progress. */
  function Begun(i: Instance, active: seq<string>): Instance {
    if i.activating.Some? then i else i.(activating := Some(active))
  }

  function TakenOver(i: Instance, active: seq<string>): Instance { Begun(i.(leader := true), active) }

  predicate SomeLeader(s: System) { exists i :: i in s && s[i].leader }

  function Apply(s: System, step: Step): System {
    match step
    case Join(i) => if i in s then s else s[i := NEW_INSTANCE]
    case CheckAdd(i, op, w) => if i in s then s[i := Checked(s[i], op, w)] else s
    case ActivateNext(i, op) => if i in s then s[i := Started(s[i], op)] else s
    case RegisterAdd(i, op) => if i in s then s[i := Registered(s[i], op)] else s
    case FailAdd(i, op) => if i in s then s[i := Failed(s[i], op)] else s
    case RemoveTriggers(i, w) => if i in s then s[i := s[i].(triggers := s[i].triggers - {w})] else s
    case StepDown(i) => if i in s then s[i := SteppedDown(s[i])] else s
    case TakeOver(i, active) => if i in s && !SomeLeader(s) then s[i := TakenOver(s[i], active)] else s
    case BeginInit(i, active) => if i in s then s[i := Begun(s[i], active)] else s
    case EndLoop(i) => if i in s then s[i := s[i].(activating := None)] else s
  }

  function Run(steps: seq<Step>): System {
    if steps == [] then map[] else Apply(Run(steps[..|steps| - 1]), steps[|steps| - 1])
  }

  // ---------- what an instance holds ----------

  /** The add `op` as it was started last in a run, if it has not ended since: for which workflow, and whether
      the instance led at that moment. */
  ghost function StartedAs(steps: seq<Step>, i: nat, op: nat): Option<Adding> {
    if steps == [] then None else
      var n := |steps| - 1;
      var before, so := Run(steps[..n]), StartedAs(steps[..n], i, op);
      match steps[n]
      case CheckAdd(j, o, w) =>
        if i == j && o == op && so.None? && i in before then Some(Adding(w, before[i].leader)) else so
      case ActivateNext(j, o) =>
        var loop := LoopOf(steps[..n], i);
        if i == j && o == op && so.None? && i in before && loop.Some? && loop.value != []
        then Some(Adding(loop.value[0], before[i].leader)) else so
      case RegisterAdd(j, o) => if i == j && o == op then None else so
      case FailAdd(j, o) => if i == j && o == op then None else so
      case _ => so
  }

  /** What the loop in progress in an instance has still to start on, if one is in progress: the first one begun
      since the last has ended, less the workflows it has started on. */
  ghost function LoopOf(steps: seq<Step>, i: nat): Option<seq<string>> {
    if steps == [] then None else
      var n := |steps| - 1;
      var before, so := Run(steps[..n]), LoopOf(steps[..n], i);
      match steps[n]
      case TakeOver(j, active) => if i == j && i in before && !SomeLeader(before) && so.None? then Some(active) else so
      case BeginInit(j, active) => if i == j && i in before && so.None? then Some(active) else so
      case ActivateNext(j, op) =>
        if i == j && so.Some? && so.value != [] && StartedAs(steps[..n], i, op).None? then Some(so.value[1..]) else so
      case EndLoop(j) => if i == j then None else so
      case _ => so
  }

  /** An add of the workflow that was started while the instance led has been completed in the run, and since
      then neither the workflow's triggers were removed nor has the instance stepped down. */
  ghost predicate HeldSince(steps: seq<Step>, i: nat, w: string) {
    steps != [] &&
    var n := |steps| - 1;
    match steps[n]
    case RegisterAdd(j, op) =>
      HeldSince(steps[..n], i, w) || (i == j && StartedAs(steps[..n], i, op) == Some(Adding(w, true)))
    case RemoveTriggers(j, x) => HeldSince(steps[..n], i, w) && (i != j || x != w)
    case StepDown(j) => HeldSince(steps[..n], i, w) && i != j
    case _ => HeldSince(steps[..n], i, w)
  }

  lemma {:induction false} AddsAreAsStarted(steps: seq<Step>, i: nat, op: nat)
    ensures var s := Run(steps);
      StartedAs(steps, i, op) == if i in s && op in s[i].adding then Some(s[i].adding[op]) else None
  {
    if steps != [] {
      AddsAreAsStarted(steps[..|steps| - 1], i, op);
      LoopIsAsBegun(steps[..|steps| - 1], i);
    }
  }

  /** In every run: an activation that is begun while a loop is in progress is skipped, whoever begins it. */
  lemma {:induction false} LoopIsAsBegun(steps: seq<Step>, i: nat)
    ensures LoopOf(steps, i) == if i in Run(steps) then Run(steps)[i].activating else None
  {
    if steps != [] {
      var n := |steps| - 1;
      LoopIsAsBegun(steps[..n], i);
      if steps[n].ActivateNext? { AddsAreAsStarted(steps[..n], i, steps[n].op); }
    }
  }

  /** In every run an instance holds exactly the triggers that it has registered and not given up since; an
      activation that fails, is refused, or was started by a follower adds none. */
  lemma {:induction false} HoldsIffRegisteredSince(steps: seq<Step>, i: nat, w: string)
    ensures i in Run(steps) && w in Run(steps)[i].triggers <==> HeldSince(steps, i, w)
  {
    if steps != [] {
      var n := |steps| - 1;
      HoldsIffRegisteredSince(steps[..n], i, w);
      if steps[n].RegisterAdd? { AddsAreAsStarted(steps[..n], i, steps[n].op); }
    }
  }

  // ---------- only the leader holds a workflow's triggers ----------

  ghost predicate OneLeader(s: System) {
    forall i, j :: i in s && j in s && s[i].leader && s[j].leader ==> i == j
  }

  ghost predicate OnlyLeaderHolds(s: System, w: string) {
    forall i :: i in s && w in s[i].triggers ==> s[i].leader
  }

  /** A registration keeps this exactly when the check has been negative or the instance still leads. */
  lemma RegistrationKeepsIff(s: System, i: nat, op: nat)
    requires i in s && op in s[i].adding && OnlyLeaderHolds(s, s[i].adding[op].workflowId)
    ensures OnlyLeaderHolds(Apply(s, RegisterAdd(i, op)), s[i].adding[op].workflowId) <==>
      !s[i].adding[op].mayRegister || s[i].leader
  {
    var s' := Apply(s, RegisterAdd(i, op));
    if s[i].adding[op].mayRegister { assert s[i].adding[op].workflowId in s'[i].triggers; }
  }

  /** Nobody steps down between the check and the registration of an add of this workflow. */
  predicate NoAddInFlight(s: System, step: Step, w: string) {
    step.StepDown? && step.instance in s ==>
      forall op :: op in s[step.instance].adding ==> s[step.instance].adding[op] != Adding(w, true)
  }

  ghost predicate SettledRun(steps: seq<Step>, w: string) {
    steps == [] || (SettledRun(steps[..|steps| - 1], w) &&
                    NoAddInFlight(Run(steps[..|steps| - 1]), steps[|steps| - 1], w))
  }

  ghost predicate CheckedByLeader(s: System, w: string) {
    forall i, op :: i in s && op in s[i].adding && s[i].adding[op] == Adding(w, true) ==> s[i].leader
  }

  ghost predicate Safe(s: System, w: string) { OnlyLeaderHolds(s, w) && CheckedByLeader(s, w) }

  /** Stepping down under an add of the workflow is the only way to endanger this, and always does. */
  lemma ApplyKeepsIff(s: System, step: Step, w: string)
    requires Safe(s, w)
    ensures Safe(Apply(s, step), w) <==> NoAddInFlight(s, step, w)
  {
    if step.StepDown? {
      if step.instance in s { SteppingDownKeepsIff(s, step.instance, w); }
    } else {
      OtherStepsKeepSafe(s, step, w);
    }
  }

  lemma SteppingDownKeepsIff(s: System, i: nat, w: string)
    requires Safe(s, w) && i in s
    ensures Safe(Apply(s, StepDown(i)), w) <==> NoAddInFlight(s, StepDown(i), w)
  {
    var s' := Apply(s, StepDown(i));
    forall op | op in s[i].adding && s[i].adding[op] == Adding(w, true) ensures !CheckedByLeader(s', w) {
      assert op in s'[i].adding;
    }
  }

  lemma OtherStepsKeepSafe(s: System, step: Step, w: string)
    requires Safe(s, w) && !step.StepDown?
    ensures Safe(Apply(s, step), w)
  {}

  lemma {:induction false} NeverTwoLeaders(steps: seq<Step>)
    ensures OneLeader(Run(steps))
  {
    if steps != [] { NeverTwoLeaders(steps[..|steps| - 1]); }
  }

  /** Over all runs of any number of instances in which nobody steps down under an add of the workflow: only
      the leader holds its triggers, so no two instances do. */
  lemma {:induction false} TriggersHeldOnce(steps: seq<Step>, w: string)
    requires SettledRun(steps, w)
    ensures Safe(Run(steps), w)
    ensures forall i, j ::
      i in Run(steps) && j in Run(steps) && w in Run(steps)[i].triggers && w in Run(steps)[j].triggers ==> i == j
  {
    if steps != [] {
      var n := |steps| - 1;
      TriggersHeldOnce(steps[..n], w);
      ApplyKeepsIff(Run(steps[..n]), steps[n], w);
    }
    NeverTwoLeaders(steps);
  }

  /** A leader that steps down under an add goes on to register it, next to the new leader. */
  lemma StepDownUnderAddDuplicates(w: string) returns (steps: seq<Step>)
    ensures Run(steps).Keys == {0, 1} && w in Run(steps)[0].triggers && w in Run(steps)[1].triggers
    ensures !Run(steps)[0].leader && Run(steps)[1].leader
    ensures ActivateNext(0, 7) in steps && forall s :: s in steps ==> !s.CheckAdd?
  {
    var s;
    steps, s := LeadershipMoved(w);
    steps, s := SecondLeaderActivates(w, steps, s);
    steps, s := Extend(steps, s, RegisterAdd(0, 7));
    assert steps[3] == ActivateNext(0, 7);
  }

  lemma LeadershipMoved(w: string) returns (steps: seq<Step>, s: System)
    ensures steps == [Join(0), Join(1), TakeOver(0, [w]), ActivateNext(0, 7), StepDown(0), TakeOver(1, [w])]
    ensures s == Run(steps) && s == map[0 := Instance(false, {}, map[7 := Adding(w, true)], Some([])),
                                        1 := Instance(true, {}, map[], Some([w]))]
  {
    steps, s := LeaderAdding(w);
    steps, s := Extend(steps, s, StepDown(0));
    steps, s := Extend(steps, s, TakeOver(1, [w]));
  }

  lemma LeaderAdding(w: string) returns (steps: seq<Step>, s: System)
    ensures steps == [Join(0), Join(1), TakeOver(0, [w]), ActivateNext(0, 7)] && s == Run(steps)
    ensures s == map[0 := Instance(true, {}, map[7 := Adding(w, true)], Some([])), 1 := NEW_INSTANCE]
  {
    steps, s := [], map[];
    steps, s := Extend(steps, s, Join(0));
    steps, s := Extend(steps, s, Join(1));
    steps, s := Extend(steps, s, TakeOver(0, [w]));
    assert [w][1..] == [];
    steps, s := Extend(steps, s, ActivateNext(0, 7));
  }

  lemma SecondLeaderActivates(w: string, steps: seq<Step>, s: System) returns (steps': seq<Step>, s': System)
    requires s == Run(steps) && 1 in s && s[1] == NEW_INSTANCE.(leader := true, activating := Some([w]))
    ensures steps' == steps + [ActivateNext(1, 0), RegisterAdd(1, 0)] && s' == Run(steps')
    ensures s' == s[1 := Instance(true, {w}, map[], Some([]))]
  {
    assert [w][1..] == [];
    steps', s' := Extend(steps, s, ActivateNext(1, 0));
    steps', s' := Extend(steps', s', RegisterAdd(1, 0));
    assert s'[1] == Instance(true, {w}, map[], Some([]));
  }

  lemma Extend(steps: seq<Step>, now: System, step: Step) returns (steps': seq<Step>, now': System)
    requires now == Run(steps)
    ensures steps' == steps + [step] && now' == Apply(now, step) && now' == Run(steps')
  {
    steps', now' := steps + [step], Apply(now, step);
    assert (steps + [step])[..|steps|] == steps;
  }

  // ---------- what a takeover activates ----------

  /** How the loop and the adds of one instance go on; `ok` is false if the activation fails or is refused. */
  datatype Progress = Activate(op: nat) | Finish(op: nat, ok: bool)

  function Do(i: Instance, p: Progress): Instance {
    match p
    case Activate(op) => Started(i, op)
    case Finish(op, ok) => if ok then Registered(i, op) else Failed(i, op)
  }

  function DoAll(i: Instance, progress: seq<Progress>): Instance {
    if progress == [] then i else Do(DoAll(i, progress[..|progress| - 1]), progress[|progress| - 1])
  }

  function Members(s: seq<string>): set<string> { set w | w in s }

  /** Workflows whose triggers will be registered unless their activation fails. */
  function Coming(i: Instance): set<string> {
    set op | op in i.adding && i.adding[op].mayRegister :: i.adding[op].workflowId
  }

  /** Everything a leader holds, is adding, or has still to start on. */
  function Reach(i: Instance): set<string> { i.triggers + Coming(i) + Members(Pending(i)) }

  /** The workflows whose activation has failed or been refused on the way. */
  ghost function Lost(i: Instance, progress: seq<Progress>): set<string> {
    if progress == [] then {} else
      var n := |progress| - 1;
      var before := DoAll(i, progress[..n]);
      Lost(i, progress[..n]) + match progress[n]
        case Finish(op, false) => if op in before.adding then {before.adding[op].workflowId} else {}
        case _ => {}
  }

  lemma ActivatingKeepsReach(i: Instance, op: nat)
    requires i.leader
    ensures Reach(Started(i, op)) == Reach(i)
  {
    if op !in i.adding && Pending(i) != [] {
      var i', w, rest := Started(i, op), Pending(i)[0], Pending(i)[1..];
      assert Pending(i) == [w] + rest && Members(Pending(i)) == {w} + Members(rest);
      assert Coming(i') == Coming(i) + {w} by {
        assert i'.adding[op] == Adding(w, true);
        forall o | o in i.adding ensures i'.adding[o] == i.adding[o] {}
      }
    }
  }

  lemma FinishingKeepsReach(i: Instance, op: nat, ok: bool)
    requires op in i.adding
    ensures var i', w := Do(i, Finish(op, ok)), i.adding[op].workflowId;
      Reach(i') <= Reach(i) <= Reach(i') + {w} && (ok ==> Reach(i') == Reach(i))
  {
    var i', w := Do(i, Finish(op, ok)), i.adding[op].workflowId;
    forall x | x in Coming(i') ensures x in Coming(i) {
      var o :| o in i'.adding && i'.adding[o].mayRegister && i'.adding[o].workflowId == x;
      assert o in i.adding;
    }
    forall x | x in Coming(i) ensures (x == w && i.adding[op].mayRegister) || x in Coming(i') {
      var o :| o in i.adding && i.adding[o].mayRegister && i.adding[o].workflowId == x;
      if o != op { assert o in i'.adding; }
    }
    if i.adding[op].mayRegister { assert w in Coming(i); }
  }

  /** While an instance leads, what it will hold in the end is conserved, except for activations that fail. */
  lemma {:induction false} ReachIsConserved(i: Instance, progress: seq<Progress>)
    requires i.leader
    ensures DoAll(i, progress).leader
    ensures Reach(DoAll(i, progress)) <= Reach(i) <= Reach(DoAll(i, progress)) + Lost(i, progress)
  {
    if progress != [] {
      var n := |progress| - 1;
      var before := DoAll(i, progress[..n]);
      ReachIsConserved(i, progress[..n]);
      match progress[n]
      case Activate(op) => ActivatingKeepsReach(before, op);
      case Finish(op, ok) =>
        if op in before.adding {
          FinishingKeepsReach(before, op, ok);
        } else {
          assert before.adding - {op} == before.adding;
        }
    }
  }

  /** The loop has started on everything and every add has come to its end. */
  predicate Done(i: Instance) { Pending(i) == [] && i.adding == map[] }

  /** Once the new leader is done, whatever the interleaving of its adds, and if none of them fails: it holds
      every active workflow exactly if no activation was in progress at the takeover, or none of the active
      workflows had been passed over as a follower. Those are skipped together with the activation. */
  lemma TakeOverCoversIff(i: Instance, active: seq<string>, progress: seq<Progress>)
    requires Done(DoAll(TakenOver(i, active), progress)) && Lost(TakenOver(i, active), progress) == {}
    ensures Members(active) <= DoAll(TakenOver(i, active), progress).triggers <==>
      (i.activating.None? || Members(active) <= Reach(i))
  {
    var led := TakenOver(i, active);
    ReachIsConserved(led, progress);
    var done := DoAll(led, progress);
    assert Coming(done) == {} && Members(Pending(done)) == {};
    assert done.triggers == Reach(done) == Reach(led);
    assert Coming(led) == Coming(i);
  }

  /** With failures, what is missing in the end is what would be missing anyway or has failed. */
  lemma TakeOverMissesOnlyFailures(i: Instance, active: seq<string>, progress: seq<Progress>)
    requires Done(DoAll(TakenOver(i, active), progress)) && (i.activating.None? || Members(active) <= Reach(i))
    ensures Members(active) - DoAll(TakenOver(i, active), progress).triggers <= Lost(TakenOver(i, active), progress)
  {
    var led := TakenOver(i, active);
    ReachIsConserved(led, progress);
    var done := DoAll(led, progress);
    assert Coming(done) == {} && Members(Pending(done)) == {};
    assert Coming(led) == Coming(i);
  }
}
