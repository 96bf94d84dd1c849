/** What comes of an execution in `ResumeProtocol`: how an attempt ends when nothing comes in between, that it
    can be made again at any point, and that a final status is final. */
module ResumeOutcomes {
  import opened Common
  import opened ParentResults
  import opened ResumeProtocol
  import Lifecycle = ExecutionLifecycle

  // ---------- attempts that nothing disturbs ----------

  /** The run has been claimed for `id` on this data, and the row says so. */
  ghost predicate Resumed(s: System, run: nat, id: string, input: ParentData) {
    && RunsNow(s.runs, run, id) && s.runs[run].input == input
    && id in s.rows && s.rows[id].status == Lifecycle.Running && s.rows[id].data == input
  }

  /** The rest of an attempt that is about to read the execution. */
  function ReadAndClaim(s: System, a: nat, run: nat): System { Apply(Apply(s, ReadExecution(a)), Claim(a, run)) }

  predicate StartsFor(s: System, a: nat, id: string, pc: Pc) {
    a in s.actors && s.actors[a].target == id && s.actors[a].pc == pc
  }

  lemma ClaimsWhatIsThere(s: System, a: nat, run: nat, id: string)
    requires StartsFor(s, a, id, Starting) && run !in s.runs
    requires id in s.rows && s.rows[id].status == s.actors[a].expected != Lifecycle.Success
    ensures Resumed(ReadAndClaim(s, a, run), run, id, s.rows[id].data)
  {}

  /** What a child makes of the parent it resumes. */
  function HandedOver(data: ParentData, child: ChildRun): ParentData {
    if Reports(child) && data.stack != [] then Patched(data, child) else data
  }

  function PatchAndClaim(s: System, a: nat, run: nat): System {
    ReadAndClaim(Apply(Apply(s, ReadParent(a)), WriteParent(a)), a, run)
  }

  lemma PatchesWhatIsThere(s: System, a: nat, id: string)
    requires StartsFor(s, a, id, Updating) && s.actors[a].child.Some? && IsWaiting(s, id)
    ensures var s' := Apply(Apply(s, ReadParent(a)), WriteParent(a));
      && StartsFor(s', a, id, Starting) && s'.actors[a].expected == s.actors[a].expected && s'.runs == s.runs
      && IsWaiting(s', id) && s'.rows[id].data == HandedOver(s.rows[id].data, s.actors[a].child.value)
  {}

  /** A child that ends while its parent waits, and is not disturbed, resumes it on its results; a timer, or a
      webhook, resumes it on the data that is there. */
  lemma UndisturbedAttemptResumes(s: System, a: nat, run: nat, id: string, child: ChildRun)
    requires a !in s.actors && run !in s.runs && IsWaiting(s, id)
    ensures Resumed(PatchAndClaim(Apply(s, ChildEnds(a, id, child)), a, run), run, id,
                    HandedOver(s.rows[id].data, child))
    ensures Resumed(ReadAndClaim(Apply(s, Attempt(a, id, Lifecycle.Waiting)), a, run), run, id, s.rows[id].data)
  {
    var ended := Apply(s, ChildEnds(a, id, child));
    PatchesWhatIsThere(ended, a, id);
    ClaimsWhatIsThere(Apply(Apply(ended, ReadParent(a)), WriteParent(a)), a, run, id);
    ClaimsWhatIsThere(Apply(s, Attempt(a, id, Lifecycle.Waiting)), a, run, id);
  }

  /** An attempt that fails half-way, in patching or in starting, even after its claim was won, ends like a new
      one if it is made again, with the data that is there by then. */
  lemma RetriedAttemptResumes(s: System, a: nat, run: nat)
    requires a in s.actors && run !in s.runs && s.actors[a].expected == Lifecycle.Waiting
    requires IsWaiting(s, s.actors[a].target)
    ensures var id, pc := s.actors[a].target, s.actors[a].pc;
      && (pc.Writing? && s.actors[a].child.Some? ==>
            Resumed(PatchAndClaim(Apply(s, Retry(a)), a, run), run, id,
                    HandedOver(s.rows[id].data, s.actors[a].child.value)))
      && (pc.Claiming? || pc.Won? ==>
            Resumed(ReadAndClaim(Apply(s, Retry(a)), a, run), run, id, s.rows[id].data))
  {
    var id, again := s.actors[a].target, Apply(s, Retry(a));
    if s.actors[a].pc.Writing? && s.actors[a].child.Some? {
      PatchesWhatIsThere(again, a, id);
      ClaimsWhatIsThere(Apply(Apply(again, ReadParent(a)), WriteParent(a)), a, run, id);
    } else if s.actors[a].pc.Claiming? || s.actors[a].pc.Won? {
      ClaimsWhatIsThere(again, a, run, id);
    }
  }

  /** A row that was left for somebody to take over is run, on the data it was left with, by a recovery. */
  lemma EnqueuedIsRecovered(s: System, id: string, data: ParentData, a: nat, run: nat)
    requires id !in s.rows && data.stack != [] && a !in s.actors && run !in s.runs
    ensures var left := Apply(s, Enqueue(id, data));
      Resumed(ReadAndClaim(Apply(left, Attempt(a, id, Lifecycle.New)), a, run), run, id, data)
  {
    ClaimsWhatIsThere(Apply(Apply(s, Enqueue(id, data)), Attempt(a, id, Lifecycle.New)), a, run, id);
  }

  /** The attempt is given up, or finds its execution missing or succeeded. */
  predicate GivesUp(s: System, step: Step, a: nat) {
    a in s.actors && (step == GiveUp(a) || (step == ReadExecution(a) && s.actors[a].pc.Starting? &&
      (s.actors[a].target !in s.rows || s.rows[s.actors[a].target].status == Lifecycle.Success)))
  }

  /** It never claims anything, whatever happens later. */
  lemma {:induction false} GivenUpForGood(s: System, step: Step, a: nat, later: seq<Step>)
    requires GivesUp(s, step, a)
    ensures var s' := Run(Apply(s, step), later); a in s'.actors && s'.actors[a].pc == GaveUp
  {
    if later == [] {
      GivesUpIndeed(s, step, a);
    } else {
      var n := |later| - 1;
      GivenUpForGood(s, step, a, later[..n]);
      GivenUpStays(Run(Apply(s, step), later[..n]), later[n], a);
    }
  }

  lemma GivesUpIndeed(s: System, step: Step, a: nat)
    requires GivesUp(s, step, a)
    ensures a in Apply(s, step).actors && Apply(s, step).actors[a].pc == GaveUp
  {}

  lemma GivenUpStays(s: System, step: Step, a: nat)
    requires a in s.actors && s.actors[a].pc == GaveUp
    ensures a in Apply(s, step).actors && Apply(s, step).actors[a].pc == GaveUp
  {}

  lemma OnlyRunStopped(row: Row, runs: Runs, run: nat, id: string)
    requires Exclusive(row, runs, id) && RunsNow(runs, run, id)
    ensures NobodyRuns(Stopped(runs, run), id)
  {
    forall r ensures !RunsNow(Stopped(runs, run), r, id) { assert r != run ==> !RunsNow(runs, r, id); }
  }

  /** When the process of the only run of an execution dies before its row was marked running, a recovery runs
      it again, and is the only one to. */
  lemma RecoveredAfterCrash(s: System, id: string, dead: nat, a: nat, run: nat)
    requires Grounded(s) && Safe(s, id) && RunsNow(s.runs, dead, id) && id in s.rows
    requires s.rows[id].status == Lifecycle.New && a !in s.actors && run !in s.runs
    ensures var s' := ReadAndClaim(Apply(Apply(s, Crash(dead)), Attempt(a, id, Lifecycle.New)), a, run);
      Resumed(s', run, id, s.rows[id].data) && forall r :: RunsNow(s'.runs, r, id) ==> r == run
  {
    var crashed := Apply(s, Crash(dead));
    OnlyRunStopped(s.rows[id], s.runs, dead, id);
    assert crashed == s.(runs := Stopped(s.runs, dead));
    var attempting := Apply(crashed, Attempt(a, id, Lifecycle.New));
    ClaimsWhatIsThere(attempting, a, run, id);
    OnlyClaimsARun(attempting, a, run, id);
  }

  lemma OnlyClaimsARun(s: System, a: nat, run: nat, id: string)
    requires run !in s.runs && NobodyRuns(s.runs, id)
    ensures forall r :: RunsNow(ReadAndClaim(s, a, run).runs, r, id) ==> r == run
  {
    forall r ensures r != run ==> RunsNow(ReadAndClaim(s, a, run).runs, r, id) == RunsNow(s.runs, r, id) {}
  }

  // ---------- a final status is final ----------

  /** The step gives the row of `id` this final status: the run of it finishes, or it is canceled. */
  ghost function EndsAs(s: System, step: Step, id: string): Option<Status> {
    match step
    case Finish(run, status) =>
      if RunsNow(s.runs, run, id) && id in s.rows && s.rows[id].status != Lifecycle.Canceled && Over(status)
      then Some(status) else None
    case Cancel(i) => if i == id && id in s.rows then Some(Lifecycle.Canceled) else None
    case _ => None
  }

  /** The row has ended, and whoever may still run it will not write over that. */
  ghost predicate Ended(s: System, id: string, status: Status) {
    && id in s.rows && s.rows[id].status == status && Over(status)
    && (status == Lifecycle.Canceled || NobodyRuns(s.runs, id))
  }

  lemma EndsIndeed(s: System, step: Step, id: string)
    requires Grounded(s) && Safe(s, id) && EndsAs(s, step, id).Some?
    ensures Ended(Apply(s, step), id, EndsAs(s, step, id).value)
  {
    if step.Finish? { OnlyRunStopped(s.rows[id], s.runs, step.run, id); }
  }

  /** A canceled run that goes on marks its row running, or a stop that has found it stoppable earlier writes
      `canceled` only now. */
  predicate Overwrites(s: System, step: Step, id: string, status: Status) {
    || (step.MarkRunning? && RunsNow(s.runs, step.run, id))
    || (step == Cancel(id) && status != Lifecycle.Canceled)
  }

  lemma EndedKeepsStatus(s: System, step: Step, id: string, status: Status)
    requires Grounded(s) && Ended(s, id, status) && !Overwrites(s, step, id, status)
    ensures id in Apply(s, step).rows && Apply(s, step).rows[id].status == status
  {
    if IsRunStep(step) && Live(s, step.run) { assert RunsNow(s.runs, step.run, s.runs[step.run].target); }
  }

  lemma EndedIsNotRunAgain(s: System, step: Step, id: string, status: Status)
    requires Grounded(s) && Ended(s, id, status)
    ensures forall r :: RunsNow(Apply(s, step).runs, r, id) ==> RunsNow(s.runs, r, id)
  {
    var c := StepChange(s, step, id);
    var runs' := Apply(s, step).runs;
    forall r | RunsNow(runs', r, id) ensures RunsNow(s.runs, r, id) {}
  }

  /** Once a row has ended, the two unconditional writes are the only steps that change its status, and always
      do. No attempt wins it, and no run's final write replaces `canceled`. */
  lemma EndedChangesIff(s: System, step: Step, id: string, status: Status)
    requires Grounded(s) && Ended(s, id, status)
    ensures Ended(Apply(s, step), id, status) <==> !Overwrites(s, step, id, status)
    ensures forall r :: RunsNow(Apply(s, step).runs, r, id) ==> RunsNow(s.runs, r, id)
  {
    EndedIsNotRunAgain(s, step, id, status);
    if !Overwrites(s, step, id, status) { EndedKeepsStatus(s, step, id, status); }
  }

  lemma {:induction false} EndedStays(s: System, id: string, status: Status, later: seq<Step>)
    requires Grounded(s) && Ended(s, id, status)
    requires forall i :: 0 <= i < |later| ==> !Overwrites(s, later[i], id, status)
    ensures Ended(Run(s, later), id, status) && Grounded(Run(s, later))
    ensures forall r :: RunsNow(Run(s, later).runs, r, id) ==> RunsNow(s.runs, r, id)
  {
    if later != [] {
      var n := |later| - 1;
      var before := Run(s, later[..n]);
      EndedStays(s, id, status, later[..n]);
      EndedChangesIff(before, later[n], id, status);
      StepKeepsGrounded(before, later[n]);
    }
  }

  /** After any orderly run: when an execution finishes, its row keeps this status whatever happens later,
      except for a late stop; when it is canceled, except for a run of it that still goes on and marks its row
      running. Nobody starts to run it again. */
  lemma FinalStatusIsFinal(steps: seq<Step>, step: Step, later: seq<Step>, id: string)
    requires OrderlyRecovery(steps, id) && EndsAs(Run(Init(), steps), step, id).Some?
    requires var s := Run(Init(), steps);
      if EndsAs(s, step, id).value != Lifecycle.Canceled then Cancel(id) !in later
      else forall i :: 0 <= i < |later| && later[i].MarkRunning? ==> !RunsNow(Apply(s, step).runs, later[i].run, id)
    ensures var s := Run(Init(), steps);
      var s' := Run(Apply(s, step), later);
      && id in s'.rows && s'.rows[id].status == EndsAs(s, step, id).value
      && forall r :: RunsNow(s'.runs, r, id) ==> RunsNow(Apply(s, step).runs, r, id)
  {
    var s := Run(Init(), steps);
    ClaimsMatchWaits(steps, id);
    RunIsGrounded(steps);
    EndsIndeed(s, step, id);
    if step.Finish? { OnlyRunStopped(s.rows[id], s.runs, step.run, id); }
    StepKeepsGrounded(s, step);
    EndedStays(Apply(s, step), id, EndsAs(s, step, id).value, later);
  }

  lemma StepKeepsGrounded(s: System, step: Step)
    requires Grounded(s)
    ensures Grounded(Apply(s, step))
  {
    ApplyKeepsRunsGrounded(s, step);
    ApplyKeepsExpectations(s, step);
  }

  /** A stop that looked while the execution was running, and writes after it has succeeded, leaves it canceled. */
  lemma LateStopReplacesSuccess(data: ParentData) returns (steps: seq<Step>)
    requires data.stack != []
    ensures steps == [Create("p", data, 0), Finish(0, Lifecycle.Success), Cancel("p")]
    ensures var s, ended := Run(Init(), steps), Run(Init(), steps[..2]);
      && "p" in ended.rows && ended.rows["p"].status == Lifecycle.Success
      && "p" in s.rows && s.rows["p"].status == Lifecycle.Canceled
  {
    var s := Init();
    steps := [];
    steps, s := Extend(steps, s, Create("p", data, 0));
    steps, s := Extend(steps, s, Finish(0, Lifecycle.Success));
    var ended := steps;
    steps, s := Extend(steps, s, Cancel("p"));
    assert steps[..2] == ended;
  }
}
