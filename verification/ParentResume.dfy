/** What a resumed parent runs on. Completing children read, patch and write their waiting parent without a
    guard, and whoever claims the parent runs it on what it read before the claim. How much of the children's
    results survives depends on how these accesses interleave. The theorems follow, in every interleaving, the
    chain of children through whose patches the data has gone; and say when this chain starts at the wait the
    parent is in, and when it is complete (see `Discipline`). */
module ParentResume {
  import opened Common
  import opened ParentResults
  import opened ResumeProtocol
  import Lifecycle = ExecutionLifecycle

  /** What is assumed of the children of one parent, if anything: none writes in a later wait than it has read
      in; none writes after another write than the last one it has seen. */
  datatype Discipline = Discipline(target: string, timely: bool, serialised: bool)

  function Any(id: string): Discipline { Discipline(id, false, false) }

  function Timely(id: string): Discipline { Discipline(id, true, false) }

  function Serialised(id: string): Discipline { Discipline(id, false, true) }

  predicate Writes(s: System, step: Step, id: string) {
    step.WriteParent? && CanWrite(s, step.actor) && s.actors[step.actor].target == id
  }

  ghost predicate Meets(d: Discipline, s: System, step: Step) {
    Writes(s, step, d.target) ==>
      (d.timely ==> IsTimely(s, step.actor)) && (d.serialised ==> IsUpToDate(s, step.actor))
  }

  predicate IsTimely(s: System, a: nat)
    requires CanWrite(s, a)
  {
    var row := s.rows[s.actors[a].target];
    row.status == Lifecycle.Waiting ==> s.actors[a].pc.read.wait == row.history.entered
  }

  /** The row has not been written since it was read. */
  predicate IsUpToDate(s: System, a: nat)
    requires CanWrite(s, a)
  {
    s.actors[a].pc.read.version == s.rows[s.actors[a].target].history.version
  }

  ghost predicate RunMeets(d: Discipline, steps: seq<Step>) {
    steps == [] ||
      (RunMeets(d, steps[..|steps| - 1]) && Meets(d, Run(Init(), steps[..|steps| - 1]), steps[|steps| - 1]))
  }

  lemma {:induction false} AnyRunMeets(steps: seq<Step>, id: string)
    ensures RunMeets(Any(id), steps)
  {
    if steps != [] { AnyRunMeets(steps[..|steps| - 1], id); }
  }

  // ---------- where the data of a parent comes from ----------

  ghost predicate ComesFrom(data: ParentData, l: Lineage) { l.base.stack != [] && data == Folded(l.base, l.chain) }

  /** The lineage of data that was in the row when `k` children had written in its wait: it ends with the last
      of them. */
  ghost predicate LineageFacts(d: Discipline, h: History, k: nat, l: Lineage) {
    && k <= |h.writers|
    && (k == 0 ==> l == Lineage(h.paused, []))
    && (k > 0 ==> l.chain != [] && l.chain[|l.chain| - 1] == h.writers[k - 1])
    && (d.timely ==> l.base == h.paused && forall i :: 0 <= i < |l.chain| ==> l.chain[i] in h.writers[..k])
    && (d.serialised ==> l == Lineage(h.paused, h.writers[..k]))
  }

  ghost predicate RowFacts(d: Discipline, row: Row) {
    && ComesFrom(row.data, row.history.lineage)
    && (row.status == Lifecycle.Waiting ==> LineageFacts(d, row.history, |row.history.writers|, row.history.lineage))
  }

  /** The row still is in the wait in which it was read. */
  predicate SameWait(row: Row, read: Reading) {
    row.status == Lifecycle.Waiting && read.wait == row.history.entered
  }

  ghost predicate ReadFacts(d: Discipline, row: Row, read: Reading) {
    && ComesFrom(read.data, read.lineage)
    && read.version <= row.history.version && read.wait <= row.history.entered
    && (read.version == row.history.version ==> read.lineage == row.history.lineage)
    && (SameWait(row, read) ==> LineageFacts(d, row.history, read.writes, read.lineage))
    && (SameWait(row, read) ==> row.history.version - read.version == |row.history.writers| - read.writes)
  }

  lemma FreshReadingFacts(d: Discipline, row: Row)
    requires RowFacts(d, row)
    ensures ReadFacts(d, row, Read(row))
  {}

  // ---------- how a row can change ----------

  predicate Kept(row: Row, row': Row) {
    && row'.data == row.data && row'.history == row.history.(withdrawn := row'.history.withdrawn)
    && (row'.status == Lifecycle.Waiting ==> row.status == Lifecycle.Waiting)
  }

  /** Every step keeps a row, or lets a child write, or a claimant claim, or a run pause. */
  ghost predicate RowStep(s: System, step: Step, id: string, row': Row)
    requires id in s.rows
  {
    var row := s.rows[id];
    || Kept(row, row')
    || (step.WriteParent? && CanWrite(s, step.actor) && s.actors[step.actor].target == id
        && row' == Written(row, s.actors[step.actor].pc.read, s.actors[step.actor].child.value))
    || (step.Claim? && CanClaim(s, step.actor) && s.actors[step.actor].target == id
        && row' == Claimed(row, s.actors[step.actor].pc.read))
    || (step.Pause? && step.data.stack != [] && row' == Paused(row, step.data))
  }

  lemma RowsStep(s: System, step: Step, id: string)
    requires id in s.rows
    ensures id in Apply(s, step).rows && RowStep(s, step, id, Apply(s, step).rows[id])
  {}

  lemma NewRows(s: System, step: Step, id: string)
    requires id !in s.rows && id in Apply(s, step).rows
    ensures (step.Create? || step.Enqueue?) && step.data.stack != [] && Apply(s, step).rows[id] == NewRow(step.data)
  {}

  predicate HasReading(s: System, a: nat) {
    a in s.actors && (s.actors[a].pc.Writing? || s.actors[a].pc.Claiming?)
  }

  /** A reading is an old one or has just been made. */
  lemma ReadingsStep(s: System, step: Step, a: nat)
    requires HasReading(Apply(s, step), a)
    ensures var s' := Apply(s, step);
      && a in s.actors && s'.actors[a].target == s.actors[a].target
      && (s'.actors[a] == s.actors[a]
          || (s'.rows == s.rows && s.actors[a].target in s.rows
              && s'.actors[a].pc.read == Read(s.rows[s.actors[a].target])))
  {}

  lemma ActorsStay(s: System, step: Step, a: nat)
    requires a in s.actors
    ensures var s' := Apply(s, step);
      a in s'.actors && s'.actors[a] == s.actors[a].(pc := s'.actors[a].pc)
  {
    if IsActorStep(step) || step.Claim? { MoversStay(s, step, a); } else { assert Apply(s, step).actors == s.actors; }
  }

  lemma MoversStay(s: System, step: Step, a: nat)
    requires a in s.actors && (IsActorStep(step) || step.Claim?)
    ensures var s' := Apply(s, step);
      a in s'.actors && s'.actors[a] == s.actors[a].(pc := s'.actors[a].pc)
  {}

  lemma NewActors(s: System, step: Step, a: nat)
    requires a !in s.actors && a in Apply(s, step).actors
    ensures step.ChildEnds? || step.Attempt?
    ensures var actor := Apply(s, step).actors[a];
      if step.ChildEnds? then actor.child == Some(step.child) && actor.expected == Lifecycle.Waiting
      else actor.child == None
  {}

  // ---------- each change keeps the facts ----------

  lemma ChainGrows(data: ParentData, l: Lineage, child: ChildRun)
    requires ComesFrom(data, l)
    ensures ComesFrom(Patched(data, child), Lineage(l.base, l.chain + [child]))
  {
    assert (l.chain + [child])[..|l.chain|] == l.chain;
  }

  lemma WriteKeepsRowFacts(d: Discipline, row: Row, read: Reading, child: ChildRun)
    requires RowFacts(d, row) && ReadFacts(d, row, read)
    requires d.timely && row.status == Lifecycle.Waiting ==> SameWait(row, read)
    requires d.serialised ==> read.version == row.history.version
    ensures RowFacts(d, Written(row, read, child))
  {
    ChainGrows(read.data, read.lineage, child);
    if row.status == Lifecycle.Waiting { WriteKeepsLineage(d, row, read, child); }
  }

  lemma WriteKeepsLineage(d: Discipline, row: Row, read: Reading, child: ChildRun)
    requires RowFacts(d, row) && ReadFacts(d, row, read) && row.status == Lifecycle.Waiting
    requires d.timely ==> SameWait(row, read)
    requires d.serialised ==> read.version == row.history.version
    ensures var h := Written(row, read, child).history; LineageFacts(d, h, |h.writers|, h.lineage)
  {
    var h, h' := row.history, Written(row, read, child).history;
    assert h'.writers[..|h'.writers|] == h'.writers && h.writers[..|h.writers|] == h.writers;
    if d.timely {
      forall i | 0 <= i < |h'.lineage.chain| ensures h'.lineage.chain[i] in h'.writers {
        if i < |read.lineage.chain| {
          assert read.lineage.chain[i] in h.writers[..read.writes];
        } else {
          assert h'.writers[|h.writers|] == child;
        }
      }
    }
  }

  lemma WriteKeepsReadFacts(d: Discipline, row: Row, source: Reading, child: ChildRun, read: Reading)
    requires ReadFacts(d, row, read)
    ensures ReadFacts(d, Written(row, source, child), read)
  {
    var h, h' := row.history, Written(row, source, child).history;
    if SameWait(row, read) { assert h'.writers[..read.writes] == h.writers[..read.writes]; }
  }

  ghost predicate ReadingFacts(d: Discipline, s: System, a: nat) {
    HasReading(s, a) && s.actors[a].target == d.target ==>
      d.target in s.rows && ReadFacts(d, s.rows[d.target], s.actors[a].pc.read)
  }

  ghost predicate Facts(d: Discipline, s: System) {
    && (d.target in s.rows ==> RowFacts(d, s.rows[d.target]))
    && (forall a :: ReadingFacts(d, s, a))
  }

  lemma StepKeepsRowFacts(d: Discipline, s: System, step: Step)
    requires Facts(d, s) && Meets(d, s, step) && d.target in Apply(s, step).rows
    ensures RowFacts(d, Apply(s, step).rows[d.target])
  {
    if d.target !in s.rows {
      NewRows(s, step, d.target);
    } else {
      RowsStep(s, step, d.target);
      ChangedRowFacts(d, s, step, Apply(s, step).rows[d.target]);
    }
  }

  lemma ChangedRowFacts(d: Discipline, s: System, step: Step, row': Row)
    requires Facts(d, s) && Meets(d, s, step) && d.target in s.rows && RowStep(s, step, d.target, row')
    ensures RowFacts(d, row')
  {
    if !Kept(s.rows[d.target], row') && !step.Pause? {
      assert ReadingFacts(d, s, step.actor);
      if step.WriteParent? {
        WriteKeepsRowFacts(d, s.rows[d.target], s.actors[step.actor].pc.read, s.actors[step.actor].child.value);
      }
    }
  }

  lemma StepKeepsReadingFacts(d: Discipline, s: System, step: Step, a: nat)
    requires Facts(d, s)
    ensures ReadingFacts(d, Apply(s, step), a)
  {
    var s' := Apply(s, step);
    if HasReading(s', a) && s'.actors[a].target == d.target {
      ReadingsStep(s, step, a);
      if s'.actors[a] == s.actors[a] {
        assert ReadingFacts(d, s, a);
        RowsStep(s, step, d.target);
        OldReadingFacts(d, s, step, s'.rows[d.target], s.actors[a].pc.read);
      } else {
        FreshReadingFacts(d, s.rows[d.target]);
      }
    }
  }

  lemma OldReadingFacts(d: Discipline, s: System, step: Step, row': Row, read: Reading)
    requires d.target in s.rows && RowStep(s, step, d.target, row') && ReadFacts(d, s.rows[d.target], read)
    ensures ReadFacts(d, row', read)
  {
    if !Kept(s.rows[d.target], row') && step.WriteParent? {
      WriteKeepsReadFacts(d, s.rows[d.target], s.actors[step.actor].pc.read, s.actors[step.actor].child.value, read);
    }
  }

  /** Over all runs in which the children of one parent meet a discipline, its row and everything that has
      been read from it come from where the discipline says. */
  lemma {:induction false} RunKeepsFacts(d: Discipline, steps: seq<Step>)
    requires RunMeets(d, steps)
    ensures Facts(d, Run(Init(), steps))
  {
    if steps != [] {
      var n := |steps| - 1;
      var before, after := Run(Init(), steps[..n]), Run(Init(), steps);
      RunKeepsFacts(d, steps[..n]);
      if d.target in after.rows { StepKeepsRowFacts(d, before, steps[n]); }
      forall a ensures ReadingFacts(d, after, a) { StepKeepsReadingFacts(d, before, steps[n], a); }
    }
  }

  lemma AnyRunFacts(steps: seq<Step>, id: string)
    ensures Facts(Any(id), Run(Init(), steps))
  {
    AnyRunMeets(steps, id);
    RunKeepsFacts(Any(id), steps);
  }

  // ---------- the chain is made of children ----------

  /** `child` is a child run of `id` that has ended. */
  ghost predicate HasEnded(s: System, id: string, child: ChildRun) {
    exists a :: a in s.actors && s.actors[a].target == id && s.actors[a].child == Some(child)
  }

  ghost predicate AllEnded(s: System, id: string, children: seq<ChildRun>) {
    forall i :: 0 <= i < |children| ==> HasEnded(s, id, children[i])
  }

  ghost predicate RowEnded(s: System, id: string) {
    id in s.rows ==>
      AllEnded(s, id, s.rows[id].history.writers) && AllEnded(s, id, s.rows[id].history.lineage.chain)
  }

  ghost predicate ReadingEnded(s: System, a: nat) {
    HasReading(s, a) ==> AllEnded(s, s.actors[a].target, s.actors[a].pc.read.lineage.chain)
  }

  lemma EndedStays(s: System, step: Step, id: string, children: seq<ChildRun>)
    requires AllEnded(s, id, children)
    ensures AllEnded(Apply(s, step), id, children)
  {
    forall i | 0 <= i < |children| ensures HasEnded(Apply(s, step), id, children[i]) {
      assert HasEnded(s, id, children[i]);
      var a :| a in s.actors && s.actors[a].target == id && s.actors[a].child == Some(children[i]);
      ActorsStay(s, step, a);
    }
  }

  lemma OneMoreEnded(s: System, id: string, children: seq<ChildRun>, a: nat)
    requires AllEnded(s, id, children) && a in s.actors && s.actors[a].target == id && s.actors[a].child.Some?
    ensures AllEnded(s, id, children + [s.actors[a].child.value])
  {}

  lemma ChangedRowEnded(s: System, step: Step, id: string, row': Row)
    requires id in s.rows && RowStep(s, step, id, row') && RowEnded(s, id) && forall a :: ReadingEnded(s, a)
    ensures AllEnded(s, id, row'.history.writers) && AllEnded(s, id, row'.history.lineage.chain)
  {
    if !Kept(s.rows[id], row') && !step.Pause? {
      var a := step.actor;
      assert ReadingEnded(s, a);
      if step.WriteParent? {
        OneMoreEnded(s, id, s.rows[id].history.writers, a);
        OneMoreEnded(s, id, s.actors[a].pc.read.lineage.chain, a);
      }
    }
  }

  lemma StepKeepsRowEnded(s: System, step: Step, id: string)
    requires RowEnded(s, id) && forall a :: ReadingEnded(s, a)
    ensures RowEnded(Apply(s, step), id)
  {
    var s' := Apply(s, step);
    if id in s.rows {
      RowsStep(s, step, id);
      ChangedRowEnded(s, step, id, s'.rows[id]);
      EndedStays(s, step, id, s'.rows[id].history.writers);
      EndedStays(s, step, id, s'.rows[id].history.lineage.chain);
    } else if id in s'.rows {
      NewRows(s, step, id);
    }
  }

  lemma StepKeepsReadingEnded(s: System, step: Step, a: nat)
    requires ReadingEnded(s, a) && forall id :: RowEnded(s, id)
    ensures ReadingEnded(Apply(s, step), a)
  {
    var s' := Apply(s, step);
    if HasReading(s', a) {
      ReadingsStep(s, step, a);
      assert RowEnded(s, s.actors[a].target);
      EndedStays(s, step, s.actors[a].target, s'.actors[a].pc.read.lineage.chain);
    }
  }

  lemma {:induction false} RunKeepsEnded(steps: seq<Step>)
    ensures forall id :: RowEnded(Run(Init(), steps), id)
    ensures forall a :: ReadingEnded(Run(Init(), steps), a)
  {
    if steps != [] {
      var n := |steps| - 1;
      var before := Run(Init(), steps[..n]);
      RunKeepsEnded(steps[..n]);
      forall id ensures RowEnded(Run(Init(), steps), id) { StepKeepsRowEnded(before, steps[n], id); }
      forall a ensures ReadingEnded(Run(Init(), steps), a) { StepKeepsReadingEnded(before, steps[n], a); }
    }
  }

  // ---------- what the data of a row is, in every run ----------

  function Error(p: ParentData): Option<string>
    requires p.stack != []
  {
    p.stack[0].metadata.resumeError
  }

  /** In every run: the data of every row is what folding the chain of its children makes of its base. So the
      input of the first entry is the output of the last successful child of the chain, and the error on it is
      exactly that of the last failing one. */
  lemma DataIsFoldOfChain(steps: seq<Step>, id: string)
    requires id in Run(Init(), steps).rows
    ensures var s := Run(Init(), steps);
      var data, l := s.rows[id].data, s.rows[id].history.lineage;
      && l.base.stack != [] && data == Folded(l.base, l.chain) && SameButFirst(l.base, data)
      && AllEnded(s, id, l.chain)
      && IsLast(l.chain, OutputOf, Some(l.base.stack[0].data), Some(data.stack[0].data))
      && forall error :: error == Error(data) <==> IsLast(l.chain, ErrorOf, Error(l.base), error)
  {
    AnyRunFacts(steps, id);
    RunKeepsEnded(steps);
    var s := Run(Init(), steps);
    assert RowEnded(s, id);
    var data, l := s.rows[id].data, s.rows[id].history.lineage;
    FoldedResults(l.base, l.chain);
    forall error | IsLast(l.chain, ErrorOf, Error(l.base), error) ensures error == Error(data) {
      LastIsUnique(l.chain, ErrorOf, Error(l.base), error, Error(data));
    }
  }

  lemma LastIsUnique<T>(children: seq<ChildRun>, contribution: ChildRun -> Option<T>, original: Option<T>,
                        a: Option<T>, b: Option<T>)
    requires IsLast(children, contribution, original, a) && IsLast(children, contribution, original, b)
    ensures a == b
  {}

  // ---------- what a winning claim runs on ----------

  /** The claim wins, in the wait in which it has read the row. */
  predicate ClaimsInItsWait(s: System, a: nat) {
    CanClaim(s, a) && SameWait(s.rows[s.actors[a].target], s.actors[a].pc.read)
  }

  /** In every run, whoever claims the parent in the wait in which it has read it: the parent runs on exactly
      what the pause wrote if no child had written by the time of the read. Otherwise it runs on the fold of a
      chain that ends with the child that had written last; so if this child succeeded, on its output. */
  lemma ClaimRunsOnLastWrite(steps: seq<Step>, a: nat, run: nat)
    requires var s := Run(Init(), steps); ClaimsInItsWait(s, a) && run !in s.runs
    ensures var s, s' := Run(Init(), steps), Apply(Run(Init(), steps), Claim(a, run));
      var id, read := s.actors[a].target, s.actors[a].pc.read;
      var h, input := s.rows[id].history, s'.runs[run].input;
      && Live(s', run) && s'.runs[run].target == id && read.writes <= |h.writers| && input.stack != []
      && (read.writes == 0 ==> input == h.paused)
      && (read.writes > 0 ==>
            HasEnded(s, id, h.writers[read.writes - 1]) && EndsWith(input, h.writers[read.writes - 1]))
  {
    var s := Run(Init(), steps);
    var id, read := s.actors[a].target, s.actors[a].pc.read;
    AnyRunFacts(steps, id);
    RunKeepsEnded(steps);
    assert ReadingFacts(Any(id), s, a) && RowEnded(s, id);
    WinnerRunsOnReading(s, a, run);
    FoldedShape(read.lineage.base, read.lineage.chain);
    if read.writes > 0 {
      LastOfChainSucceeds(read.data, read.lineage);
      assert HasEnded(s, id, s.rows[id].history.writers[read.writes - 1]);
    }
  }

  /** The data is the patch of that child on something, with its output in front if it succeeded. */
  ghost predicate EndsWith(data: ParentData, child: ChildRun) {
    && (exists before: ParentData :: before.stack != [] && data == Patched(before, child))
    && (Succeeds(child) ==> data.stack != [] && child.output == Some(data.stack[0].data))
  }

  lemma LastOfChainSucceeds(data: ParentData, l: Lineage)
    requires ComesFrom(data, l) && l.chain != []
    ensures EndsWith(data, l.chain[|l.chain| - 1])
  {
    var before := Folded(l.base, l.chain[..|l.chain| - 1]);
    FoldedShape(l.base, l.chain[..|l.chain| - 1]);
    assert data == Patched(before, l.chain[|l.chain| - 1]);
  }

  /** The child ended in the wait the row is in now. */
  predicate OfThisWait(s: System, a: nat) {
    a in s.actors && s.actors[a].child.Some? && IsWaiting(s, s.actors[a].target)
      && s.actors[a].phase == s.rows[s.actors[a].target].history.entered
  }

  function Entered(s: System, id: string): nat { if id in s.rows then s.rows[id].history.entered else 0 }

  /** A child that ended in this wait and reports something has written by the time it goes on to resume the parent. */
  ghost predicate HasWritten(s: System, a: nat) {
    && (a in s.actors ==> s.actors[a].phase <= Entered(s, s.actors[a].target))
    && (OfThisWait(s, a) && Reports(s.actors[a].child.value) ==>
          var actor, h := s.actors[a], s.rows[s.actors[a].target].history;
          && !actor.pc.Won?
          && (actor.pc.Starting? ==> h.writers != [])
          && (actor.pc.Claiming? ==> actor.pc.read.wait == h.entered && actor.pc.read.writes > 0))
  }

  /** The wait goes on unless the step ends it, and writers are only added. */
  lemma StillInThisWait(s: System, step: Step, a: nat)
    requires a in s.actors && HasWritten(s, a) && OfThisWait(Apply(s, step), a)
    ensures OfThisWait(s, a)
    ensures s.rows[s.actors[a].target].history.writers <= Apply(s, step).rows[s.actors[a].target].history.writers
  {
    ActorsStay(s, step, a);
    if s.actors[a].target in s.rows {
      RowsStep(s, step, s.actors[a].target);
    } else {
      NewRows(s, step, s.actors[a].target);
    }
  }

  lemma PhaseStaysBehind(s: System, step: Step, a: nat)
    requires a in s.actors && s.actors[a].phase <= Entered(s, s.actors[a].target)
    ensures Apply(s, step).actors[a].phase <= Entered(Apply(s, step), s.actors[a].target)
  {
    ActorsStay(s, step, a);
    if s.actors[a].target in s.rows { RowsStep(s, step, s.actors[a].target); }
  }

  lemma NewActorHasWritten(s: System, step: Step, a: nat)
    requires a !in s.actors
    ensures HasWritten(Apply(s, step), a)
  {}

  /** The child's own steps; reading the execution and retrying see at least its own write. */
  lemma OwnStepHasWritten(s: System, step: Step, a: nat)
    requires a in s.actors && HasWritten(s, a) && OfThisWait(s, a) && Reports(s.actors[a].child.value)
    requires LeavesRowsToWriters(step) && !LeavesAlone(step, a)
    requires s.rows[s.actors[a].target].data.stack != [] && WritesInOrder(s, a)
    ensures HasWritten(Apply(s, step), a)
  {
    match step
    case ReadParent(_) =>
    case ReadExecution(_) =>
    case Retry(_) =>
    case GiveUp(_) =>
  }

  /** What has been read in this wait is not ahead of it. */
  predicate WritesInOrder(s: System, a: nat) {
    HasReading(s, a) && s.actors[a].target in s.rows && SameWait(s.rows[s.actors[a].target], s.actors[a].pc.read) ==>
      s.actors[a].pc.read.writes <= |s.rows[s.actors[a].target].history.writers|
  }

  predicate LeavesRowsToWriters(step: Step) { step.ReadParent? || step.ReadExecution? || step.Retry? || step.GiveUp? }

  lemma OwnWriteHasWritten(s: System, step: Step, a: nat)
    requires a in s.actors && HasWritten(s, a) && OfThisWait(s, a)
    requires step == WriteParent(a) || (step.Claim? && step.actor == a)
    ensures HasWritten(Apply(s, step), a)
  {}

  /** The step does not move actor `a`. */
  predicate LeavesAlone(step: Step, a: nat) {
    match step
    case ReadParent(b) => b != a
    case WriteParent(b) => b != a
    case ReadExecution(b) => b != a
    case Claim(b, _) => b != a
    case Retry(b) => b != a
    case GiveUp(b) => b != a
    case _ => true
  }

  lemma LeftAlone(s: System, step: Step, a: nat)
    requires a in s.actors && LeavesAlone(step, a)
    ensures a in Apply(s, step).actors && Apply(s, step).actors[a] == s.actors[a]
  {}

  lemma StepKeepsHasWritten(s: System, step: Step, a: nat)
    requires a in s.actors ==> Facts(Any(s.actors[a].target), s)
    requires HasWritten(s, a)
    ensures HasWritten(Apply(s, step), a)
  {
    var s' := Apply(s, step);
    if a !in s.actors {
      NewActorHasWritten(s, step, a);
    } else {
      ActorsStay(s, step, a);
      PhaseStaysBehind(s, step, a);
      if OfThisWait(s', a) && Reports(s.actors[a].child.value) {
        StillInThisWait(s, step, a);
        if LeavesAlone(step, a) {
          LeftAlone(s, step, a);
        } else if LeavesRowsToWriters(step) {
          RowHasStack(s, a);
          OwnStepHasWritten(s, step, a);
        } else {
          OwnWriteHasWritten(s, step, a);
        }
      }
    }
  }

  lemma RowHasStack(s: System, a: nat)
    requires a in s.actors && s.actors[a].target in s.rows && Facts(Any(s.actors[a].target), s)
    ensures s.rows[s.actors[a].target].data.stack != [] && WritesInOrder(s, a)
  {
    var id := s.actors[a].target;
    var l := s.rows[id].history.lineage;
    assert RowFacts(Any(id), s.rows[id]) && ReadingFacts(Any(id), s, a);
    FoldedShape(l.base, l.chain);
  }

  lemma {:induction false} RunKeepsHasWritten(steps: seq<Step>, a: nat)
    ensures HasWritten(Run(Init(), steps), a)
  {
    if steps != [] {
      var n := |steps| - 1;
      var before := Run(Init(), steps[..n]);
      RunKeepsHasWritten(steps[..n], a);
      if a in before.actors { AnyRunFacts(steps[..n], before.actors[a].target); }
      StepKeepsHasWritten(before, steps[n], a);
    }
  }

  /** In every run: when a child that ended in the current wait of its parent, and reports something, claims the
      parent, then some child has written in this wait before the claimant's read, and the parent runs on the
      fold of a chain that ends with the last of them; so on its output, if this last one succeeded. */
  lemma ChildClaimRunsOnChildOutput(steps: seq<Step>, a: nat, run: nat)
    requires var s := Run(Init(), steps);
      OfThisWait(s, a) && Reports(s.actors[a].child.value) && s.actors[a].pc.Claiming? && run !in s.runs
    ensures var s, s' := Run(Init(), steps), Apply(Run(Init(), steps), Claim(a, run));
      var id, read := s.actors[a].target, s.actors[a].pc.read;
      var writers := s.rows[id].history.writers;
      && Live(s', run) && s'.runs[run].target == id && 0 < read.writes <= |writers|
      && HasEnded(s, id, writers[read.writes - 1]) && EndsWith(s'.runs[run].input, writers[read.writes - 1])
  {
    RunKeepsHasWritten(steps, a);
    ChildrenExpectWaiting(steps, a);
    ClaimRunsOnLastWrite(steps, a, run);
  }

  lemma {:induction false} ChildrenExpectWaiting(steps: seq<Step>, a: nat)
    ensures var s := Run(Init(), steps);
      a in s.actors && s.actors[a].child.Some? ==> s.actors[a].expected == Lifecycle.Waiting
  {
    if steps != [] {
      var n := |steps| - 1;
      var before := Run(Init(), steps[..n]);
      ChildrenExpectWaiting(steps[..n], a);
      if a in before.actors {
        ActorsStay(before, steps[n], a);
      } else if a in Run(Init(), steps).actors {
        NewActors(before, steps[n], a);
      }
    }
  }

  // ---------- staying where the parent waits ----------

  lemma ShapeOfFold(paused: ParentData, data: ParentData, l: Lineage)
    requires ComesFrom(data, l)
    ensures SameButFirst(paused, data) <==> SameButFirst(paused, l.base)
  {
    FoldedShape(l.base, l.chain);
  }

  /** In every run: a claimed parent goes on where it waits, at the same node and with the same rest of the
      stack, exactly if the base of what was read is at this place. If no child of this parent writes in a
      later wait than it has read in, and the claimant has read in this wait, the base is what the pause wrote. */
  lemma ClaimStaysInTheWaitIff(steps: seq<Step>, a: nat, run: nat)
    requires var s := Run(Init(), steps); CanClaim(s, a) && run !in s.runs
    ensures var s := Run(Init(), steps);
      var row, read := s.rows[s.actors[a].target], s.actors[a].pc.read;
      && run in Apply(s, Claim(a, run)).runs
      && (SameButFirst(row.history.paused, Apply(s, Claim(a, run)).runs[run].input) <==>
            SameButFirst(row.history.paused, read.lineage.base))
  {
    var s := Run(Init(), steps);
    var id := s.actors[a].target;
    AnyRunFacts(steps, id);
    assert ReadingFacts(Any(id), s, a);
    WinnerRunsOnReading(s, a, run);
    ShapeOfFold(s.rows[id].history.paused, s.actors[a].pc.read.data, s.actors[a].pc.read.lineage);
  }

  lemma TimelyClaimStaysInTheWait(steps: seq<Step>, a: nat, run: nat)
    requires var s := Run(Init(), steps); ClaimsInItsWait(s, a) && run !in s.runs
    requires RunMeets(Timely(Run(Init(), steps).actors[a].target), steps)
    ensures var s := Run(Init(), steps);
      var h, read := s.rows[s.actors[a].target].history, s.actors[a].pc.read;
      && read.lineage.base == h.paused && SameButFirst(h.paused, Apply(s, Claim(a, run)).runs[run].input)
      && read.writes <= |h.writers|
      && forall i :: 0 <= i < |read.lineage.chain| ==> read.lineage.chain[i] in h.writers[..read.writes]
  {
    var s := Run(Init(), steps);
    RunKeepsFacts(Timely(s.actors[a].target), steps);
    assert ReadingFacts(Timely(s.actors[a].target), s, a);
    ClaimStaysInTheWaitIff(steps, a, run);
  }

  /** In every run: a write keeps a waiting parent where it waits exactly if the base of what the child has
      read is at this place; if the child has read in this wait and the writes before were timely, it is. */
  lemma WriteStaysInTheWaitIff(steps: seq<Step>, a: nat)
    requires var s := Run(Init(), steps); CanWrite(s, a)
    ensures var s, s' := Run(Init(), steps), Apply(Run(Init(), steps), WriteParent(a));
      var id := s.actors[a].target;
      && id in s'.rows
      && (SameButFirst(s.rows[id].history.paused, s'.rows[id].data) <==>
            SameButFirst(s.rows[id].history.paused, s.actors[a].pc.read.lineage.base))
      && (RunMeets(Timely(id), steps) && SameWait(s.rows[id], s.actors[a].pc.read) ==>
            s.actors[a].pc.read.lineage.base == s.rows[id].history.paused)
  {
    var s := Run(Init(), steps);
    var id, read := s.actors[a].target, s.actors[a].pc.read;
    AnyRunFacts(steps, id);
    assert ReadingFacts(Any(id), s, a);
    ChainGrows(read.data, read.lineage, s.actors[a].child.value);
    ShapeOfFold(s.rows[id].history.paused, Patched(read.data, s.actors[a].child.value),
                Lineage(read.lineage.base, read.lineage.chain + [s.actors[a].child.value]));
    if RunMeets(Timely(id), steps) {
      RunKeepsFacts(Timely(id), steps);
      assert ReadingFacts(Timely(id), s, a);
    }
  }

  // ---------- writes that overtake each other ----------

  /** If no write on a parent overtakes another, nothing is lost: the chain of its data is all writers of the
      wait, in order, on what the pause wrote. */
  lemma SerialisedRunsFold(steps: seq<Step>, id: string)
    requires RunMeets(Serialised(id), steps) && IsWaiting(Run(Init(), steps), id)
    ensures var row := Run(Init(), steps).rows[id];
      && row.history.paused.stack != []
      && row.history.lineage == Lineage(row.history.paused, row.history.writers)
      && row.data == Folded(row.history.paused, row.history.writers)
      && SameButFirst(row.history.paused, row.data)
      && IsLast(row.history.writers, OutputOf, Some(row.history.paused.stack[0].data), Some(row.data.stack[0].data))
      && IsLast(row.history.writers, ErrorOf, Error(row.history.paused), Error(row.data))
  {
    RunKeepsFacts(Serialised(id), steps);
    var h := Run(Init(), steps).rows[id].history;
    assert h.writers[..|h.writers|] == h.writers;
    FoldedResults(h.paused, h.writers);
  }

  /** A write is up to date exactly if no sibling has written in this wait since the read. */
  lemma UpToDateIff(steps: seq<Step>, a: nat)
    requires var s := Run(Init(), steps);
      CanWrite(s, a) && SameWait(s.rows[s.actors[a].target], s.actors[a].pc.read)
    ensures var s := Run(Init(), steps);
      IsUpToDate(s, a) <==> s.actors[a].pc.read.writes == |s.rows[s.actors[a].target].history.writers|
  {
    var s := Run(Init(), steps);
    AnyRunFacts(steps, s.actors[a].target);
    assert ReadingFacts(Any(s.actors[a].target), s, a);
  }

  /** While nothing has been lost, the next write loses nothing exactly if it overtakes none. */
  lemma WriteLosesNothingIff(steps: seq<Step>, a: nat)
    requires var s := Run(Init(), steps);
      CanWrite(s, a) && SameWait(s.rows[s.actors[a].target], s.actors[a].pc.read)
    requires RunMeets(Serialised(Run(Init(), steps).actors[a].target), steps)
    ensures var s, s' := Run(Init(), steps), Apply(Run(Init(), steps), WriteParent(a));
      var id := s.actors[a].target;
      && id in s'.rows
      && (s'.rows[id].history.lineage == Lineage(s'.rows[id].history.paused, s'.rows[id].history.writers) <==>
            IsUpToDate(s, a))
  {
    var s := Run(Init(), steps);
    var id, read := s.actors[a].target, s.actors[a].pc.read;
    RunKeepsFacts(Serialised(id), steps);
    assert ReadingFacts(Serialised(id), s, a);
    UpToDateIff(steps, a);
    var h, child := s.rows[id].history, s.actors[a].child.value;
    SnocEqualIff(read.lineage.chain, h.writers, child);
    assert h.writers[..|h.writers|] == h.writers;
  }

  lemma SnocEqualIff(a: seq<ChildRun>, b: seq<ChildRun>, child: ChildRun)
    ensures a + [child] == b + [child] <==> a == b
  {
    if a + [child] == b + [child] {
      assert a == (a + [child])[..|a|] && b == (b + [child])[..|b|];
    }
  }

  /** While nothing has been lost, the data stays the fold of all writers exactly if the patch of what was read
      is the patch of what is there now. */
  lemma WriteKeepsFoldIff(steps: seq<Step>, a: nat)
    requires var s := Run(Init(), steps); CanWrite(s, a) && IsWaiting(s, s.actors[a].target)
    requires RunMeets(Serialised(Run(Init(), steps).actors[a].target), steps)
    ensures var s, s' := Run(Init(), steps), Apply(Run(Init(), steps), WriteParent(a));
      var id, child := s.actors[a].target, s.actors[a].child.value;
      && id in s'.rows
      && (s'.rows[id].data == Folded(s'.rows[id].history.paused, s'.rows[id].history.writers) <==>
            Patched(s.actors[a].pc.read.data, child) == Patched(s.rows[id].data, child))
  {
    var s := Run(Init(), steps);
    RunKeepsFacts(Serialised(s.actors[a].target), steps);
    var h, child := s.rows[s.actors[a].target].history, s.actors[a].child.value;
    assert h.writers[..|h.writers|] == h.writers;
    assert (h.writers + [child])[..|h.writers|] == h.writers;
  }

  lemma ReadHasStack(steps: seq<Step>, a: nat)
    requires HasReading(Run(Init(), steps), a)
    ensures var s := Run(Init(), steps);
      && s.actors[a].target in s.rows && s.rows[s.actors[a].target].data.stack != []
      && s.actors[a].pc.read.data.stack != []
  {
    var s := Run(Init(), steps);
    var id, read := s.actors[a].target, s.actors[a].pc.read;
    AnyRunFacts(steps, id);
    assert ReadingFacts(Any(id), s, a) && RowFacts(Any(id), s.rows[id]);
    FoldedShape(read.lineage.base, read.lineage.chain);
    FoldedShape(s.rows[id].history.lineage.base, s.rows[id].history.lineage.chain);
  }

  /** In every run, the write of a child without an error keeps the parent's error exactly if that still is the
      one the child has read; an up-to-date write always does. */
  lemma WriteKeepsErrorIff(steps: seq<Step>, a: nat)
    requires var s := Run(Init(), steps); CanWrite(s, a) && s.actors[a].child.value.error.None?
    ensures var s, s' := Run(Init(), steps), Apply(Run(Init(), steps), WriteParent(a));
      var id, read := s.actors[a].target, s.actors[a].pc.read;
      && s.rows[id].data.stack != [] && read.data.stack != [] && id in s'.rows && s'.rows[id].data.stack != []
      && (Error(s'.rows[id].data) == Error(s.rows[id].data) <==> Error(read.data) == Error(s.rows[id].data))
      && (IsUpToDate(s, a) ==> Error(s'.rows[id].data) == Error(s.rows[id].data))
  {
    var s := Run(Init(), steps);
    AnyRunFacts(steps, s.actors[a].target);
    assert ReadingFacts(Any(s.actors[a].target), s, a) && RowFacts(Any(s.actors[a].target), s.rows[s.actors[a].target]);
    ReadHasStack(steps, a);
  }

  /** While nothing has been lost: a write erases the parent's error exactly if a sibling has failed and
      written since the read, with another error than the one that was read. */
  lemma OverlappingFailureIsErased(steps: seq<Step>, a: nat)
    requires var s := Run(Init(), steps);
      && CanWrite(s, a) && s.actors[a].child.value.error.None?
      && SameWait(s.rows[s.actors[a].target], s.actors[a].pc.read)
    requires RunMeets(Serialised(Run(Init(), steps).actors[a].target), steps)
    ensures var s, s' := Run(Init(), steps), Apply(Run(Init(), steps), WriteParent(a));
      var row, read := s.rows[s.actors[a].target], s.actors[a].pc.read;
      && read.writes <= |row.history.writers| && row.data.stack != [] && read.data.stack != []
      && s.actors[a].target in s'.rows && s'.rows[s.actors[a].target].data.stack != []
      && (Error(s'.rows[s.actors[a].target].data) != Error(row.data) <==>
            FailedSince(row.history.writers[read.writes..], Error(read.data)))
  {
    var s := Run(Init(), steps);
    var d := Serialised(s.actors[a].target);
    RunKeepsFacts(d, steps);
    var row, read := s.rows[s.actors[a].target], s.actors[a].pc.read;
    assert ReadingFacts(d, s, a) && RowFacts(d, row);
    WriteKeepsErrorIff(steps, a);
    ErrorsSince(row.history, read.writes, read.data, row.data);
    LastErrorDiffersIff(row.history.writers[read.writes..], Error(read.data), Error(row.data));
  }

  lemma ErrorsSince(h: History, k: nat, seen: ParentData, now: ParentData)
    requires k <= |h.writers| && seen.stack != [] && now.stack != []
    requires seen == Folded(h.paused, h.writers[..k]) && now == Folded(h.paused, h.writers[..|h.writers|])
    ensures IsLast(h.writers[k..], ErrorOf, Error(seen), Error(now))
  {
    assert h.writers[..k] + h.writers[k..] == h.writers == h.writers[..|h.writers|];
    FoldedConcat(h.paused, h.writers[..k], h.writers[k..]);
    FoldedError(seen, h.writers[k..]);
  }

  /** Some writer has failed, and the last that did reports another error. */
  ghost predicate FailedSince(writers: seq<ChildRun>, error: Option<string>) {
    exists i :: 0 <= i < |writers| && writers[i].error.Some? && writers[i].error != error
                  && forall j :: i < j < |writers| ==> writers[j].error.None?
  }

  lemma LastErrorDiffersIff(writers: seq<ChildRun>, before: Option<string>, after: Option<string>)
    requires IsLast(writers, ErrorOf, before, after)
    ensures after != before <==> FailedSince(writers, before)
  {
    if exists i :: 0 <= i < |writers| && ErrorOf(writers[i]).Some? {
      var i :| 0 <= i < |writers| && ErrorOf(writers[i]).Some? && after == ErrorOf(writers[i])
        && forall j :: i < j < |writers| ==> ErrorOf(writers[j]).None?;
      assert writers[i].error == after;
      forall j | i < j < |writers| ensures writers[j].error.None? { assert ErrorOf(writers[j]).None?; }
    } else {
      forall i | 0 <= i < |writers| ensures writers[i].error.None? { assert ErrorOf(writers[i]).None?; }
    }
  }

  // ---------- claims on what was read long ago ----------

  lemma {:induction false} WaitsUnmoved(s: System, between: seq<Step>, a: nat)
    requires a in s.actors && forall i :: 0 <= i < |between| ==> LeavesAlone(between[i], a)
    ensures a in Run(s, between).actors && Run(s, between).actors[a] == s.actors[a]
  {
    if between != [] {
      var n := |between| - 1;
      WaitsUnmoved(s, between[..n], a);
      LeftAlone(Run(s, between[..n]), between[n], a);
    }
  }

  /** The data changes only together with the version, which never goes down. */
  lemma {:induction false} DataFollowsVersion(s: System, between: seq<Step>, id: string)
    requires id in s.rows
    ensures var later := Run(s, between);
      && id in later.rows && s.rows[id].history.version <= later.rows[id].history.version
      && (later.rows[id].history.version == s.rows[id].history.version ==> later.rows[id].data == s.rows[id].data)
  {
    if between != [] {
      var n := |between| - 1;
      DataFollowsVersion(s, between[..n], id);
      RowsStep(Run(s, between[..n]), between[n], id);
    }
  }

  /** A run starts from the row's data as it was when the claimant read it, whatever has happened in between;
      that still is the row's data if its version is the same. */
  lemma ClaimRunsOnWhatWasRead(s: System, a: nat, between: seq<Step>, run: nat)
    requires a in s.actors && s.actors[a].pc.Starting? && s.actors[a].target in s.rows
    requires forall i :: 0 <= i < |between| ==> LeavesAlone(between[i], a)
    requires var later := Run(Apply(s, ReadExecution(a)), between); CanClaim(later, a) && run !in later.runs
    ensures var later, id := Run(Apply(s, ReadExecution(a)), between), s.actors[a].target;
      && id in later.rows && Live(Apply(later, Claim(a, run)), run)
      && Apply(later, Claim(a, run)).runs[run].input == s.rows[id].data
      && s.rows[id].history.version <= later.rows[id].history.version
      && (later.rows[id].history.version == s.rows[id].history.version ==> later.rows[id].data == s.rows[id].data)
  {
    var reader := Apply(s, ReadExecution(a));
    ReaderHasRead(s, a);
    WaitsUnmoved(reader, between, a);
    DataFollowsVersion(reader, between, s.actors[a].target);
    var later := Run(reader, between);
    assert later.actors[a].pc.Claiming?;
    WinnerRunsOnReading(later, a, run);
  }

  lemma ReaderHasRead(s: System, a: nat)
    requires a in s.actors && s.actors[a].pc.Starting? && s.actors[a].target in s.rows
    ensures var s' := Apply(s, ReadExecution(a));
      && a in s'.actors && s'.actors[a].target == s.actors[a].target && s'.rows == s.rows
      && s'.actors[a].pc in {GaveUp, Claiming(Read(s.rows[s.actors[a].target]))}
  {}

  lemma WinnerRunsOnReading(s: System, a: nat, run: nat)
    requires CanClaim(s, a) && run !in s.runs
    ensures var s' := Apply(s, Claim(a, run));
      && Live(s', run) && s'.runs[run].target == s.actors[a].target && s'.runs[run].input == s.actors[a].pc.read.data
      && s.actors[a].target in s'.rows
      && s'.rows[s.actors[a].target] == Claimed(s.rows[s.actors[a].target], s.actors[a].pc.read)
  {}
}
