/** Runs that show what can happen to a resumed parent when accesses interleave, each for arbitrary data. */
module ResumeScenarios {
  import opened Common
  import opened ParentResults
  import opened ResumeProtocol
  import opened ParentResume
  import Lifecycle = ExecutionLifecycle

  /** What is read of a row in its first wait before any child has written. */
  function FirstReading(data: ParentData): Reading { Reading(data, Lineage(data, []), 1, 1, 0) }

  /** A child that ends before its parent has started to wait finds nothing to patch; if the parent starts
      to wait before that child's claim, it is resumed at once on its original input. */
  lemma EarlyChildResumesOnOriginalInput(original: ParentData, child: ChildRun) returns (steps: seq<Step>)
    requires original.stack != []
    ensures steps == [Create("p", original, 0), ChildEnds(1, "p", child), ReadParent(1), Pause(0, original),
                      ReadExecution(1), Claim(1, 2)]
    ensures var s := Run(Init(), steps); Live(s, 2) && s.runs[2].input == original
  {
    var s;
    steps, s := EarlyChildReadsWaitingParent(original, child);
    steps, s := Extend(steps, s, Claim(1, 2));
  }

  lemma EarlyChildReadsWaitingParent(original: ParentData, child: ChildRun) returns (steps: seq<Step>, s: System)
    requires original.stack != []
    ensures steps == [Create("p", original, 0), ChildEnds(1, "p", child), ReadParent(1), Pause(0, original),
                      ReadExecution(1)]
    ensures s == Run(Init(), steps) && 2 !in s.runs && IsWaiting(s, "p")
    ensures s.actors == map[1 := Actor("p", Lifecycle.Waiting, Some(child), Claiming(FirstReading(original)), 0)]
  {
    steps, s := EarlyParentWaits(original, child);
    steps, s := Extend(steps, s, ReadExecution(1));
  }

  lemma PauseWaits(s: System, run: nat, data: ParentData)
    requires Live(s, run) && s.rows[s.runs[run].target].status != Lifecycle.Canceled && data.stack != []
    ensures var s', id := Apply(s, Pause(run, data)), s.runs[run].target;
      && s'.rows == s.rows[id := Paused(s.rows[id], data)] && s'.actors == s.actors
      && s'.runs == s.runs[run := s.runs[run].(live := false)]
  {}

  lemma EarlyParentWaits(original: ParentData, child: ChildRun) returns (steps: seq<Step>, s: System)
    requires original.stack != []
    ensures steps == [Create("p", original, 0), ChildEnds(1, "p", child), ReadParent(1), Pause(0, original)]
    ensures s == Run(Init(), steps)
    ensures s == System(map["p" := Paused(NewRow(original), original)],
                        map[1 := Actor("p", Lifecycle.Waiting, Some(child), Starting, 0)],
                        map[0 := EngineRun("p", original, None, false)])
  {
    steps, s := ChildEndedBeforeWait(original, child);
    PauseWaits(s, 0, original);
    steps, s := Extend(steps, s, Pause(0, original));
  }

  lemma ChildEndedBeforeWait(original: ParentData, child: ChildRun) returns (steps: seq<Step>, s: System)
    requires original.stack != []
    ensures steps == [Create("p", original, 0), ChildEnds(1, "p", child), ReadParent(1)] && s == Run(Init(), steps)
    ensures s == System(map["p" := NewRow(original)],
                        map[1 := Actor("p", Lifecycle.Waiting, Some(child), Starting, 0)],
                        map[0 := EngineRun("p", original, None, true)])
  {
    steps, s := [], Init();
    steps, s := Extend(steps, s, Create("p", original, 0));
    steps, s := Extend(steps, s, ChildEnds(1, "p", child));
    steps, s := Extend(steps, s, ReadParent(1));
  }

  /** Reads and writes of siblings are not serialised: a successful child that read before a failing one
      wrote erases the recorded error, which folding them one after the other would have kept. */
  lemma ConcurrentSiblingErasesError(original: ParentData, failing: ChildRun, succeeding: ChildRun)
      returns (steps: seq<Step>)
    requires original.stack != [] && original.stack[0].metadata.resumeError == None
    requires failing.error.Some? && Succeeds(succeeding)
    ensures WriteParent(1) in steps && WriteParent(2) in steps
    ensures var s := Run(Init(), steps);
      && IsWaiting(s, "p") && s.rows["p"].data == Patched(original, succeeding)
      && s.rows["p"].data.stack[0].metadata.resumeError == None
    ensures var folded := Folded(original, [failing, succeeding]);
      folded.stack != [] && folded.stack[0].metadata.resumeError == failing.error
  {
    var s;
    steps, s := FirstChildWrote(original, failing, succeeding);
    steps, s := Extend(steps, s, WriteParent(2));
    assert steps[6] == WriteParent(1) && steps[7] == WriteParent(2);
    FoldedPair(original, failing, succeeding);
  }

  lemma FirstChildWrote(original: ParentData, first: ChildRun, second: ChildRun) returns (steps: seq<Step>, s: System)
    requires original.stack != [] && Reports(first) && Reports(second)
    ensures |steps| == 7 && steps[6] == WriteParent(1) && s == Run(Init(), steps) && IsWaiting(s, "p") && 2 in s.actors
    ensures s.actors[2] == Actor("p", Lifecycle.Waiting, Some(second), Writing(FirstReading(original)), 1)
  {
    steps, s := TwoChildrenReadWaitingParent(original, first, second);
    steps, s := Extend(steps, s, WriteParent(1));
  }

  lemma FoldedPair(p: ParentData, first: ChildRun, second: ChildRun)
    ensures Folded(p, [first, second]) == Patched(Patched(p, first), second)
  {
    assert [first, second][..1] == [first] && [first][..0] == [];
    assert Folded(p, [first]) == Patched(p, first);
  }

  lemma TwoChildrenReadWaitingParent(original: ParentData, first: ChildRun, second: ChildRun)
      returns (steps: seq<Step>, s: System)
    requires original.stack != [] && Reports(first) && Reports(second)
    ensures |steps| == 6 && s == Run(Init(), steps) && IsWaiting(s, "p")
    ensures var reading := Writing(FirstReading(original));
      s.actors == map[1 := Actor("p", Lifecycle.Waiting, Some(first), reading, 1),
                      2 := Actor("p", Lifecycle.Waiting, Some(second), reading, 1)]
  {
    steps, s := FirstChildRead(original, first, second);
    steps, s := Extend(steps, s, ReadParent(2));
  }

  lemma FirstChildRead(original: ParentData, first: ChildRun, second: ChildRun) returns (steps: seq<Step>, s: System)
    requires original.stack != [] && Reports(first)
    ensures |steps| == 5 && s == Run(Init(), steps) && s.rows == map["p" := Paused(NewRow(original), original)]
    ensures s.actors ==
      map[1 := Actor("p", Lifecycle.Waiting, Some(first), Writing(FirstReading(original)), 1),
          2 := Actor("p", Lifecycle.Waiting, Some(second), Updating, 1)]
  {
    steps, s := TwoChildrenEnded(original, first, second);
    steps, s := Extend(steps, s, ReadParent(1));
  }

  lemma TwoChildrenEnded(original: ParentData, first: ChildRun, second: ChildRun)
      returns (steps: seq<Step>, s: System)
    requires original.stack != []
    ensures |steps| == 4 && s == Run(Init(), steps)
    ensures s.rows == map["p" := Paused(NewRow(original), original)]
    ensures s.actors == map[1 := Actor("p", Lifecycle.Waiting, Some(first), Updating, 1),
                            2 := Actor("p", Lifecycle.Waiting, Some(second), Updating, 1)]
  {
    steps, s := WaitingParent(original);
    steps, s := Extend(steps, s, ChildEnds(1, "p", first));
    steps, s := Extend(steps, s, ChildEnds(2, "p", second));
  }

  lemma WaitingParent(original: ParentData) returns (steps: seq<Step>, s: System)
    requires original.stack != []
    ensures steps == [Create("p", original, 0), Pause(0, original)] && s == Run(Init(), steps)
    ensures s == System(map["p" := Paused(NewRow(original), original)], map[],
                        map[0 := EngineRun("p", original, None, false)])
  {
    steps, s := Created(original);
    PauseWaits(s, 0, original);
    steps, s := Extend(steps, s, Pause(0, original));
    assert s.runs == map[0 := EngineRun("p", original, None, false)];
  }

  lemma Created(original: ParentData) returns (steps: seq<Step>, s: System)
    requires original.stack != []
    ensures steps == [Create("p", original, 0)] && s == Run(Init(), steps)
    ensures s == System(map["p" := NewRow(original)], map[], map[0 := EngineRun("p", original, None, true)])
  {
    steps, s := Extend([], Init(), Create("p", original, 0));
  }

  /** A claimant that has read the execution in one wait and is held up, for capacity say, can win in the next
      wait: the execution goes back to where it was, and what the second wait wrote is overwritten. */
  lemma StaleClaimGoesBack(first: ParentData, second: ParentData) returns (steps: seq<Step>)
    requires first.stack != [] && second.stack != []
    ensures steps == [Create("p", first, 0), Pause(0, first), Attempt(1, "p", Lifecycle.Waiting), ReadExecution(1),
                      Attempt(2, "p", Lifecycle.Waiting), ReadExecution(2), Claim(2, 8), Pause(8, second), Claim(1, 9)]
    ensures var s := Run(Init(), steps);
      && Live(s, 9) && s.runs[9].input == first
      && "p" in s.rows && s.rows["p"].history.paused == second && s.rows["p"].data == first
  {
    var s;
    steps, s := SecondWait(first, second);
    WinnerRunsOnReading(s, 1, 9);
    steps, s := Extend(steps, s, Claim(1, 9));
  }

  lemma SecondWait(first: ParentData, second: ParentData) returns (steps: seq<Step>, s: System)
    requires first.stack != [] && second.stack != []
    ensures steps == [Create("p", first, 0), Pause(0, first), Attempt(1, "p", Lifecycle.Waiting), ReadExecution(1),
                      Attempt(2, "p", Lifecycle.Waiting), ReadExecution(2), Claim(2, 8), Pause(8, second)]
    ensures s == Run(Init(), steps) && s.runs.Keys == {0, 8} && CanClaim(s, 1)
    ensures s.actors[1].target == "p" && s.actors[1].pc.read.data == first && s.rows["p"].history.paused == second
  {
    steps, s := OtherClaimantWon(first);
    steps, s := Extend(steps, s, Pause(8, second));
  }

  lemma OtherClaimantWon(first: ParentData) returns (steps: seq<Step>, s: System)
    requires first.stack != []
    ensures steps == [Create("p", first, 0), Pause(0, first), Attempt(1, "p", Lifecycle.Waiting), ReadExecution(1),
                      Attempt(2, "p", Lifecycle.Waiting), ReadExecution(2), Claim(2, 8)]
    ensures s == Run(Init(), steps) && s.runs.Keys == {0, 8} && Live(s, 8) && s.runs[8].target == "p"
    ensures s.rows["p"].status == Lifecycle.Running && 1 in s.actors
    ensures s.actors[1] == Actor("p", Lifecycle.Waiting, None, Claiming(FirstReading(first)), 1)
  {
    steps, s := TwoClaimants(first);
    WinnerRunsOnReading(s, 2, 8);
    LeftAlone(s, Claim(2, 8), 1);
    steps, s := Extend(steps, s, Claim(2, 8));
  }

  lemma TwoClaimants(first: ParentData) returns (steps: seq<Step>, s: System)
    requires first.stack != []
    ensures steps == [Create("p", first, 0), Pause(0, first), Attempt(1, "p", Lifecycle.Waiting), ReadExecution(1),
                      Attempt(2, "p", Lifecycle.Waiting), ReadExecution(2)]
    ensures s == Run(Init(), steps) && s.runs.Keys == {0}
    ensures s.rows == map["p" := Paused(NewRow(first), first)]
    ensures var actor := Actor("p", Lifecycle.Waiting, None, Claiming(FirstReading(first)), 1);
      s.actors == map[1 := actor, 2 := actor]
  {
    steps, s := WaitingParent(first);
    steps, s := ClaimantReads(first, steps, s, 1);
    steps, s := ClaimantReads(first, steps, s, 2);
  }

  lemma ClaimantReads(first: ParentData, steps: seq<Step>, s: System, a: nat) returns (steps': seq<Step>, s': System)
    requires first.stack != [] && s == Run(Init(), steps) && a !in s.actors
    requires s.rows == map["p" := Paused(NewRow(first), first)]
    ensures steps' == steps + [Attempt(a, "p", Lifecycle.Waiting), ReadExecution(a)] && s' == Run(Init(), steps')
    ensures s' == s.(actors := s.actors[a := Actor("p", Lifecycle.Waiting, None, Claiming(FirstReading(first)), 1)])
  {
    steps', s' := Extend(steps, s, Attempt(a, "p", Lifecycle.Waiting));
    steps', s' := Extend(steps', s', ReadExecution(a));
  }

  /** A child that has read the parent in one wait and writes in the next puts the first wait's stack back. */
  lemma LeftOverWriteGoesBack(first: ParentData, second: ParentData, child: ChildRun) returns (steps: seq<Step>)
    requires first.stack != [] && second.stack != [] && Succeeds(child)
    ensures steps == [Create("p", first, 0), Pause(0, first), ChildEnds(1, "p", child), ReadParent(1),
                      Attempt(2, "p", Lifecycle.Waiting), ReadExecution(2), Claim(2, 8), Pause(8, second),
                      WriteParent(1)]
    ensures var s := Run(Init(), steps);
      IsWaiting(s, "p") && s.rows["p"].history.paused == second && s.rows["p"].data == Patched(first, child)
  {
    var s;
    steps, s := ChildReadAndClaimed(first, child);
    steps, s := Extend(steps, s, Pause(8, second));
    steps, s := Extend(steps, s, WriteParent(1));
  }

  lemma ChildReadAndClaimed(first: ParentData, child: ChildRun) returns (steps: seq<Step>, s: System)
    requires first.stack != [] && Succeeds(child)
    ensures steps == [Create("p", first, 0), Pause(0, first), ChildEnds(1, "p", child), ReadParent(1),
                      Attempt(2, "p", Lifecycle.Waiting), ReadExecution(2), Claim(2, 8)]
    ensures s == Run(Init(), steps) && Live(s, 8) && s.runs[8].target == "p"
    ensures s.rows["p"].status == Lifecycle.Running && 1 in s.actors
    ensures s.actors[1] == Actor("p", Lifecycle.Waiting, Some(child), Writing(FirstReading(first)), 1)
  {
    steps, s := ChildReadWaitingParent(first, child);
    steps, s := ClaimantReads(first, steps, s, 2);
    WinnerRunsOnReading(s, 2, 8);
    LeftAlone(s, Claim(2, 8), 1);
    steps, s := Extend(steps, s, Claim(2, 8));
  }

  lemma ChildReadWaitingParent(first: ParentData, child: ChildRun) returns (steps: seq<Step>, s: System)
    requires first.stack != [] && Succeeds(child)
    ensures steps == [Create("p", first, 0), Pause(0, first), ChildEnds(1, "p", child), ReadParent(1)]
    ensures s == Run(Init(), steps) && s.runs.Keys == {0}
    ensures s.rows == map["p" := Paused(NewRow(first), first)]
    ensures s.actors == map[1 := Actor("p", Lifecycle.Waiting, Some(child), Writing(FirstReading(first)), 1)]
  {
    steps, s := WaitingParent(first);
    steps, s := Extend(steps, s, ChildEnds(1, "p", child));
    steps, s := Extend(steps, s, ReadParent(1));
  }
}
