/** Execution deadlines: the main path (`WorkflowRunner.runMainProcess`), the sub-workflow path
    (`determineWorkflowDeadline`, `resolveSubworkflowDeadline`) and how `startExecution` threads a
    deadline through nested calls. Timeouts are in seconds, instants in milliseconds. */
module Deadlines {

  import opened Common

  /** Settings that decide a time limit; the workflow's own timeout may be missing. */
  datatype Limits = Limits(own: Option<int>, default: int, max: int)

  /** The timeout in force before clamping; not positive means none. */
  function Requested(l: Limits): int { if l.own.Some? then l.own.value else l.default }

  // ---------- sub-workflow path ----------

  function DetermineWorkflowDeadline(startTime: int, l: Limits): Option<int> {
    if l.own.Some? then
      if l.own.value <= 0 then None else Some(startTime + ClampToMax(l.own.value, l.max) * 1000)
    else if l.default > 0 then Some(startTime + ClampToMax(l.default, l.max) * 1000)
    else None
  }

  /** A maximum that is not positive does not clamp. */
  function ClampToMax(timeout: int, max: int): int {
    if max > 0 then Min(timeout, max) else timeout
  }

  function ResolveSubworkflowDeadline(own: Option<int>, parent: Option<int>, doNotWait: bool): Option<int> {
    if doNotWait then own
    else if parent.Some? && own.Some? then Some(Min(parent.value, own.value))
    else if parent.Some? then parent else own
  }

  // ---------- main path ----------

  /** The soft deadline handed to the engine and to nested calls, and the instant at which the hard
      timer stops the execution. The clock is read at `builtAt` for the former and, after some awaits,
      at `armedAt` for the latter; `startedAt` is only known when an execution is resumed. */
  method RunMainProcessTimeouts(l: Limits, startedAt: Option<int>, builtAt: int, armedAt: int)
      returns (executionTimeoutTimestamp: Option<int>, stopsAt: Option<int>)
    ensures executionTimeoutTimestamp == MainDeadline(builtAt, l)
    ensures stopsAt == if EffectiveLimit(l) > 0 then Some(HardStop(l, startedAt, armedAt)) else None
  {
    var workflowTimeout := if l.own.Some? then l.own.value else l.default;
    if workflowTimeout > 0 {
      workflowTimeout := Min(workflowTimeout, l.max);
    }
    executionTimeoutTimestamp := if workflowTimeout <= 0 then None else Some(builtAt + workflowTimeout * 1000);
    stopsAt := None;
    if workflowTimeout > 0 {
      var timeout := Min(workflowTimeout, l.max) * 1000;
      if startedAt.Some? {
        timeout := Max(timeout - (armedAt - startedAt.value), 0);
      }
      stopsAt := if timeout == 0 then Some(armedAt) else Some(armedAt + timeout);
    }
  }

  /** The clamped limit of the main path; not positive means no limit at all. */
  function EffectiveLimit(l: Limits): int {
    if Requested(l) > 0 then Min(Requested(l), l.max) else Requested(l)
  }

  function MainDeadline(now: int, l: Limits): Option<int> {
    if EffectiveLimit(l) > 0 then Some(now + EffectiveLimit(l) * 1000) else None
  }

  /** The two paths give the same deadline exactly when the configured maximum is positive or no
      timeout is requested: a maximum of zero or less removes the limit on the main path but only
      the clamp on the sub-workflow path. */
  lemma PathsAgreeIff(startTime: int, l: Limits)
    ensures MainDeadline(startTime, l) == DetermineWorkflowDeadline(startTime, l) <==> l.max > 0 || Requested(l) <= 0
  {
    if l.max <= 0 && Requested(l) > 0 {
      assert MainDeadline(startTime, l) == None;
    }
  }

  /** A requested timeout counts up to the configured maximum: the deadline is the earlier of the two. */
  lemma DeadlineIsTheEarlierLimit(startTime: int, l: Limits)
    requires l.max > 0
    ensures var deadline := MainDeadline(startTime, l);
      && (deadline.Some? <==> Requested(l) > 0)
      && (deadline.Some? ==>
            && deadline.value in {startTime + Requested(l) * 1000, startTime + l.max * 1000}
            && deadline.value <= startTime + Requested(l) * 1000 && deadline.value <= startTime + l.max * 1000)
  {
    if Requested(l) > 0 { assert EffectiveLimit(l) == if Requested(l) <= l.max then Requested(l) else l.max; }
  }

  // ---------- resumes ----------

  /** The instant at which a hard timer armed at `armedAt` stops the execution. */
  function HardStop(l: Limits, startedAt: Option<int>, armedAt: int): int {
    if startedAt.Some? then Max(armedAt, startedAt.value + EffectiveLimit(l) * 1000)
    else armedAt + EffectiveLimit(l) * 1000
  }

  /** The clock readings of one run: marking the row as running, then as above. */
  datatype Clock = Clock(running: int, builtAt: int, armedAt: int)

  /** A first run and any number of resumes. The row keeps its first start time (`setRunning`), and a
      resume passes it on, so the hard timers of all resumes aim at the same instant. */
  method RunAndResume(l: Limits, runs: seq<Clock>) returns (stops: seq<Option<int>>)
    requires runs != []
    ensures |stops| == |runs|
    ensures forall i :: 0 <= i < |runs| ==> stops[i] == StopOfRun(l, runs, i)
  {
    stops := [];
    var rowStartedAt: Option<int> := None;
    for i := 0 to |runs|
      invariant |stops| == i && rowStartedAt == if i == 0 then None else Some(runs[0].running)
      invariant forall j :: 0 <= j < i ==> stops[j] == StopOfRun(l, runs, j)
    {
      var soft, stop := RunMainProcessTimeouts(l, rowStartedAt, runs[i].builtAt, runs[i].armedAt);
      if rowStartedAt.None? { rowStartedAt := Some(runs[i].running); }
      stops := stops + [stop];
    }
  }

  /** Counted from the arming of the timer in the first run, from the row's start time in all others. */
  function StopOfRun(l: Limits, runs: seq<Clock>, i: nat): Option<int>
    requires i < |runs|
  {
    if EffectiveLimit(l) <= 0 then None
    else if i == 0 then Some(runs[0].armedAt + EffectiveLimit(l) * 1000)
    else Some(Max(runs[i].armedAt, runs[0].running + EffectiveLimit(l) * 1000))
  }

  /** Every run after the first is stopped no later than the first run would have been, unless its timer
      is armed only after that. */
  lemma ResumesStopNoLater(l: Limits, runs: seq<Clock>, i: nat)
    requires EffectiveLimit(l) > 0 && i < |runs| && runs[0].running <= runs[0].armedAt
    ensures StopOfRun(l, runs, i).value <= Max(runs[i].armedAt, StopOfRun(l, runs, 0).value)
  {
    if i == 0 { assert StopOfRun(l, runs, 0).value >= runs[0].armedAt; }
  }

  /** What nested calls are given against what stops their parent. In the first run the soft deadline is
      never later; in a resume, where it starts afresh, it is never earlier exactly if arming the timer
      has not taken longer than the limit itself. */
  lemma SoftAgainstHard(l: Limits, startedAt: Option<int>, builtAt: int, armedAt: int)
    requires EffectiveLimit(l) > 0 && builtAt <= armedAt && (startedAt.Some? ==> startedAt.value <= builtAt)
    ensures MainDeadline(builtAt, l).Some?
    ensures var soft, hard := MainDeadline(builtAt, l).value, HardStop(l, startedAt, armedAt);
      && (startedAt.None? ==> soft <= hard && (soft == hard <==> builtAt == armedAt))
      && (startedAt.Some? ==> (soft >= hard <==> armedAt <= soft))
      && (startedAt.Some? ==> (soft == hard <==> armedAt == soft || (armedAt <= soft && startedAt.value == builtAt)))
  {}

  // ---------- nested calls ----------

  /** One level of nesting: its own deadline and whether its caller goes on without waiting. */
  datatype Call = Call(own: Option<int>, detached: bool)

  /** The deadline the innermost of a stack of calls runs under; level 0 is the main execution. */
  function NestedDeadline(calls: seq<Call>): Option<int>
    requires calls != []
  {
    var last := calls[|calls| - 1];
    if |calls| == 1 then last.own
    else ResolveSubworkflowDeadline(last.own, NestedDeadline(calls[..|calls| - 1]), last.detached)
  }

  /** Level `j` is waited on, directly or through others, by everything below it. */
  ghost predicate Governs(calls: seq<Call>, j: nat) {
    j < |calls| && forall i :: j < i < |calls| ==> !calls[i].detached
  }

  /** `deadline` is the least own deadline among the governing levels; None if none of them has one. */
  ghost predicate IsEarliestGoverning(calls: seq<Call>, deadline: Option<int>) {
    && (deadline.Some? ==> exists j: nat :: Governs(calls, j) && calls[j].own == deadline)
    && (forall j: nat :: Governs(calls, j) && calls[j].own.Some? ==>
          deadline.Some? && deadline.value <= calls[j].own.value)
  }

  /** For any depth: the minimum of the own deadlines back to the nearest detached call, inclusive. */
  lemma {:induction false} NestedDeadlineIsEarliest(calls: seq<Call>)
    requires calls != []
    ensures IsEarliestGoverning(calls, NestedDeadline(calls))
  {
    var n := |calls| - 1;
    assert Governs(calls, n);
    if n > 0 && calls[n].detached {
      forall j: nat | Governs(calls, j) ensures j == n {}
    } else if n > 0 {
      var outer := calls[..n];
      NestedDeadlineIsEarliest(outer);
      forall j: nat ensures Governs(calls, j) <==> j == n || Governs(outer, j) {
        if Governs(outer, j) {
          forall i | j < i < |calls| ensures !calls[i].detached { if i < n { assert outer[i] == calls[i]; } }
        }
        if Governs(calls, j) && j != n {
          forall i | j < i < n ensures !outer[i].detached { assert outer[i] == calls[i]; }
        }
      }
    }
  }

  /** Two readings of the same stack agree, so the property determines the deadline. */
  lemma EarliestGoverningIsUnique(calls: seq<Call>, a: Option<int>, b: Option<int>)
    requires IsEarliestGoverning(calls, a) && IsEarliestGoverning(calls, b)
    ensures a == b
  {}

  /** A call that is waited on never has a later deadline than any level that governs it. */
  lemma {:induction false} WaitedOnNeverOutlives(calls: seq<Call>, j: nat)
    requires Governs(calls, j) && NestedDeadline(calls[..j + 1]).Some?
    ensures NestedDeadline(calls).Some? && NestedDeadline(calls).value <= NestedDeadline(calls[..j + 1]).value
    decreases |calls|
  {
    if j == |calls| - 1 {
      assert calls[..j + 1] == calls;
    } else {
      var outer := calls[..|calls| - 1];
      assert outer[..j + 1] == calls[..j + 1];
      assert Governs(outer, j);
      WaitedOnNeverOutlives(outer, j);
    }
  }
}
