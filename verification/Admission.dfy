/** Who waits for capacity and who goes on: in every run of `ExecutionLifecycle`, the concurrency queue holds
    exactly the calls that are throttled, in the order in which they began. */
module Admission {
  import opened Common
  import opened ConcurrencyQueue
  import opened ExecutionLifecycle

  predicate Throttles(s: State, k: nat) { k in s.calls && s.calls[k].phase == Throttled }

  /** The calls of a run in the order in which they began. */
  ghost function Begun(s: State, steps: seq<Step>): seq<nat> {
    if steps == [] then [] else
      var n := |steps| - 1;
      Begun(s, steps[..n])
        + if steps[n].Begin? && steps[n].call !in Run(s, steps[..n]).calls then [steps[n].call] else []
  }

  /** Those of the calls that are throttled, in the same order. */
  ghost function Line(s: State, calls: seq<nat>): seq<Waiter> {
    if calls == [] then [] else
      var n := |calls| - 1;
      Line(s, calls[..n]) + if Throttles(s, calls[n]) then [Waiter(s.calls[calls[n]].id, calls[n])] else []
  }

  ghost predicate AllDifferent(calls: seq<nat>) { forall i, j :: 0 <= i < j < |calls| ==> calls[i] != calls[j] }

  ghost predicate InLine(s: State, begun: seq<nat>) {
    AllDifferent(begun) && (forall k :: k in begun <==> k in s.calls) && s.queue.waiting == Line(s, begun)
  }

  // ---------- one kind of change after another ----------

  /** Nobody joins or leaves the line. */
  ghost predicate SameThrottled(s: State, s': State, k: nat) {
    (Throttles(s, k) <==> Throttles(s', k)) && (Throttles(s, k) ==> s'.calls[k].id == s.calls[k].id)
  }

  lemma {:induction false} LineStays(s: State, s': State, calls: seq<nat>)
    requires forall k :: k in calls ==> SameThrottled(s, s', k)
    ensures Line(s', calls) == Line(s, calls)
  {
    if calls != [] {
      var n := |calls| - 1;
      LineStays(s, s', calls[..n]);
      assert SameThrottled(s, s', calls[n]);
    }
  }

  lemma {:induction false} LineMembers(s: State, calls: seq<nat>, i: nat)
    requires i < |Line(s, calls)|
    ensures Throttles(s, Line(s, calls)[i].call) && Line(s, calls)[i].call in calls
    ensures Line(s, calls)[i].executionId == s.calls[Line(s, calls)[i].call].id
  {
    var n := |calls| - 1;
    if i < |Line(s, calls[..n])| { LineMembers(s, calls[..n], i); }
  }

  lemma {:induction false} ThrottledIsInLine(s: State, calls: seq<nat>, k: nat) returns (i: nat)
    requires k in calls && Throttles(s, k)
    ensures i < |Line(s, calls)| && Line(s, calls)[i].call == k
  {
    var n := |calls| - 1;
    if calls[n] == k { i := |Line(s, calls[..n])|; } else { i := ThrottledIsInLine(s, calls[..n], k); }
  }

  /** One call is not throttled any more: it leaves the line, and the others close up. */
  lemma {:induction false} LineWithout(s: State, s': State, calls: seq<nat>, i: nat)
    requires AllDifferent(calls) && i < |Line(s, calls)| && !Throttles(s', Line(s, calls)[i].call)
    requires forall k :: k in calls && k != Line(s, calls)[i].call ==> SameThrottled(s, s', k)
    ensures Line(s', calls) == Line(s, calls)[..i] + Line(s, calls)[i + 1..]
  {
    var n := |calls| - 1;
    var front := Line(s, calls[..n]);
    if i < |front| {
      LineMembers(s, calls[..n], i);
      LineWithout(s, s', calls[..n], i);
      assert SameThrottled(s, s', calls[n]);
    } else {
      LineStays(s, s', calls[..n]);
      assert Line(s, calls)[..i] == front && Line(s, calls)[i + 1..] == [];
    }
  }

  lemma UnmovedKeepsLine(s: State, s': State, begun: seq<nat>)
    requires InLine(s, begun) && s'.queue.waiting == s.queue.waiting && s'.calls.Keys == s.calls.Keys
    requires forall k :: k in s.calls ==> SameThrottled(s, s', k)
    ensures InLine(s', begun)
  {
    LineStays(s, s', begun);
  }

  ghost predicate OnlyLeaves(s: State, s': State, k: nat) {
    && s'.calls.Keys == s.calls.Keys && !Throttles(s', k)
    && forall j :: j in s.calls && j != k ==> SameThrottled(s, s', j)
  }

  /** Somebody leaves the line at some place. */
  lemma LeavingKeepsLine(s: State, s': State, begun: seq<nat>, i: nat)
    requires InLine(s, begun) && i < |s.queue.waiting|
    requires s'.queue.waiting == s.queue.waiting[..i] + s.queue.waiting[i + 1..]
    requires OnlyLeaves(s, s', s.queue.waiting[i].call)
    ensures InLine(s', begun)
  {
    LineWithout(s, s', begun, i);
  }

  lemma LetNextEffect(s: State)
    requires s.queue.waiting != [] && s.queue.waiting[0].call in s.calls
    ensures LetNextThrough(s).queue.waiting == s.queue.waiting[1..]
    ensures OnlyLeaves(s, LetNextThrough(s), s.queue.waiting[0].call)
  {}

  lemma LetNextKeepsLine(s: State, begun: seq<nat>)
    requires InLine(s, begun)
    ensures InLine(LetNextThrough(s), begun)
  {
    if s.queue.waiting == [] {
      UnmovedKeepsLine(s, LetNextThrough(s), begun);
    } else {
      LineMembers(s, begun, 0);
      LetNextEffect(s);
      assert s.queue.waiting[..0] + s.queue.waiting[1..] == s.queue.waiting[1..];
      LeavingKeepsLine(s, LetNextThrough(s), begun, 0);
    }
  }

  lemma DropKeepsLine(s: State, begun: seq<nat>, i: nat)
    requires InLine(s, begun) && i < |s.queue.waiting|
    ensures InLine(Drop(s, i), begun)
  {
    LineMembers(s, begun, i);
    LeavingKeepsLine(s, Drop(s, i), begun, i);
  }

  lemma ReleaseKeepsLine(s: State, begun: seq<nat>, k: nat)
    requires InLine(s, begun) && k in s.calls
    ensures InLine(Release(s, k), begun)
  {
    var s' := Update(s, k, s.calls[k].(reservation := false));
    UnmovedKeepsLine(s, s', begun);
    LetNextKeepsLine(s', begun);
  }

  lemma BeginEffect(s: State, k: nat, id: string, mode: Mode)
    requires k !in s.calls && s.enabled
    ensures var s' := BeginAdd(s, k, id, mode);
      && s'.calls.Keys == s.calls.Keys + {k} && (forall j :: j in s.calls ==> SameThrottled(s, s', j))
      && s'.queue.waiting == s.queue.waiting + if Throttles(s', k) then [Waiter(s'.calls[k].id, k)] else []
  {}

  lemma LineGrows(s: State, calls: seq<nat>, k: nat)
    ensures Line(s, calls + [k]) == Line(s, calls) + if Throttles(s, k) then [Waiter(s.calls[k].id, k)] else []
  {
    assert (calls + [k])[..|calls|] == calls;
  }

  lemma BeginKeepsLine(s: State, begun: seq<nat>, k: nat, id: string, mode: Mode)
    requires InLine(s, begun) && k !in s.calls && s.enabled
    ensures InLine(BeginAdd(s, k, id, mode), begun + [k])
  {
    var s' := BeginAdd(s, k, id, mode);
    BeginEffect(s, k, id, mode);
    LineStays(s, s', begun);
    LineGrows(s', begun, k);
    assert forall j :: j in begun + [k] <==> j in begun || j == k;
  }

  lemma FailKeepsLine(s: State, begun: seq<nat>, k: nat)
    requires InLine(s, begun) && k in s.calls && s.calls[k].phase == Reserved
    ensures InLine(FailAdd(s, k), begun)
  {
    var s' := Update(s, k, s.calls[k].(phase := Failed));
    UnmovedKeepsLine(s, s', begun);
    ReleaseKeepsLine(s', begun, k);
  }

  lemma CallbackKeepsLine(s: State, begun: seq<nat>, k: nat)
    requires InLine(s, begun) && CallbackDue(s, k)
    ensures InLine(RunCallback(s, k), begun)
  {
    var s' := Update(s, k, s.calls[k].(callbackRan := true));
    UnmovedKeepsLine(s, s', begun);
    ReleaseKeepsLine(s', begun, k);
    UnmovedKeepsLine(Release(s', k), RunCallback(s, k), begun);
  }

  lemma ApplyKeepsLine(s: State, begun: seq<nat>, step: Step)
    requires InLine(s, begun) && s.enabled
    ensures InLine(Apply(s, step), if step.Begin? && step.call !in s.calls then begun + [step.call] else begun)
  {
    match step
    case Begin(k, id, mode) => if k !in s.calls { BeginKeepsLine(s, begun, k, id, mode); }
    case Fail(k) => if k in s.calls && s.calls[k].phase == Reserved { FailKeepsLine(s, begun, k); }
    case Callback(k) => if CallbackDue(s, k) { CallbackKeepsLine(s, begun, k); }
    case RemoveQueued(id) =>
      var i := IndexOf(s.queue.waiting, id);
      if i < |s.queue.waiting| {
        DropKeepsLine(s, begun, i);
        LetNextKeepsLine(Drop(s, i), begun);
      }
    case _ => UnmovedKeepsLine(s, Apply(s, step), begun);
  }

  // ---------- over all runs ----------

  /** In every run the queue holds exactly the throttled calls, each with its execution, in the order in which
      they began. */
  lemma {:induction false} QueueIsTheLine(limit: nat, steps: seq<Step>)
    ensures InLine(Run(Init(limit), steps), Begun(Init(limit), steps))
  {
    if steps != [] {
      var n := |steps| - 1;
      var before, begun := Run(Init(limit), steps[..n]), Begun(Init(limit), steps[..n]);
      QueueIsTheLine(limit, steps[..n]);
      assert before.enabled by { CapacityIsConserved(limit, steps[..n]); }
      ApplyKeepsLine(before, begun, steps[n]);
      assert begun + [] == begun;
    }
  }

  /** So a call is throttled exactly if it stands in the queue; and without removals nobody is throttled while
      a slot is free, which makes `add` go on at once if there is one. */
  lemma ThrottledIffQueued(limit: nat, steps: seq<Step>, k: nat)
    ensures var s := Run(Init(limit), steps);
      Throttles(s, k) <==> exists i :: 0 <= i < |s.queue.waiting| && s.queue.waiting[i].call == k
    ensures var s := Run(Init(limit), steps);
      Throttles(s, k) && (forall i :: 0 <= i < |steps| ==> !steps[i].RemoveQueued?) ==> |Holders(s)| == limit
  {
    QueueIsTheLine(limit, steps);
    CapacityIsConserved(limit, steps);
    var s, begun := Run(Init(limit), steps), Begun(Init(limit), steps);
    if Throttles(s, k) { var i := ThrottledIsInLine(s, begun, k); }
    forall i | 0 <= i < |s.queue.waiting| ensures Throttles(s, s.queue.waiting[i].call) { LineMembers(s, begun, i); }
  }

  ghost predicate Before(calls: seq<nat>, a: nat, b: nat) {
    exists i, j :: 0 <= i < j < |calls| && calls[i] == a && calls[j] == b
  }

  lemma {:induction false} LineIsOrdered(s: State, calls: seq<nat>, i: nat, j: nat)
    requires i < j < |Line(s, calls)|
    ensures Before(calls, Line(s, calls)[i].call, Line(s, calls)[j].call)
  {
    var n := |calls| - 1;
    LineMembers(s, calls, i);
    if j < |Line(s, calls[..n])| {
      LineIsOrdered(s, calls[..n], i, j);
      var a, b :| 0 <= a < b < n && calls[..n][a] == Line(s, calls)[i].call && calls[..n][b] == Line(s, calls)[j].call;
      assert calls[a] == calls[..n][a] && calls[b] == calls[..n][b];
    } else {
      LineMembers(s, calls[..n], i);
      var a :| 0 <= a < n && calls[..n][a] == Line(s, calls)[i].call;
      assert calls[a] == calls[..n][a] && calls[n] == Line(s, calls)[j].call;
    }
  }

  /** First come, first served: whoever is let through by a slot given back has begun before all others that
      wait, and these go on waiting. */
  lemma FirstComeFirstServed(limit: nat, steps: seq<Step>, step: Step, k: nat, other: nat)
    requires var s := Run(Init(limit), steps);
      Throttles(s, k) && !Throttles(Apply(s, step), k) && Throttles(s, other) && other != k && !step.RemoveQueued?
    ensures var s' := Apply(Run(Init(limit), steps), step);
      k in s'.calls && s'.calls[k].phase == Reserved && s'.calls[k].reservation && Throttles(s', other)
    ensures Before(Begun(Init(limit), steps), k, other)
  {
    var s, begun := Run(Init(limit), steps), Begun(Init(limit), steps);
    QueueIsTheLine(limit, steps);
    OnlyTheFirstLeaves(s, begun, step, k);
    OnlyTheFirstLeavesOther(s, begun, step, k, other);
    FirstHasBegunBefore(s, begun, other);
  }

  lemma FirstHasBegunBefore(s: State, begun: seq<nat>, other: nat)
    requires InLine(s, begun) && Throttles(s, other) && s.queue.waiting != [] && s.queue.waiting[0].call != other
    ensures Before(begun, s.queue.waiting[0].call, other)
  {
    var j := ThrottledIsInLine(s, begun, other);
    LineIsOrdered(s, begun, 0, j);
  }

  /** Whoever stops being throttled without a removal stood first and holds a slot. */
  lemma OnlyTheFirstLeaves(s: State, begun: seq<nat>, step: Step, k: nat)
    requires InLine(s, begun) && Throttles(s, k) && !Throttles(Apply(s, step), k) && !step.RemoveQueued?
    ensures s.queue.waiting != [] && s.queue.waiting[0].call == k
    ensures var s' := Apply(s, step); k in s'.calls && s'.calls[k].phase == Reserved && s'.calls[k].reservation
  {
    match step
    case Fail(j) =>
      if j in s.calls && s.calls[j].phase == Reserved {
        ReleaseFreesTheFirst(Update(s, j, s.calls[j].(phase := Failed)), j, k);
      }
    case Callback(j) =>
      if CallbackDue(s, j) { ReleaseFreesTheFirst(Update(s, j, s.calls[j].(callbackRan := true)), j, k); }
    case _ =>
  }

  lemma ReleaseFreesTheFirst(s: State, j: nat, k: nat)
    requires j in s.calls && Throttles(s, k)
    ensures k in Release(s, j).calls
    ensures Throttles(Release(s, j), k) || (s.queue.waiting != [] && s.queue.waiting[0].call == k
      && Release(s, j).calls[k].phase == Reserved && Release(s, j).calls[k].reservation)
  {}

  lemma OnlyTheFirstLeavesOther(s: State, begun: seq<nat>, step: Step, k: nat, other: nat)
    requires InLine(s, begun) && Throttles(s, other) && !step.RemoveQueued?
    requires s.queue.waiting != [] && s.queue.waiting[0].call == k != other
    ensures Throttles(Apply(s, step), other)
  {}

  // ---------- removal ----------

  predicate IsDropped(s: State, k: nat) { k in s.calls && s.calls[k].phase == Dropped }

  lemma LetNextKeepsDropped(s: State, begun: seq<nat>, k: nat)
    requires InLine(s, begun) && IsDropped(s, k)
    ensures IsDropped(LetNextThrough(s), k)
  {
    if s.queue.waiting != [] { LineMembers(s, begun, 0); }
  }

  lemma ReleaseKeepsDropped(s: State, begun: seq<nat>, j: nat, k: nat)
    requires InLine(s, begun) && IsDropped(s, k) && j in s.calls
    ensures IsDropped(Release(s, j), k)
  {
    var s' := Update(s, j, s.calls[j].(reservation := false));
    UnmovedKeepsLine(s, s', begun);
    LetNextKeepsDropped(s', begun, k);
  }

  lemma StepKeepsDropped(s: State, begun: seq<nat>, step: Step, k: nat)
    requires InLine(s, begun) && IsDropped(s, k)
    ensures IsDropped(Apply(s, step), k)
  {
    match step
    case Fail(j) =>
      if j in s.calls && s.calls[j].phase == Reserved {
        UnmovedKeepsLine(s, Update(s, j, s.calls[j].(phase := Failed)), begun);
        ReleaseKeepsDropped(Update(s, j, s.calls[j].(phase := Failed)), begun, j, k);
      }
    case Callback(j) =>
      if CallbackDue(s, j) {
        UnmovedKeepsLine(s, Update(s, j, s.calls[j].(callbackRan := true)), begun);
        ReleaseKeepsDropped(Update(s, j, s.calls[j].(callbackRan := true)), begun, j, k);
      }
    case RemoveQueued(id) =>
      var i := IndexOf(s.queue.waiting, id);
      if i < |s.queue.waiting| {
        DropKeepsLine(s, begun, i);
        LetNextKeepsDropped(Drop(s, i), begun, k);
      }
    case _ =>
  }

  /** A call that has been removed from the queue never goes on. */
  lemma {:induction false} DroppedNeverGoesOn(limit: nat, steps: seq<Step>, later: seq<Step>, k: nat)
    requires IsDropped(Run(Init(limit), steps), k)
    ensures IsDropped(Run(Init(limit), steps + later), k)
  {
    if later == [] {
      assert steps + later == steps;
    } else {
      var n := |later| - 1;
      var before := steps + later[..n];
      assert (steps + later)[..|steps + later| - 1] == before && (steps + later)[|steps + later| - 1] == later[n];
      DroppedNeverGoesOn(limit, steps, later[..n], k);
      QueueIsTheLine(limit, before);
      StepKeepsDropped(Run(Init(limit), before), Begun(Init(limit), before), later[n], k);
    }
  }
}
