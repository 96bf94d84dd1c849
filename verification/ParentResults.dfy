/** `updateParentExecutionWithChildResults`: what a finished child execution writes into the stored data
    of its waiting parent, and what any number of children write one after the other. */
module ParentResults {
  import opened Common

  type Data = string
  type Error = string

  /** Summary of private-credential use; the user is only reported together with `used`. */
  datatype Usage = Usage(used: bool, attempted: bool, user: Option<string>)

  const NO_USAGE := Usage(false, false, None)

  /** What a child run reports. `output` is the data of its last executed node, if it has any. */
  datatype ChildRun = ChildRun(error: Option<Error>, output: Option<Data>, usage: Usage, execution: Option<string>)

  datatype Metadata = Metadata(usage: Usage, resumeError: Option<Error>, subExecution: Option<string>)

  datatype StackEntry = StackEntry(node: string, data: Data, metadata: Metadata)

  datatype Task = Task(used: bool, attempted: bool)

  /** `executedBy` is None when the execution has no runtime data to stamp. */
  datatype ParentData = ParentData(
    stack: seq<StackEntry>,
    runData: map<string, seq<Task>>,
    executedBy: Option<Option<string>>)

  // ---------- one child ----------

  /** A child with neither an error nor output data leaves the parent alone. */
  predicate Reports(child: ChildRun) { child.error.Some? || child.output.Some? }

  predicate UsesCredentials(child: ChildRun) { child.usage.used || child.usage.attempted }

  /** Object spread of the child's summary over the earlier one: flags accumulate, a new user wins. */
  function MergeUsage(before: Usage, child: Usage): Usage {
    Usage(before.used || child.used, before.attempted || child.attempted,
          if child.used && child.user.Some? then child.user else before.user)
  }

  function PatchedEntry(e: StackEntry, child: ChildRun): StackEntry {
    StackEntry(
      e.node,
      if child.error.None? && child.output.Some? then child.output.value else e.data,
      Metadata(MergeUsage(e.metadata.usage, child.usage),
               if child.error.Some? then child.error else e.metadata.resumeError,
               if child.error.Some? && child.execution.Some? then child.execution else e.metadata.subExecution))
  }

  /** The last task of a node gets the child's flags. */
  function StampedTasks(tasks: seq<Task>, usage: Usage): seq<Task> {
    if tasks == [] then [] else
      var last := tasks[|tasks| - 1];
      tasks[|tasks| - 1 := Task(last.used || usage.used, last.attempted || usage.attempted)]
  }

  function Patched(p: ParentData, child: ChildRun): ParentData {
    if !Reports(child) || p.stack == [] then p else
      var node := p.stack[0].node;
      ParentData(
        p.stack[0 := PatchedEntry(p.stack[0], child)],
        if UsesCredentials(child) && node in p.runData
          then p.runData[node := StampedTasks(p.runData[node], child.usage)] else p.runData,
        if child.usage.used && child.usage.user.Some? && p.executedBy.Some?
          then Some(child.usage.user) else p.executedBy)
  }

  /** The function of the source between its read and its write: `write` is what it stores, if anything. */
  method UpdateParentExecutionWithChildResults(parent: Option<ParentData>, isWaiting: bool, child: ChildRun)
      returns (write: Option<ParentData>)
    requires child.usage.user.Some? ==> child.usage.used
    ensures write.Some? <==> Reports(child) && parent.Some? && isWaiting && parent.value.stack != []
    ensures write.Some? ==> write.value == Patched(parent.value, child)
  {
    if child.error.None? && child.output.None? { return None; }
    if parent.None? || !isWaiting { return None; }
    var stack, runData, executedBy := parent.value.stack, parent.value.runData, parent.value.executedBy;
    if |stack| == 0 { return None; }
    var first := stack[0];
    if child.usage != NO_USAGE {
      first := first.(metadata := first.metadata.(usage := MergeUsage(first.metadata.usage, child.usage)));
      if first.node in runData && |runData[first.node]| > 0 {
        var tasks := runData[first.node];
        var waitingTask := tasks[|tasks| - 1];
        if child.usage.used { waitingTask := waitingTask.(used := true); }
        if child.usage.attempted { waitingTask := waitingTask.(attempted := true); }
        runData := runData[first.node := tasks[|tasks| - 1 := waitingTask]];
      }
      if child.usage.used && child.usage.user.Some? && executedBy.Some? {
        executedBy := Some(child.usage.user);
      }
    }
    if child.error.Some? {
      first := first.(metadata := first.metadata.(resumeError := child.error));
      if child.execution.Some? { first := first.(metadata := first.metadata.(subExecution := child.execution)); }
    } else {
      first := first.(data := child.output.value);
    }
    write := Some(ParentData(stack[0 := first], runData, executedBy));
    UntouchedTasks(parent.value, child);
  }

  lemma UntouchedTasks(p: ParentData, child: ChildRun)
    requires p.stack != []
    ensures var node := p.stack[0].node;
      node in p.runData && p.runData[node] == [] ==>
        p.runData[node := StampedTasks(p.runData[node], child.usage)] == p.runData
  {}

  // ---------- any number of children, one after the other ----------

  function Folded(p: ParentData, children: seq<ChildRun>): ParentData {
    if children == [] then p else Patched(Folded(p, children[..|children| - 1]), children[|children| - 1])
  }

  predicate Succeeds(c: ChildRun) { c.error.None? && c.output.Some? }

  // What a child contributes to each field that later children overwrite.

  function OutputOf(c: ChildRun): Option<Data> { if Succeeds(c) then c.output else None }

  function ErrorOf(c: ChildRun): Option<Error> { c.error }

  function SubExecutionOf(c: ChildRun): Option<string> { if c.error.Some? then c.execution else None }

  function UserOf(c: ChildRun): Option<string> { if Reports(c) && c.usage.used then c.usage.user else None }

  /** `result` is what the last contributing child contributed, or `original` if none contributed. */
  ghost predicate IsLast<T>(children: seq<ChildRun>, contribution: ChildRun -> Option<T>,
                            original: Option<T>, result: Option<T>)
  {
    if exists i :: 0 <= i < |children| && contribution(children[i]).Some?
    then exists i :: 0 <= i < |children| && contribution(children[i]).Some? && result == contribution(children[i])
                     && forall j :: i < j < |children| ==> contribution(children[j]).None?
    else result == original
  }

  lemma LastStep<T>(front: seq<ChildRun>, child: ChildRun, contribution: ChildRun -> Option<T>,
                    original: Option<T>, result: Option<T>)
    requires IsLast(front, contribution, original, result)
    ensures IsLast(front + [child], contribution, original,
                   if contribution(child).Some? then contribution(child) else result)
  {
    var children := front + [child];
    assert children[|front|] == child;
    assert forall i :: 0 <= i < |front| ==> children[i] == front[i];
    if contribution(child).None? && exists i :: 0 <= i < |front| && contribution(front[i]).Some? {
      var i :| 0 <= i < |front| && contribution(front[i]).Some? && result == contribution(front[i])
        && forall j :: i < j < |front| ==> contribution(front[j]).None?;
      assert contribution(children[i]).Some? && result == contribution(children[i]);
    }
  }

  ghost predicate SameButFirst(p: ParentData, f: ParentData) {
    p.stack != [] && |f.stack| == |p.stack| && f.stack[1..] == p.stack[1..] && f.stack[0].node == p.stack[0].node
  }

  /** The rest of the stack is untouched; the input of the first entry comes from the last child that
      succeeded, its error from the last one that failed, whatever succeeded after it. */
  lemma FoldedResults(p: ParentData, children: seq<ChildRun>)
    requires p.stack != []
    ensures SameButFirst(p, Folded(p, children))
    ensures IsLast(children, OutputOf, Some(p.stack[0].data), Some(Folded(p, children).stack[0].data))
    ensures var before, after := p.stack[0].metadata, Folded(p, children).stack[0].metadata;
      && IsLast(children, ErrorOf, before.resumeError, after.resumeError)
      && IsLast(children, SubExecutionOf, before.subExecution, after.subExecution)
  {
    FoldedShape(p, children);
    FoldedOutput(p, children);
    FoldedError(p, children);
    FoldedSubExecution(p, children);
  }

  lemma {:induction false} FoldedShape(p: ParentData, children: seq<ChildRun>)
    requires p.stack != []
    ensures SameButFirst(p, Folded(p, children))
  {
    if children != [] { FoldedShape(p, children[..|children| - 1]); }
  }

  lemma {:induction false} FoldedOutput(p: ParentData, children: seq<ChildRun>)
    requires p.stack != []
    ensures Folded(p, children).stack != []
    ensures IsLast(children, OutputOf, Some(p.stack[0].data), Some(Folded(p, children).stack[0].data))
  {
    if children != [] {
      var front, child := children[..|children| - 1], children[|children| - 1];
      FoldedOutput(p, front);
      LastStep(front, child, OutputOf, Some(p.stack[0].data), Some(Folded(p, front).stack[0].data));
      assert front + [child] == children;
    }
  }

  lemma {:induction false} FoldedError(p: ParentData, children: seq<ChildRun>)
    requires p.stack != []
    ensures Folded(p, children).stack != []
    ensures var before, after := p.stack[0].metadata, Folded(p, children).stack[0].metadata;
      IsLast(children, ErrorOf, before.resumeError, after.resumeError)
  {
    if children != [] {
      var front, child := children[..|children| - 1], children[|children| - 1];
      FoldedError(p, front);
      LastStep(front, child, ErrorOf, p.stack[0].metadata.resumeError, Folded(p, front).stack[0].metadata.resumeError);
      assert front + [child] == children;
    }
  }

  lemma {:induction false} FoldedSubExecution(p: ParentData, children: seq<ChildRun>)
    requires p.stack != []
    ensures Folded(p, children).stack != []
    ensures var before, after := p.stack[0].metadata, Folded(p, children).stack[0].metadata;
      IsLast(children, SubExecutionOf, before.subExecution, after.subExecution)
  {
    if children != [] {
      var front, child := children[..|children| - 1], children[|children| - 1];
      FoldedSubExecution(p, front);
      var before, entry := p.stack[0].metadata, Folded(p, front).stack[0].metadata;
      LastStep(front, child, SubExecutionOf, before.subExecution, entry.subExecution);
      assert front + [child] == children;
    }
  }

  lemma {:induction false} FoldedConcat(p: ParentData, a: seq<ChildRun>, b: seq<ChildRun>)
    ensures Folded(p, a + b) == Folded(Folded(p, a), b)
  {
    if b == [] {
      assert a + b == a;
    } else {
      var n := |b| - 1;
      assert (a + b)[..|a + b| - 1] == a + b[..n] && (a + b)[|a + b| - 1] == b[n];
      FoldedConcat(p, a, b[..n]);
    }
  }

  ghost predicate AnyUsed(children: seq<ChildRun>) {
    exists i :: 0 <= i < |children| && Reports(children[i]) && children[i].usage.used
  }

  ghost predicate AnyAttempted(children: seq<ChildRun>) {
    exists i :: 0 <= i < |children| && Reports(children[i]) && children[i].usage.attempted
  }

  function FirstUsage(p: ParentData): Usage
    requires p.stack != []
  {
    p.stack[0].metadata.usage
  }

  /** A flag is set in the result exactly if it was set before or some reporting child has set it; the
      user is that of the last child reporting one, and stamps the runtime data if there is any. */
  lemma FoldedUsage(p: ParentData, children: seq<ChildRun>)
    requires p.stack != []
    ensures var f := Folded(p, children);
      && f.stack != []
      && (FirstUsage(f).used <==> FirstUsage(p).used || AnyUsed(children))
      && (FirstUsage(f).attempted <==> FirstUsage(p).attempted || AnyAttempted(children))
      && IsLast(children, UserOf, FirstUsage(p).user, FirstUsage(f).user)
      && (f.executedBy.Some? <==> p.executedBy.Some?)
      && (p.executedBy.Some? ==> IsLast(children, UserOf, p.executedBy.value, f.executedBy.value))
  {
    FoldedFlags(p, children);
    FoldedUser(p, children);
    FoldedExecutedBy(p, children);
  }

  lemma {:induction false} FoldedFlags(p: ParentData, children: seq<ChildRun>)
    requires p.stack != []
    ensures var f := Folded(p, children);
      && f.stack != []
      && (FirstUsage(f).used <==> FirstUsage(p).used || AnyUsed(children))
      && (FirstUsage(f).attempted <==> FirstUsage(p).attempted || AnyAttempted(children))
  {
    if children != [] {
      var front, child := children[..|children| - 1], children[|children| - 1];
      FoldedFlags(p, front);
      assert children == front + [child];
      AnySnoc(front, child);
    }
  }

  lemma {:induction false} FoldedUser(p: ParentData, children: seq<ChildRun>)
    requires p.stack != []
    ensures Folded(p, children).stack != []
    ensures IsLast(children, UserOf, FirstUsage(p).user, FirstUsage(Folded(p, children)).user)
  {
    if children != [] {
      var front, child := children[..|children| - 1], children[|children| - 1];
      FoldedUser(p, front);
      assert children == front + [child];
      LastStep(front, child, UserOf, FirstUsage(p).user, FirstUsage(Folded(p, front)).user);
    }
  }

  lemma {:induction false} FoldedExecutedBy(p: ParentData, children: seq<ChildRun>)
    requires p.stack != []
    ensures Folded(p, children).executedBy.Some? <==> p.executedBy.Some?
    ensures p.executedBy.Some? ==> IsLast(children, UserOf, p.executedBy.value, Folded(p, children).executedBy.value)
  {
    if children != [] {
      var front, child := children[..|children| - 1], children[|children| - 1];
      FoldedExecutedBy(p, front);
      FoldedShape(p, front);
      assert children == front + [child];
      if p.executedBy.Some? {
        LastStep(front, child, UserOf, p.executedBy.value, Folded(p, front).executedBy.value);
      }
    }
  }

  lemma AnySnoc(front: seq<ChildRun>, child: ChildRun)
    ensures AnyUsed(front + [child]) <==> (AnyUsed(front) || (Reports(child) && child.usage.used))
    ensures AnyAttempted(front + [child]) <==> (AnyAttempted(front) || (Reports(child) && child.usage.attempted))
  {
    var children := front + [child];
    assert children[|front|] == child;
    assert forall i :: 0 <= i < |front| ==> children[i] == front[i];
  }

  /** Only the last task differs, and it has each flag it had or that is newly set. */
  predicate LastTaskStamped(before: seq<Task>, after: seq<Task>, used: bool, attempted: bool) {
    |after| == |before| && (before != [] ==>
      var last := |before| - 1;
      after == before[last := Task(before[last].used || used, before[last].attempted || attempted)])
  }

  /** Of all tasks of all nodes, only the waiting task of the first entry's node changes, and it gets
      exactly the flags the reporting children have set. */
  lemma FoldedTasks(p: ParentData, children: seq<ChildRun>)
    requires p.stack != []
    ensures var f, node := Folded(p, children), p.stack[0].node;
      && f.runData.Keys == p.runData.Keys
      && (forall other :: other in p.runData && other != node ==> f.runData[other] == p.runData[other])
      && (node in p.runData ==>
            LastTaskStamped(p.runData[node], f.runData[node], AnyUsed(children), AnyAttempted(children)))
  {
    FoldedOtherTasks(p, children);
    if p.stack[0].node in p.runData { FoldedWaitingTask(p, children); }
  }

  lemma {:induction false} FoldedOtherTasks(p: ParentData, children: seq<ChildRun>)
    requires p.stack != []
    ensures var f, node := Folded(p, children), p.stack[0].node;
      && f.runData.Keys == p.runData.Keys
      && forall other :: other in p.runData && other != node ==> f.runData[other] == p.runData[other]
  {
    if children != [] {
      FoldedOtherTasks(p, children[..|children| - 1]);
      FoldedShape(p, children[..|children| - 1]);
    }
  }

  lemma {:induction false} FoldedWaitingTask(p: ParentData, children: seq<ChildRun>)
    requires p.stack != [] && p.stack[0].node in p.runData
    ensures var f, node := Folded(p, children), p.stack[0].node;
      && node in f.runData
      && LastTaskStamped(p.runData[node], f.runData[node], AnyUsed(children), AnyAttempted(children))
  {
    if children != [] {
      var front, child := children[..|children| - 1], children[|children| - 1];
      FoldedWaitingTask(p, front);
      FoldedShape(p, front);
      assert children == front + [child];
      AnySnoc(front, child);
    }
  }
}
