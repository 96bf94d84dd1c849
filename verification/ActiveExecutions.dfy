/** The class `ActiveExecutions`, with its concurrency control, as it updates its table in place. Each
    method does one atomic step of the lifecycle: `add` is split where it awaits. */
module ActiveExecutions {
  import opened Common
  import opened ConcurrencyQueue
  import opened ExecutionLifecycle
  import opened ExecutionTable

  class ActiveExecutions {
    const limit: nat
    const isRegularMode: bool
    const concurrencyQueue: ConcurrencyQueue
    var isEnabled: bool
    /** The table proper: which execution object an id leads to. */
    var activeExecutions: map<string, nat>
    /** Every execution object an `add` call has made, by the number of the call. */
    var executions: map<nat, Call>

    function State(): State
      reads this, concurrencyQueue
    {
      ExecutionLifecycle.State(limit, isEnabled, concurrencyQueue.State(), executions, activeExecutions)
    }

    constructor (limit: nat, isRegularMode: bool)
      ensures State() == Init(limit).(enabled := isRegularMode)
      ensures this.isRegularMode == isRegularMode && fresh(concurrencyQueue)
    {
      this.limit, this.isRegularMode, isEnabled := limit, isRegularMode, isRegularMode;
      activeExecutions, executions := map[], map[];
      concurrencyQueue := new ConcurrencyQueue(limit);
    }

    /** First part of `add`: the row exists, capacity is asked for. */
    method ReserveCapacity(call: nat, id: string, mode: Mode)
      requires call !in executions
      modifies this`executions, concurrencyQueue
      ensures State() == Apply(old(State()), Begin(call, id, mode))
    {
      var admitted := true;
      if mode == Limited && isEnabled {
        admitted := concurrencyQueue.Enqueue(Waiter(id, call));
      }
      var phase := if admitted then Reserved else Throttled;
      executions := executions[call := NewCall(id, mode, phase, admitted && mode != Evaluation)];
    }

    /** `reservation.release()` of a call's own reservation. */
    method ReleaseCapacity(call: nat)
      requires call in executions
      modifies this`executions, concurrencyQueue
      ensures State() == Release(old(State()), call)
    {
      if !executions[call].reservation { return; }
      executions := executions[call := executions[call].(reservation := false)];
      if isEnabled && executions[call].mode == Limited {
        var released := concurrencyQueue.Dequeue();
        ResolveWaiter(released);
      }
    }

    method ResolveWaiter(released: Option<Waiter>)
      modifies this`executions
      ensures State() == Admit(old(State()), released)
    {
      if released.Some? && released.value.call in executions {
        executions := executions[released.value.call :=
          executions[released.value.call].(phase := Reserved, reservation := true)];
      }
    }

    /** Last part of `add` when the database refused, or another process claimed the row first. */
    method AddFailed(call: nat)
      requires call in executions && executions[call].phase == Reserved
      modifies this`executions, concurrencyQueue
      ensures State() == Apply(old(State()), Fail(call))
    {
      executions := executions[call := executions[call].(phase := Failed)];
      ReleaseCapacity(call);
    }

    /** Last part of `add` when the row is claimed. */
    method AddSucceeded(call: nat, now: int)
      requires call in executions && executions[call].phase == Reserved
      modifies this`executions, this`activeExecutions
      ensures State() == Apply(old(State()), Register(call, now))
    {
      var execution := executions[call].(phase := Registered, status := Running, settled := Pending);
      execution := execution.(callbackRan := false, startedAt := now, response := None);
      if execution.id in activeExecutions && activeExecutions[execution.id] in executions {
        var resuming := executions[activeExecutions[execution.id]];
        execution := execution.(startedAt := resuming.startedAt, response := resuming.response);
      }
      executions := executions[call := execution];
      activeExecutions := activeExecutions[execution.id := call];
    }

    /** `found` is false where the source throws `ExecutionNotFoundError`. */
    method SetStatus(id: string, status: Status) returns (found: bool)
      modifies this`executions
      ensures found <==> Listed(old(State()), id)
      ensures State() == Apply(old(State()), Step.SetStatus(id, status))
    {
      if id !in activeExecutions || activeExecutions[id] !in executions { return false; }
      executions := executions[activeExecutions[id] := executions[activeExecutions[id]].(status := status)];
      return true;
    }

    method AttachResponsePromise(id: string, promise: nat) returns (found: bool)
      modifies this`executions
      ensures found <==> Listed(old(State()), id)
      ensures State() == Apply(old(State()), AttachResponse(id, promise))
    {
      if id !in activeExecutions || activeExecutions[id] !in executions { return false; }
      executions := executions[activeExecutions[id] := executions[activeExecutions[id]].(response := Some(promise))];
      return true;
    }

    method FinalizeExecution(id: string)
      modifies this`executions
      ensures State() == Apply(old(State()), Finalize(id))
    {
      if id !in activeExecutions || activeExecutions[id] !in executions { return; }
      var call := activeExecutions[id];
      if executions[call].settled == Pending {
        executions := executions[call := executions[call].(settled := Resolved)];
      }
    }

    method StopExecution(id: string)
      modifies this`executions, this`activeExecutions
      ensures State() == Apply(old(State()), Stop(id))
    {
      if id !in activeExecutions || activeExecutions[id] !in executions { return; }
      var call := activeExecutions[id];
      if executions[call].status == Waiting {
        activeExecutions := activeExecutions - {id};
      } else if executions[call].settled == Pending {
        executions := executions[call := executions[call].(settled := Rejected)];
      }
    }

    /** The `finally` of the post-execute promise: it knows its own execution object, but removes by id. */
    method PostExecuteCallback(call: nat)
      requires CallbackDue(State(), call)
      modifies this`executions, this`activeExecutions, concurrencyQueue
      ensures State() == Apply(old(State()), Callback(call))
    {
      var execution := executions[call];
      executions := executions[call := execution.(callbackRan := true)];
      ReleaseCapacity(call);
      if execution.status != Waiting {
        activeExecutions := activeExecutions - {execution.id};
      }
    }

    /** `ConcurrencyControlService.removeAll`: does nothing at all once concurrency control is disabled. */
    method RemoveAll(executionIdsToCancel: seq<string>) returns (canceledRows: seq<string>, ghost steps: seq<Step>)
      modifies this`executions, concurrencyQueue
      ensures !old(isEnabled) ==> canceledRows == [] && steps == []
      ensures old(isEnabled) ==> canceledRows == executionIdsToCancel
      ensures State() == Run(old(State()), steps) && forall i :: 0 <= i < |steps| ==> steps[i].RemoveQueued?
      ensures old(isEnabled) ==> RemovesEach(old(concurrencyQueue.queue), {}, steps)
    {
      steps := [];
      if !isEnabled { return [], []; }
      var enqueued := set w | w in concurrencyQueue.queue :: w.executionId;
      while enqueued != {}
        invariant isEnabled && State() == Run(old(State()), steps)
        invariant forall i :: 0 <= i < |steps| ==> steps[i].RemoveQueued?
        invariant forall id :: id in enqueued ==> exists w :: w in old(concurrencyQueue.queue) && w.executionId == id
        invariant RemovesEach(old(concurrencyQueue.queue), enqueued, steps)
        decreases enqueued
      {
        var id :| id in enqueued;
        ghost var extended, _ := Extend(old(State()), steps, State(), RemoveQueued(id));
        RemoveFromQueue(id);
        RemovesOneMore(old(concurrencyQueue.queue), enqueued, steps, id);
        steps := extended;
        enqueued := enqueued - {id};
      }
      canceledRows := executionIdsToCancel;
    }

    method RemoveFromQueue(id: string)
      requires isEnabled
      modifies this`executions, concurrencyQueue
      ensures State() == Apply(old(State()), RemoveQueued(id))
    {
      var index := IndexOf(concurrencyQueue.queue, id);
      if index < |concurrencyQueue.queue| && concurrencyQueue.queue[index].call in executions {
        var dropped := concurrencyQueue.queue[index].call;
        executions := executions[dropped := executions[dropped].(phase := Dropped)];
      }
      var released := concurrencyQueue.Remove(id);
      ResolveWaiter(released);
    }

    /** The body of the shutdown loop for one id of the snapshot. */
    method VisitEntry(executionId: string, cancel: bool, ghost before: State, ghost pending: set<string>)
      requires TableMatchesCalls(before) && executionId in before.active && executionId in pending
      requires activeExecutions == RemainingEntries(before, cancel, pending)
      requires executions == VisitedExecutions(before, cancel, pending)
      modifies this`executions, this`activeExecutions
      ensures activeExecutions == RemainingEntries(before, cancel, pending - {executionId})
      ensures executions == VisitedExecutions(before, cancel, pending - {executionId})
    {
      OneMoreVisited(before, cancel, pending, executionId);
      OneLessRemaining(before, cancel, pending, executionId);
      assert executions[activeExecutions[executionId]] == before.calls[before.active[executionId]];
      var status := executions[activeExecutions[executionId]].status;
      if cancel {
        StopExecution(executionId);
      } else if status == Waiting || status == New {
        activeExecutions := activeExecutions - {executionId};
      }
    }

    method VisitEntries(cancel: bool) returns (toCancel: seq<string>)
      requires TableMatchesCalls(State())
      modifies this`executions, this`activeExecutions
      ensures activeExecutions == RemainingEntries(old(State()), cancel, {})
      ensures executions == VisitedExecutions(old(State()), cancel, {})
      ensures multiset(toCancel) == if cancel then multiset(old(activeExecutions).Keys) else multiset{}
    {
      ghost var before := State();
      toCancel := [];
      var executionIds := activeExecutions.Keys;
      NothingVisited(before, cancel);
      while executionIds != {}
        invariant executionIds <= before.active.Keys
        invariant activeExecutions == RemainingEntries(before, cancel, executionIds)
        invariant executions == VisitedExecutions(before, cancel, executionIds)
        invariant Collected(toCancel, cancel, before.active.Keys, executionIds)
        decreases executionIds
      {
        var executionId :| executionId in executionIds;
        VisitEntry(executionId, cancel, before, executionIds);
        CollectOne(toCancel, cancel, before.active.Keys, executionIds, executionId);
        if cancel { toCancel := toCancel + [executionId]; }
        executionIds := executionIds - {executionId};
      }
      assert before.active.Keys - {} == before.active.Keys;
    }

    /** `shutdown` up to its wait loop. In regular mode capacity is disabled first; as a consequence the
        ids collected for cancellation are never written to the database. */
    method Shutdown(cancelAll: bool) returns (toCancel: seq<string>, canceledRows: seq<string>)
      requires TableMatchesCalls(State()) && (isEnabled ==> isRegularMode)
      modifies this, concurrencyQueue
      ensures State() == ShutDown(old(State()), isRegularMode, cancelAll)
      ensures isRegularMode && cancelAll ==> forall id :: id in activeExecutions <==>
        id in old(activeExecutions) && old(executions[activeExecutions[id]].status) != Waiting
      ensures !(isRegularMode && cancelAll) ==> executions == old(executions)
      ensures !(isRegularMode && cancelAll) ==> forall id :: id in activeExecutions <==>
        id in old(activeExecutions) && old(executions[activeExecutions[id]].status) !in {Waiting, New}
      ensures multiset(toCancel) ==
        if isRegularMode && cancelAll then multiset(old(activeExecutions).Keys) else multiset{}
      ensures canceledRows == []
    {
      ghost var before := State();
      if isRegularMode { isEnabled := false; }
      toCancel := VisitEntries(isRegularMode && cancelAll);
      ghost var steps;
      canceledRows, steps := RemoveAll(toCancel);
      AllVisited(before.(enabled := isEnabled), before, isRegularMode, cancelAll);
    }
  }

  /** Each execution that waited is removed once, but for the pending ones. */
  ghost predicate RemovesEach(waiting: seq<Waiter>, pending: set<string>, steps: seq<Step>) {
    && (forall w :: w in waiting ==> (w.executionId in pending) != (RemoveQueued(w.executionId) in steps))
    && (forall i, j :: 0 <= i < j < |steps| ==> steps[i] != steps[j])
  }

  lemma RemovesOneMore(waiting: seq<Waiter>, pending: set<string>, steps: seq<Step>, id: string)
    requires RemovesEach(waiting, pending, steps) && id in pending && exists w :: w in waiting && w.executionId == id
    ensures RemovesEach(waiting, pending - {id}, steps + [RemoveQueued(id)])
  {
    var w :| w in waiting && w.executionId == id;
    assert RemoveQueued(w.executionId) !in steps;
    forall v | v in waiting
      ensures (v.executionId in pending - {id}) != (RemoveQueued(v.executionId) in steps + [RemoveQueued(id)]) {}
  }

  /** One entry for each id visited so far. */
  ghost predicate Collected(toCancel: seq<string>, cancel: bool, all: set<string>, pending: set<string>) {
    multiset(toCancel) == if cancel then multiset(all - pending) else multiset{}
  }

  lemma CollectOne(toCancel: seq<string>, cancel: bool, all: set<string>, pending: set<string>, id: string)
    requires Collected(toCancel, cancel, all, pending) && id in pending && id in all
    ensures Collected(if cancel then toCancel + [id] else toCancel, cancel, all, pending - {id})
  {
    assert all - (pending - {id}) == (all - pending) + {id};
  }

  /** What visiting one more entry makes of the executions and of the table. */
  lemma OneMoreVisited(s: State, cancel: bool, pending: set<string>, id: string)
    requires TableMatchesCalls(s) && id in s.active && id in pending
    ensures var k, all := s.active[id], VisitedExecutions(s, cancel, pending);
      && k in all && all[k] == s.calls[k]
      && VisitedExecutions(s, cancel, pending - {id}) ==
           if cancel && s.calls[k].status != Waiting then all[k := Settle(s.calls[k], Rejected)] else all
  {
    forall j | j in s.calls && j != s.active[id]
      ensures VisitedExecutions(s, cancel, pending - {id})[j] == VisitedExecutions(s, cancel, pending)[j] {}
  }

  lemma OneLessRemaining(s: State, cancel: bool, pending: set<string>, id: string)
    requires TableMatchesCalls(s) && id in s.active && id in pending
    ensures var status, rest := s.calls[s.active[id]].status, RemainingEntries(s, cancel, pending);
      RemainingEntries(s, cancel, pending - {id}) ==
        if status == Waiting || (!cancel && status == New) then rest - {id} else rest
  {}

  lemma NothingVisited(s: State, cancel: bool)
    requires TableMatchesCalls(s)
    ensures RemainingEntries(s, cancel, s.active.Keys) == s.active
    ensures VisitedExecutions(s, cancel, s.active.Keys) == s.calls
    ensures Collected([], cancel, s.active.Keys, s.active.Keys)
  {
    assert s.active.Keys - s.active.Keys == {};
  }

  lemma AllVisited(s: State, before: State, regular: bool, cancelAll: bool)
    requires TableMatchesCalls(before) && s == before.(enabled := false) && (before.enabled ==> regular)
    ensures RemainingEntries(s, regular && cancelAll, {}) == ShutDown(before, regular, cancelAll).active
    ensures VisitedExecutions(s, regular && cancelAll, {}) == ShutDown(before, regular, cancelAll).calls
    ensures ShutDown(before, regular, cancelAll).enabled == false
  {}

  /** The table when the ids still in `pending` have not been visited by the shutdown loop. */
  ghost function RemainingEntries(s: State, cancel: bool, pending: set<string>): map<string, nat> {
    map id | id in s.active && (id in pending || !Listed(s, id) || (s.calls[s.active[id]].status != Waiting
      && (cancel || s.calls[s.active[id]].status != New))) :: s.active[id]
  }

  ghost function VisitedExecutions(s: State, cancel: bool, pending: set<string>): map<nat, Call> {
    map k | k in s.calls ::
      if cancel && InTable(s, k) && s.calls[k].id !in pending && s.calls[k].status != Waiting
      then Settle(s.calls[k], Rejected) else s.calls[k]
  }
}
