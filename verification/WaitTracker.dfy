/** `WaitTracker`: timers for waiting executions on the leader, and the bounded retries around resuming a
    parent. A timer that fires only starts a claim, so a surplus timer is harmless (see ResumeProtocol);
    a missing one is not, because nothing else resumes an execution that waits for a time. */
module WaitTracker {
  import opened Common

  /** A waiting execution that is due soon, as the poll finds it. */
  datatype Due = Due(id: string, waitTill: int)

  function Ids(due: seq<Due>): set<string> { set d | d in due :: d.id }

  datatype Timer = Timer(id: string, firesAt: int)

  /** A delay that is already over counts as none. */
  predicate OnTime(timer: Timer, due: seq<Due>, now: int) {
    exists d :: d in due && d.id == timer.id && timer.firesAt == Max(now, d.waitTill)
  }

  class WaitTracker {
    /** The tracked ids with the handle of their timer. */
    var waitingExecutions: map<string, nat>
    /** Timers that have been set and neither fired nor been cleared. */
    var armed: map<nat, Timer>
    var nextTimer: nat
    /** Whether polling was ever started; the handle is kept when the interval is cleared. */
    var hasMainTimer: bool
    var polling: bool

    /** Handles are never reused. */
    ghost predicate Valid()
      reads this
    {
      && (forall t :: t in armed ==> t < nextTimer)
      && (forall id :: id in waitingExecutions ==> waitingExecutions[id] < nextTimer)
      && (forall a, b ::
            a in waitingExecutions && b in waitingExecutions && waitingExecutions[a] == waitingExecutions[b] ==> a == b)
      && (forall id :: id in waitingExecutions && waitingExecutions[id] in armed ==>
            armed[waitingExecutions[id]].id == id)
    }

    predicate Tracks(id: string, timer: nat)
      reads this
    {
      id in waitingExecutions && waitingExecutions[id] == timer
    }

    /** The id is tracked by a timer that will fire. */
    predicate Covered(id: string)
      reads this
    {
      id in waitingExecutions && waitingExecutions[id] in armed
    }

    /** Every tracked id has a timer that will fire. Polls, firings, direct starts and stops keep this;
        only `StopTracking` breaks it. */
    ghost predicate AllCovered()
      reads this
    {
      forall id :: id in waitingExecutions ==> Covered(id)
    }

    constructor ()
      ensures Valid() && AllCovered() && waitingExecutions == map[] && armed == map[] && !hasMainTimer && !polling
    {
      waitingExecutions, armed, nextTimer, hasMainTimer, polling := map[], map[], 0, false, false;
    }

    /** One poll, over the waiting executions that are due soon. */
    method GetWaitingExecutions(due: seq<Due>, now: int)
      requires Valid()
      modifies this`waitingExecutions, this`armed, this`nextTimer
      ensures Valid()
      ensures old(AllCovered()) ==> AllCovered() && forall id :: id in Ids(due) ==> Covered(id)
      ensures waitingExecutions.Keys == old(waitingExecutions.Keys) + Ids(due)
      ensures forall id :: Covered(id) <==> old(Covered(id)) || (id in Ids(due) && id !in old(waitingExecutions))
      ensures forall t :: t in old(armed) ==> t in armed && armed[t] == old(armed)[t]
      ensures forall t :: t in armed && t !in old(armed) ==>
        OnTime(armed[t], due, now) && Tracks(armed[t].id, t) && armed[t].id !in old(waitingExecutions)
    {
      for i := 0 to |due|
        invariant Valid()
        invariant waitingExecutions.Keys == old(waitingExecutions.Keys) + Ids(due[..i])
        invariant forall id ::
          Covered(id) <==> old(Covered(id)) || (id in Ids(due[..i]) && id !in old(waitingExecutions))
        invariant forall t :: t in old(armed) ==> t in armed && armed[t] == old(armed)[t]
        invariant forall t :: t in armed && t !in old(armed) ==>
          OnTime(armed[t], due, now) && Tracks(armed[t].id, t) && armed[t].id !in old(waitingExecutions)
      {
        IdsSnoc(due, i);
        if due[i].id !in waitingExecutions {
          Arm(due[i].id, Max(now, due[i].waitTill));
        }
      }
      assert due[..|due|] == due;
    }

    method Arm(id: string, firesAt: int)
      requires Valid() && id !in waitingExecutions
      modifies this`waitingExecutions, this`armed, this`nextTimer
      ensures Valid() && waitingExecutions.Keys == old(waitingExecutions.Keys) + {id}
      ensures forall other :: Covered(other) <==> other == id || old(Covered(other))
      ensures forall t :: t in old(armed) ==> t in armed && armed[t] == old(armed)[t]
      ensures forall t :: t in armed && t !in old(armed) ==> armed[t] == Timer(id, firesAt) && Tracks(id, t)
      ensures forall other, t :: other != id ==> (Tracks(other, t) <==> old(Tracks(other, t)))
    {
      waitingExecutions := waitingExecutions[id := nextTimer];
      armed := armed[nextTimer := Timer(id, firesAt)];
      nextTimer := nextTimer + 1;
    }

    /** The timer callback: the claim it starts is for the id it was set for. */
    method TimerFires(timer: nat) returns (id: string)
      requires Valid() && timer in armed
      modifies this`waitingExecutions, this`armed
      ensures old(AllCovered()) ==> AllCovered()
      ensures Valid() && id == old(armed[timer].id) && armed == old(armed) - {timer}
      ensures waitingExecutions == old(waitingExecutions) - {id}
    {
      id := armed[timer].id;
      armed := armed - {timer};
      StartExecution(id);
    }

    /** Called directly as well: the entry goes, a timer that was set for it does not. */
    method StartExecution(id: string)
      requires Valid()
      modifies this`waitingExecutions
      ensures old(AllCovered()) ==> AllCovered()
      ensures Valid() && waitingExecutions == old(waitingExecutions) - {id}
    {
      waitingExecutions := waitingExecutions - {id};
    }

    method StopExecution(id: string)
      requires Valid()
      modifies this`waitingExecutions, this`armed
      ensures old(AllCovered()) ==> AllCovered()
      ensures Valid() && waitingExecutions == old(waitingExecutions) - {id}
      ensures armed == if id in old(waitingExecutions) then old(armed) - {old(waitingExecutions)[id]} else old(armed)
    {
      if id !in waitingExecutions { return; }
      armed := armed - {waitingExecutions[id]};
      waitingExecutions := waitingExecutions - {id};
    }

    method StartTracking(due: seq<Due>, now: int)
      requires Valid()
      modifies this
      ensures Valid() && hasMainTimer && polling
      ensures waitingExecutions.Keys == old(waitingExecutions.Keys) + Ids(due)
      ensures forall id :: Covered(id) <==> old(Covered(id)) || (id in Ids(due) && id !in old(waitingExecutions))
      ensures forall t :: t in old(armed) ==> t in armed && armed[t] == old(armed)[t]
      ensures forall t :: t in armed && t !in old(armed) ==>
        OnTime(armed[t], due, now) && Tracks(armed[t].id, t) && armed[t].id !in old(waitingExecutions)
    {
      hasMainTimer, polling := true, true;
      GetWaitingExecutions(due, now);
    }

    /** Timers are cleared, entries are kept. */
    method StopTracking()
      requires Valid()
      modifies this`polling, this`armed
      ensures Valid() && (hasMainTimer ==> !polling)
      ensures armed == if hasMainTimer then old(armed) - old(waitingExecutions.Values) else old(armed)
    {
      if !hasMainTimer { return; }
      polling := false;
      armed := armed - waitingExecutions.Values;
    }

    /** Losing and regaining leadership: of the executions found by the new poll, exactly those that were
        not tracked before get a timer; the ones tracked before stay in the table without one. */
    method LoseAndRegainLeadership(due: seq<Due>, now: int)
      requires Valid() && hasMainTimer
      modifies this
      ensures Valid()
      ensures forall id :: id in Ids(due) ==> (Covered(id) <==> id !in old(waitingExecutions))
    {
      StopTracking();
      assert forall id :: id in waitingExecutions ==> waitingExecutions[id] in waitingExecutions.Values;
      assert forall id :: !Covered(id);
      StartTracking(due, now);
    }
  }

  lemma IdsSnoc(due: seq<Due>, i: nat)
    requires i < |due|
    ensures Ids(due[..i + 1]) == Ids(due[..i]) + {due[i].id} && due[i] in due
  {
    assert due[..i + 1] == due[..i] + [due[i]];
  }

  // ---------- retries ----------

  datatype Outcome = Ok | Retryable | Fatal

  const MAX_PARENT_RESUME_ATTEMPTS := 3

  /** The first attempt that is not followed by another. */
  ghost predicate Decides(outcomes: seq<Outcome>, maxAttempts: nat, last: nat) {
    && last < maxAttempts && last < |outcomes|
    && (forall i :: 0 <= i < last ==> outcomes[i] == Retryable)
    && (outcomes[last] == Retryable ==> last == maxAttempts - 1)
  }

  /** An attempt within the bound succeeds after retryable failures only. */
  ghost predicate Succeeds(outcomes: seq<Outcome>, maxAttempts: nat)
    requires maxAttempts <= |outcomes|
  {
    exists i :: 0 <= i < maxAttempts && outcomes[i] == Ok && forall j :: 0 <= j < i ==> outcomes[j] == Retryable
  }

  /** `outcomes[i]` is what attempt `i` would give. Sleeps double from 100 ms. */
  method WithRetry(outcomes: seq<Outcome>, maxAttempts: nat) returns (succeeded: bool, attempts: nat, slept: nat)
    requires 1 <= maxAttempts <= |outcomes|
    ensures 1 <= attempts <= maxAttempts && Decides(outcomes, maxAttempts, attempts - 1)
    ensures succeeded <==> outcomes[attempts - 1] == Ok
    ensures succeeded <==> Succeeds(outcomes, maxAttempts)
    ensures slept == 100 * (Pow2(attempts - 1) - 1)
  {
    attempts, slept := 1, 0;
    while true
      invariant 1 <= attempts <= maxAttempts
      invariant forall i :: 0 <= i < attempts - 1 ==> outcomes[i] == Retryable
      invariant slept == 100 * (Pow2(attempts - 1) - 1)
      decreases maxAttempts - attempts
    {
      if outcomes[attempts - 1] == Ok { return true, attempts, slept; }
      if attempts >= maxAttempts || outcomes[attempts - 1] == Fatal {
        return false, attempts, slept;
      }
      slept := slept + 100 * Pow2(attempts - 1);
      attempts := attempts + 1;
    }
  }

  /** That many attempts are made. */
  ghost predicate Ends(outcomes: seq<Outcome>, attempts: nat) {
    attempts > 0 && Decides(outcomes, MAX_PARENT_RESUME_ATTEMPTS, attempts - 1)
  }

  /** `resumeParentExecution` never fails its caller: a finished child patches its parent, and once an attempt
      to patch it has succeeded starts it, so that it resumes the parent exactly if both can be done. */
  method ResumeParentExecution(childFinished: bool, updates: seq<Outcome>, starts: seq<Outcome>)
      returns (resumed: bool, updateAttempts: nat, startAttempts: nat)
    requires |updates| >= MAX_PARENT_RESUME_ATTEMPTS && |starts| >= MAX_PARENT_RESUME_ATTEMPTS
    ensures resumed <==> childFinished && Succeeds(updates, MAX_PARENT_RESUME_ATTEMPTS)
                         && Succeeds(starts, MAX_PARENT_RESUME_ATTEMPTS)
    ensures if childFinished then Ends(updates, updateAttempts) else updateAttempts == 0
    ensures if childFinished && Succeeds(updates, MAX_PARENT_RESUME_ATTEMPTS)
            then Ends(starts, startAttempts) else startAttempts == 0
  {
    resumed, updateAttempts, startAttempts := false, 0, 0;
    if !childFinished { return; }
    var updated, slept;
    updated, updateAttempts, slept := WithRetry(updates, MAX_PARENT_RESUME_ATTEMPTS);
    if !updated { return; }
    resumed, startAttempts, slept := WithRetry(starts, MAX_PARENT_RESUME_ATTEMPTS);
  }
}
