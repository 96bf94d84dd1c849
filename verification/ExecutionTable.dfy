/** What the table of active executions keeps over wait/resume cycles and through shutdown, and the
    two windows in which a settlement misses the execution it was meant for. */
module ExecutionTable {
  import opened Common
  import opened ConcurrencyQueue
  import opened ExecutionLifecycle

  // ---------- the original start time and the latest response promise ----------

  /** Since when an id has been in the table without a gap, and the promise attached last. */
  datatype Tenancy = Tenancy(since: int, response: Option<nat>)

  /** Bookkeeping that looks only at the steps and at which ids are listed, not at the executions. */
  function Note(ledger: map<string, Tenancy>, s: State, step: Step): map<string, Tenancy> {
    match step
    case Register(k, now) =>
      if k in s.calls && s.calls[k].phase == Reserved && s.calls[k].id !in s.active
      then ledger[s.calls[k].id := Tenancy(now, None)] else ledger
    case AttachResponse(id, p) =>
      if id in s.active && id in ledger then ledger[id := ledger[id].(response := Some(p))] else ledger
    case _ => ledger
  }

  function Ledger(s: State, steps: seq<Step>): map<string, Tenancy> {
    if steps == [] then map[] else
      Note(Ledger(s, steps[..|steps| - 1]), Run(s, steps[..|steps| - 1]), steps[|steps| - 1])
  }

  ghost predicate MatchesTenancy(s: State, id: string, t: Tenancy) {
    Listed(s, id) && s.calls[s.active[id]].startedAt == t.since && s.calls[s.active[id]].response == t.response
  }

  ghost predicate Matches(s: State, ledger: map<string, Tenancy>) {
    forall id :: id in s.active ==> id in ledger && MatchesTenancy(s, id, ledger[id])
  }

  /** Any number of resumes keep the first start time of the tenancy and the last attached response promise. */
  lemma {:induction false} TableRemembers(limit: nat, steps: seq<Step>)
    ensures Matches(Run(Init(limit), steps), Ledger(Init(limit), steps))
  {
    if steps != [] {
      var n := |steps| - 1;
      var before := Run(Init(limit), steps[..n]);
      TableRemembers(limit, steps[..n]);
      CapacityIsConserved(limit, steps[..n]);
      NoteKeepsMatch(before, Ledger(Init(limit), steps[..n]), steps[n]);
    }
  }

  /** Registered executions, up to their reservations, and the table are the same in both states. */
  ghost predicate SameRegistered(s: State, s': State) {
    && s'.active == s.active
    && (forall k :: k in s.calls && s.calls[k].phase == Registered ==>
          k in s'.calls && s'.calls[k] == s.calls[k].(reservation := s'.calls[k].reservation))
    && (forall k :: k in s'.calls && s'.calls[k].phase == Registered ==> k in s.calls && s.calls[k].phase == Registered)
  }

  lemma LetNextKeepsRegistered(s: State)
    requires QueueMatchesCalls(s)
    ensures SameRegistered(s, LetNextThrough(s))
  {
    if s.queue.waiting != [] { assert IsThrottled(s, s.queue.waiting[0]); }
  }

  lemma ReleaseKeepsRegistered(s: State, k: nat)
    requires QueueMatchesCalls(s) && k in s.calls && s.calls[k].phase != Throttled
    ensures SameRegistered(s, Release(s, k))
  {
    var s' := Update(s, k, s.calls[k].(reservation := false));
    ThrottledSurvives(s, s');
    assert SameRegistered(s, s');
    LetNextKeepsRegistered(s');
  }

  lemma FailKeepsRegistered(s: State, k: nat)
    requires Valid(s) && k in s.calls && s.calls[k].phase == Reserved
    ensures SameRegistered(s, FailAdd(s, k))
  {
    var s' := Update(s, k, s.calls[k].(phase := Failed));
    ThrottledSurvives(s, s');
    ReleaseKeepsRegistered(s', k);
  }

  lemma RemoveQueuedKeepsRegistered(s: State, i: nat)
    requires Valid(s) && i < |s.queue.waiting|
    ensures SameRegistered(s, LetNextThrough(Drop(s, i)))
  {
    assert IsThrottled(s, s.queue.waiting[i]);
    DropLoosensASlot(s, i);
    LetNextKeepsRegistered(Drop(s, i));
  }

  lemma QueueStepsKeepRegistered(s: State, step: Step)
    requires Valid(s) && IsQueueStep(step)
    ensures SameRegistered(s, Apply(s, step))
  {
    if step.Fail? {
      if step.call in s.calls && s.calls[step.call].phase == Reserved { FailKeepsRegistered(s, step.call); }
    } else if step.RemoveQueued? {
      var i := IndexOf(s.queue.waiting, step.id);
      if i < |s.queue.waiting| { RemoveQueuedKeepsRegistered(s, i); }
    }
  }

  lemma CallbackKeepsRegistered(s: State, k: nat)
    requires Valid(s) && CallbackDue(s, k)
    ensures var s' := Update(s, k, s.calls[k].(callbackRan := true)); SameRegistered(s', Release(s', k))
  {
    var s' := Update(s, k, s.calls[k].(callbackRan := true));
    ThrottledSurvives(s, s');
    ReleaseKeepsRegistered(s', k);
  }

  lemma SameRegisteredKeepsMatch(s: State, s': State, ledger: map<string, Tenancy>)
    requires TableMatchesCalls(s) && Matches(s, ledger) && SameRegistered(s, s')
    ensures Matches(s', ledger)
  {
    forall id | id in s'.active ensures MatchesTenancy(s', id, ledger[id]) { assert MatchesTenancy(s, id, ledger[id]); }
  }

  lemma CallbackKeepsMatch(s: State, ledger: map<string, Tenancy>, k: nat)
    requires Valid(s) && Matches(s, ledger) && CallbackDue(s, k)
    ensures Matches(RunCallback(s, k), ledger)
  {
    CallbackKeepsRegistered(s, k);
    var s1 := Update(s, k, s.calls[k].(callbackRan := true));
    forall id | id in s1.active ensures MatchesTenancy(s1, id, ledger[id]) { assert MatchesTenancy(s, id, ledger[id]); }
    SameRegisteredKeepsMatch(s1, Release(s1, k), ledger);
    forall id | id in RunCallback(s, k).active ensures MatchesTenancy(RunCallback(s, k), id, ledger[id]) {
      assert MatchesTenancy(Release(s1, k), id, ledger[id]);
    }
  }

  lemma NoteKeepsMatch(s: State, ledger: map<string, Tenancy>, step: Step)
    requires Valid(s) && Matches(s, ledger)
    ensures Matches(Apply(s, step), Note(ledger, s, step))
  {
    if IsQueueStep(step) {
      QueueStepsKeepRegistered(s, step);
      SameRegisteredKeepsMatch(s, Apply(s, step), ledger);
    } else if step.Callback? {
      if CallbackDue(s, step.call) { CallbackKeepsMatch(s, ledger, step.call); }
    } else {
      TableStepKeepsMatch(s, ledger, step);
    }
  }

  lemma TableStepKeepsMatch(s: State, ledger: map<string, Tenancy>, step: Step)
    requires Valid(s) && Matches(s, ledger) && !IsQueueStep(step) && !step.Callback?
    ensures Matches(Apply(s, step), Note(ledger, s, step))
  {
    var s', ledger' := Apply(s, step), Note(ledger, s, step);
    forall id | id in s'.active ensures id in ledger' && MatchesTenancy(s', id, ledger'[id]) {
      assert id in s.active ==> MatchesTenancy(s, id, ledger[id]);
    }
  }

  // ---------- orderly runs ----------

  /** What the callers are relied on to respect for an id: it is resumed only after its previous incarnation
      settled as waiting, its entry is not re-marked after the callback has run, and it is not stopped while
      marked waiting but not settled. `OrderlyIff` shows that nothing less would do. */
  predicate Orderly(s: State, step: Step, id: string) {
    match step
    case Register(k, _) => k in s.calls && s.calls[k].phase == Reserved && s.calls[k].id == id && Listed(s, id) ==>
        s.calls[s.active[id]].settled != Pending && s.calls[s.active[id]].status == Waiting
    case SetStatus(i, status) => i == id && Listed(s, id) && s.calls[s.active[id]].callbackRan ==> status == Waiting
    case Stop(i) =>
        i == id && Listed(s, id) && s.calls[s.active[id]].status == Waiting ==> s.calls[s.active[id]].settled != Pending
    case _ => true
  }

  ghost predicate OrderlyRun(s: State, steps: seq<Step>, id: string) {
    steps == [] ||
      (OrderlyRun(s, steps[..|steps| - 1], id) && Orderly(Run(s, steps[..|steps| - 1]), steps[|steps| - 1], id))
  }

  predicate InTable(s: State, k: nat)
    requires k in s.calls
  {
    s.calls[k].id in s.active && s.active[s.calls[k].id] == k
  }

  predicate IsIncarnation(s: State, k: nat, id: string) {
    k in s.calls && s.calls[k].phase == Registered && s.calls[k].id == id
  }

  /** A promise of the id that still has something to do is the one in the table: it is pending, or its
      callback is due and will remove the entry. An entry whose callback has run is a waiting one. */
  ghost predicate Tidy(s: State, id: string) { forall k :: IsIncarnation(s, k, id) ==> TidyCall(s, k) }

  predicate TidyCall(s: State, k: nat)
    requires k in s.calls
  {
    var c := s.calls[k];
    && (c.settled == Pending ==> !c.callbackRan && InTable(s, k))
    && (c.settled != Pending && c.status != Waiting && !c.callbackRan ==> InTable(s, k))
    && (c.callbackRan && InTable(s, k) ==> c.status == Waiting)
  }

  lemma SameRegisteredKeepsTidy(s: State, s': State, id: string)
    requires Tidy(s, id) && SameRegistered(s, s')
    ensures Tidy(s', id)
  {
    forall k | IsIncarnation(s', k, id) ensures TidyCall(s', k) { assert IsIncarnation(s, k, id); }
  }

  lemma RegisterKeepsTidy(s: State, k: nat, now: int, id: string)
    requires Valid(s) && Tidy(s, id) && k in s.calls && s.calls[k].phase == Reserved && Orderly(s, Register(k, now), id)
    ensures Tidy(RegisterAdd(s, k, now), id)
  {
    var s' := RegisterAdd(s, k, now);
    forall j | IsIncarnation(s', j, id) ensures TidyCall(s', j) {
      if j != k { assert IsIncarnation(s, j, id); }
    }
  }

  lemma TableStepKeepsTidy(s: State, step: Step, id: string)
    requires Valid(s) && Tidy(s, id) && Orderly(s, step, id) && IsEntryStep(step)
    ensures Tidy(Apply(s, step), id)
  {
    var s' := Apply(s, step);
    forall j | IsIncarnation(s', j, id) ensures TidyCall(s', j) { assert IsIncarnation(s, j, id); }
  }

  lemma CallbackKeepsTidy(s: State, k: nat, id: string)
    requires Valid(s) && Tidy(s, id) && CallbackDue(s, k)
    ensures Tidy(RunCallback(s, k), id)
  {
    CallbackKeepsRegistered(s, k);
    var s1 := Release(Update(s, k, s.calls[k].(callbackRan := true)), k);
    var s' := RunCallback(s, k);
    if s.calls[k].id == id { assert IsIncarnation(s, k, id); }
    forall j | IsIncarnation(s', j, id) ensures TidyCall(s', j) {
      assert j in s1.calls && s1.calls[j].phase == Registered;
      assert IsIncarnation(s, j, id);
    }
  }

  lemma ApplyKeepsTidy(s: State, step: Step, id: string)
    requires Valid(s) && Tidy(s, id) && Orderly(s, step, id)
    ensures Tidy(Apply(s, step), id)
  {
    if IsQueueStep(step) {
      QueueStepsKeepRegistered(s, step);
      SameRegisteredKeepsTidy(s, Apply(s, step), id);
    } else if step.Register? {
      if step.call in s.calls && s.calls[step.call].phase == Reserved { RegisterKeepsTidy(s, step.call, step.now, id); }
    } else if step.Callback? {
      if CallbackDue(s, step.call) { CallbackKeepsTidy(s, step.call, id); }
    } else {
      TableStepKeepsTidy(s, step, id);
    }
  }

  /** A step keeps the id tidy exactly if it is orderly for it, whatever it does to other ids. */
  lemma OrderlyIff(s: State, step: Step, id: string)
    requires Valid(s) && Tidy(s, id)
    ensures Tidy(Apply(s, step), id) <==> Orderly(s, step, id)
  {
    if Orderly(s, step, id) { ApplyKeepsTidy(s, step, id); } else { DisorderLeavesUntidy(s, step, id); }
  }

  lemma DisorderLeavesUntidy(s: State, step: Step, id: string)
    requires Valid(s) && Tidy(s, id) && !Orderly(s, step, id)
    ensures !Tidy(Apply(s, step), id)
  {
    assert Listed(s, id) && IsIncarnation(s, s.active[id], id);
    assert IsIncarnation(Apply(s, step), s.active[id], id) && !TidyCall(Apply(s, step), s.active[id]);
  }

  lemma {:induction false} OrderlyRunsAreTidy(limit: nat, steps: seq<Step>, id: string)
    requires OrderlyRun(Init(limit), steps, id)
    ensures Tidy(Run(Init(limit), steps), id)
  {
    if steps != [] {
      var n := |steps| - 1;
      CapacityIsConserved(limit, steps[..n]);
      OrderlyRunsAreTidy(limit, steps[..n], id);
      ApplyKeepsTidy(Run(Init(limit), steps[..n]), steps[n], id);
    }
  }

  /** In every run that is orderly for an id: its entry leaves the table only because its own promise settled
      as something other than waiting and the callback ran, or because a settled waiting entry was stopped. */
  lemma LeavingTheTable(limit: nat, steps: seq<Step>, step: Step, id: string)
    requires OrderlyRun(Init(limit), steps, id) && Orderly(Run(Init(limit), steps), step, id)
    ensures var s := Run(Init(limit), steps);
      Listed(s, id) && id !in Apply(s, step).active ==>
        var c := s.calls[s.active[id]];
        && c.settled != Pending
        && ((step == Callback(s.active[id]) && c.status != Waiting) || (step == Stop(id) && c.status == Waiting))
  {
    OrderlyRunsAreTidy(limit, steps, id);
    CapacityIsConserved(limit, steps);
    var s := Run(Init(limit), steps);
    if IsQueueStep(step) {
      QueueStepsKeepRegistered(s, step);
    } else if step.Callback? && CallbackDue(s, step.call) {
      CallbackKeepsRegistered(s, step.call);
      if s.calls[step.call].id == id { assert IsIncarnation(s, step.call, id); }
    }
  }

  /** In every run that is orderly for an id, an incarnation of it that ends settles its own promise; the
      callback then returns the slot, and the entry stays exactly when the execution is waiting. */
  lemma EndOfARun(limit: nat, steps: seq<Step>, k: nat)
    requires var s := Run(Init(limit), steps);
      k in s.calls && s.calls[k].phase == Registered && s.calls[k].settled == Pending
    requires OrderlyRun(Init(limit), steps, Run(Init(limit), steps).calls[k].id)
    ensures EndsCleanly(Run(Init(limit), steps), k)
  {
    OrderlyRunsAreTidy(limit, steps, Run(Init(limit), steps).calls[k].id);
    CapacityIsConserved(limit, steps);
    EndReachesOwnPromise(Run(Init(limit), steps), k);
  }

  /** Finalizing and then running the callback settles `k`, releases it, and keeps the entry iff it waits. */
  predicate EndsCleanly(s: State, k: nat)
    requires k in s.calls
  {
    var s' := Apply(Apply(s, Finalize(s.calls[k].id)), Callback(k));
    && k in s'.calls && s'.calls[k].settled == Resolved && !s'.calls[k].reservation
    && (s.calls[k].id in s'.active <==> s.calls[k].status == Waiting)
  }

  lemma EndReachesOwnPromise(s: State, k: nat)
    requires Valid(s) && k in s.calls && s.calls[k].phase == Registered && s.calls[k].settled == Pending
    requires Tidy(s, s.calls[k].id)
    ensures EndsCleanly(s, k)
  {
    assert IsIncarnation(s, k, s.calls[k].id);
    ApplyKeeps(s, Finalize(s.calls[k].id));
    CallbackEffect(Apply(s, Finalize(s.calls[k].id)), k);
  }

  lemma CallbackEffect(s: State, k: nat)
    requires Valid(s) && CallbackDue(s, k) && InTable(s, k)
    ensures var s' := Apply(s, Callback(k));
      && k in s'.calls && s'.calls[k].settled == s.calls[k].settled && !s'.calls[k].reservation
      && (s.calls[k].id in s'.active <==> s.calls[k].status == Waiting)
  {
    CallbackKeepsRegistered(s, k);
    CallbackKeeps(s, k);
  }

  // ---------- the windows ----------

  /** The call that has registered `id` last in a run. */
  ghost function Latest(s: State, steps: seq<Step>, id: string): Option<nat> {
    if steps == [] then None else
      var n := |steps| - 1;
      var before := Run(s, steps[..n]);
      if Registers(before, steps[n], id) then Some(steps[n].call) else Latest(s, steps[..n], id)
  }

  predicate Registers(s: State, step: Step, id: string) {
    step.Register? && step.call in s.calls && s.calls[step.call].phase == Reserved && s.calls[step.call].id == id
  }

  /** In every run the table leads to the latest incarnation of each id it lists. */
  lemma {:induction false} TableLeadsToLatest(limit: nat, steps: seq<Step>, id: string)
    ensures id in Run(Init(limit), steps).active ==>
      Latest(Init(limit), steps, id) == Some(Run(Init(limit), steps).active[id])
  {
    if steps != [] {
      var n := |steps| - 1;
      TableLeadsToLatest(limit, steps[..n], id);
      CapacityIsConserved(limit, steps[..n]);
      var before := Run(Init(limit), steps[..n]);
      if id in Apply(before, steps[n]).active { EntriesOnlyRegister(before, steps[n], id); }
    }
  }

  lemma EntriesOnlyRegister(s: State, step: Step, id: string)
    requires Valid(s) && id in Apply(s, step).active
    ensures if Registers(s, step, id) then Apply(s, step).active[id] == step.call
            else id in s.active && Apply(s, step).active[id] == s.active[id]
  {
    if IsQueueStep(step) {
      QueueStepsKeepRegistered(s, step);
    } else if step.Callback? {
      if CallbackDue(s, step.call) { CallbackKeepsRegistered(s, step.call); }
    }
  }

  /** `finalizeExecution` only knows the id. In every run it settles the run it is called for exactly if that
      is the latest incarnation of its id and still listed; any other it leaves pending. */
  lemma FinalizeReachesOwnRunIff(limit: nat, steps: seq<Step>, k: nat)
    requires var s := Run(Init(limit), steps);
      k in s.calls && s.calls[k].phase == Registered && s.calls[k].settled == Pending
    ensures var s := Run(Init(limit), steps);
      Apply(s, Finalize(s.calls[k].id)).calls[k].settled == Resolved <==>
        s.calls[k].id in s.active && Latest(Init(limit), steps, s.calls[k].id) == Some(k)
  {
    TableLeadsToLatest(limit, steps, Run(Init(limit), steps).calls[k].id);
    CapacityIsConserved(limit, steps);
  }

  /** If an id is registered again before its previous incarnation settles, the old run's end settles the
      promise of the new one, and the new one's slot and entry are given up while it still runs. */
  lemma LateFinalizeHitsTheNewRun() returns (steps: seq<Step>)
    ensures |steps| == 7 && steps[5] == Finalize("e")
    ensures var s := Run(Init(2), steps);
      && 0 in s.calls && s.calls[0].settled == Pending && s.calls[0].id == "e"
      && 1 in s.calls && s.calls[1].settled == Resolved && !s.calls[1].reservation && "e" !in s.active
  {
    var s;
    steps, s := ReRegisteredTooEarly();
    steps, s := Extend(Init(2), steps, s, Finalize("e"));
    var settled := s.calls[1];
    steps, s := Extend(Init(2), steps, s, Callback(1));
    assert settled.settled == Resolved;
  }

  /** Two incarnations of one id, both running, only the second in the table. */
  lemma ReRegisteredTooEarly() returns (steps: seq<Step>, s: State)
    ensures |steps| == 5 && s == Run(Init(2), steps) && s.active == map["e" := 1] && s.queue.waiting == []
    ensures s.calls.Keys == {0, 1} && forall k :: k in s.calls ==>
      s.calls[k].id == "e" && s.calls[k].phase == Registered && s.calls[k].settled == Pending
      && !s.calls[k].callbackRan && s.calls[k].status in {Waiting, Running}
    ensures s.calls[1].status == Running
  {
    steps, s := RegisteredAndWaiting();
    steps, s := Extend(Init(2), steps, s, Begin(1, "e", Unlimited));
    steps, s := Extend(Init(2), steps, s, Register(1, 20));
  }

  lemma RegisteredAndWaiting() returns (steps: seq<Step>, s: State)
    ensures |steps| == 3 && s == Run(Init(2), steps)
    ensures var call := Call("e", Unlimited, Registered, true, Waiting, 10, None, Pending, false);
      s == State(2, true, Queue(2, []), map[0 := call], map["e" := 0])
  {
    steps, s := [], Init(2);
    steps, s := Extend(Init(2), steps, s, Begin(0, "e", Unlimited));
    steps, s := Extend(Init(2), steps, s, Register(0, 10));
    steps, s := Extend(Init(2), steps, s, SetStatus("e", Waiting));
  }

  lemma Extend(start: State, steps: seq<Step>, now: State, step: Step) returns (steps': seq<Step>, now': State)
    requires now == Run(start, steps)
    ensures steps' == steps + [step] && now' == Apply(now, step) && now' == Run(start, steps')
  {
    steps', now' := steps + [step], Apply(now, step);
    assert (steps + [step])[..|steps|] == steps;
  }

  /** The promise is out of everybody's reach: no entry of the table leads to it. */
  ghost predicate OffTheTable(s: State, k: nat) {
    k in s.calls && s.calls[k].phase == Registered && forall id :: id in s.active ==> s.active[id] != k
  }

  /** Stopping an entry puts its still pending promise out of reach exactly when it is marked waiting. */
  lemma StopLosesPromiseIff(s: State, id: string)
    requires Valid(s) && Listed(s, id) && s.calls[s.active[id]].settled == Pending
    ensures var s' := Apply(s, Stop(id));
      OffTheTable(s', s.active[id]) && s'.calls[s.active[id]].settled == Pending <==>
        s.calls[s.active[id]].status == Waiting
  {
    assert s.calls[s.active[id]].id == id;
  }

  lemma StepKeepsLost(s: State, step: Step, k: nat)
    requires Valid(s) && OffTheTable(s, k) && s.calls[k].settled == Pending && !s.calls[k].callbackRan
    ensures OffTheTable(Apply(s, step), k) && Apply(s, step).calls[k] == s.calls[k]
  {
    if IsQueueStep(step) {
      LostIsRegistered(s, step, k);
    } else if step.Callback? {
      if CallbackDue(s, step.call) { CallbackKeepsLost(s, step.call, k); }
    }
  }

  lemma CallbackKeepsLost(s: State, j: nat, k: nat)
    requires Valid(s) && CallbackDue(s, j) && OffTheTable(s, k) && s.calls[k].settled == Pending
    ensures OffTheTable(RunCallback(s, j), k) && RunCallback(s, j).calls[k] == s.calls[k]
  {
    CallbackKeepsRegistered(s, j);
    CallbackKeeps(s, j);
    var s' := RunCallback(s, j);
    assert s.calls[k].reservation <==> Outstanding(s.calls[k]);
    assert s'.calls[k].reservation <==> Outstanding(s'.calls[k]);
  }

  lemma LostIsRegistered(s: State, step: Step, k: nat)
    requires Valid(s) && OffTheTable(s, k) && IsQueueStep(step)
    ensures OffTheTable(Apply(s, step), k) && Apply(s, step).calls[k] == s.calls[k]
  {
    QueueStepsKeepRegistered(s, step);
    ApplyKeeps(s, step);
    var s' := Apply(s, step);
    assert s.calls[k].reservation <==> Outstanding(s.calls[k]);
    assert s'.calls[k].reservation <==> Outstanding(s'.calls[k]);
  }

  /** A promise out of reach is never settled and its slot never comes back, whatever happens later. */
  lemma {:induction false} LostSlotNeverComesBack(s: State, k: nat, steps: seq<Step>)
    requires Valid(s) && OffTheTable(s, k) && s.calls[k].settled == Pending && !s.calls[k].callbackRan
    ensures Valid(Run(s, steps)) && OffTheTable(Run(s, steps), k) && Run(s, steps).calls[k] == s.calls[k]
    ensures s.calls[k].mode == Limited ==> k in Holders(Run(s, steps))
  {
    if steps != [] {
      var n := |steps| - 1;
      LostSlotNeverComesBack(s, k, steps[..n]);
      ApplyKeeps(Run(s, steps[..n]), steps[n]);
      StepKeepsLost(Run(s, steps[..n]), steps[n], k);
    }
    assert s.calls[k].reservation <==> Outstanding(s.calls[k]);
  }

  // ---------- shutdown ----------

  predicate ListedAs(s: State, id: string, statuses: set<Status>) {
    Listed(s, id) && s.calls[s.active[id]].status in statuses
  }

  /** What `shutdown` does before it waits. Cancelling removes waiting entries and rejects the others;
      otherwise waiting and new entries are removed. In regular mode releases stop returning slots. */
  function ShutDown(s: State, regular: bool, cancelAll: bool): State {
    if regular && cancelAll then
      s.(enabled := false,
         calls := map k | k in s.calls ::
           if InTable(s, k) && s.calls[k].status != Waiting then Settle(s.calls[k], Rejected) else s.calls[k],
         active := map id | id in s.active && !ListedAs(s, id, {Waiting}) :: s.active[id])
    else
      s.(enabled := s.enabled && !regular,
         active := map id | id in s.active && !ListedAs(s, id, {Waiting, New}) :: s.active[id])
  }

  /** Every entry left is settled, not waiting, and its callback is still due. */
  ghost predicate Draining(s: State) {
    !s.enabled && forall id :: id in s.active ==>
      CallbackDue(s, s.active[id]) && s.calls[s.active[id]].id == id && s.calls[s.active[id]].status != Waiting
  }

  /** No entry is marked as something else than waiting after its callback has run. */
  ghost predicate NothingStuck(s: State) {
    forall id :: id in s.active && s.active[id] in s.calls && s.calls[s.active[id]].callbackRan ==>
      s.calls[s.active[id]].status == Waiting
  }

  /** After a cancelling shutdown the table is draining exactly if no entry was stuck before. */
  lemma DrainsIffNothingStuck(s: State)
    requires Valid(s)
    ensures Draining(ShutDown(s, true, true)) <==> NothingStuck(s)
  {
    if NothingStuck(s) {
      forall id | id in ShutDown(s, true, true).active ensures id in s.active && DueAfterShutDown(s, id) {
        ShutDownLeavesDue(s, id);
      }
    } else {
      var id :| id in s.active && s.active[id] in s.calls && s.calls[s.active[id]].callbackRan
                && s.calls[s.active[id]].status != Waiting;
      ShutDownLeavesStuck(s, id);
    }
  }

  ghost predicate DueAfterShutDown(s: State, id: string)
    requires id in s.active
  {
    var s', k := ShutDown(s, true, true), s.active[id];
    CallbackDue(s', k) && s'.calls[k].id == id && s'.calls[k].status != Waiting
  }

  lemma ShutDownLeavesDue(s: State, id: string)
    requires Valid(s) && NothingStuck(s) && id in ShutDown(s, true, true).active
    ensures id in s.active && DueAfterShutDown(s, id)
  {
    assert id in s.active && Listed(s, id);
  }

  lemma ShutDownLeavesStuck(s: State, id: string)
    requires Valid(s) && id in s.active && s.active[id] in s.calls
    requires s.calls[s.active[id]].callbackRan && s.calls[s.active[id]].status != Waiting
    ensures !Draining(ShutDown(s, true, true))
  {
    var s' := ShutDown(s, true, true);
    assert id in s'.active && s'.calls[s'.active[id]].callbackRan;
  }

  /** The only status the program ever marks an entry with. */
  predicate MarksWaiting(step: Step) { step.SetStatus? ==> step.status == Waiting }

  lemma StepLeavesNothingStuck(s: State, step: Step)
    requires Valid(s) && NothingStuck(s) && MarksWaiting(step)
    ensures NothingStuck(Apply(s, step))
  {
    var s' := Apply(s, step);
    if IsQueueStep(step) {
      QueueStepsKeepRegistered(s, step);
    } else if step.Callback? {
      if CallbackDue(s, step.call) { CallbackLeavesNothingStuck(s, step.call); }
    }
  }

  lemma CallbackLeavesNothingStuck(s: State, k: nat)
    requires Valid(s) && NothingStuck(s) && CallbackDue(s, k)
    ensures NothingStuck(RunCallback(s, k))
  {
    CallbackKeepsRegistered(s, k);
    var s1, s' := Update(s, k, s.calls[k].(callbackRan := true)), RunCallback(s, k);
    forall id | id in s'.active && s'.active[id] in s'.calls && s'.calls[s'.active[id]].callbackRan
      ensures s'.calls[s'.active[id]].status == Waiting
    {
      assert id in s.active && s1.calls[s.active[id]].phase == Registered;
    }
  }

  lemma {:induction false} NothingEverStuck(limit: nat, steps: seq<Step>)
    requires forall i :: 0 <= i < |steps| ==> MarksWaiting(steps[i])
    ensures NothingStuck(Run(Init(limit), steps))
  {
    if steps != [] {
      var n := |steps| - 1;
      NothingEverStuck(limit, steps[..n]);
      CapacityIsConserved(limit, steps[..n]);
      StepLeavesNothingStuck(Run(Init(limit), steps[..n]), steps[n]);
    }
  }

  lemma {:induction false} DrainingContinues(s: State, callbacks: seq<Step>)
    requires Draining(s) && forall i :: 0 <= i < |callbacks| ==> callbacks[i].Callback?
    ensures Draining(Run(s, callbacks))
  {
    if callbacks != [] {
      var n := |callbacks| - 1;
      DrainingContinues(s, callbacks[..n]);
      CallbackKeepsDraining(Run(s, callbacks[..n]), callbacks[n].call);
    }
  }

  lemma CallbackKeepsDraining(s: State, k: nat)
    requires Draining(s)
    ensures Draining(Apply(s, Callback(k)))
  {}

  /** After a cancelling shutdown at any point of any run that marks entries as nothing but waiting, however
      disorderly, and any callbacks in any order: as long as an entry is left its callback is due and running
      it removes the entry, so when no callback is due the table is empty and the wait loop ends. */
  lemma ShutdownDrains(limit: nat, steps: seq<Step>, callbacks: seq<Step>)
    requires forall i :: 0 <= i < |steps| ==> MarksWaiting(steps[i])
    requires forall i :: 0 <= i < |callbacks| ==> callbacks[i].Callback?
    ensures DrainsOut(Run(ShutDown(Run(Init(limit), steps), true, true), callbacks))
  {
    NothingEverStuck(limit, steps);
    CapacityIsConserved(limit, steps);
    DrainsIffNothingStuck(Run(Init(limit), steps));
    DrainingContinues(ShutDown(Run(Init(limit), steps), true, true), callbacks);
    DrainingDrainsOut(Run(ShutDown(Run(Init(limit), steps), true, true), callbacks));
  }

  /** `setStatus` takes any status, although the program only passes `waiting`: an entry marked running after
      its callback has run would have nobody left to remove it. */
  lemma ReMarkedEntryIsStuck() returns (steps: seq<Step>)
    ensures |steps| == 6 && steps[5] == SetStatus("e", Running)
    ensures var s := Run(Init(2), steps);
      Listed(s, "e") && s.calls[s.active["e"]].callbackRan && forall k :: k in s.calls ==> k == s.active["e"]
  {
    var s;
    steps, s := WaitingAndReleased();
    steps, s := Extend(Init(2), steps, s, SetStatus("e", Running));
  }

  lemma WaitingAndReleased() returns (steps: seq<Step>, s: State)
    ensures |steps| == 5 && s == Run(Init(2), steps) && s.active == map["e" := 0] && s.calls.Keys == {0}
    ensures s.calls[0].callbackRan && s.calls[0].id == "e"
  {
    steps, s := RegisteredAndWaiting();
    steps, s := Extend(Init(2), steps, s, Finalize("e"));
    steps, s := Extend(Init(2), steps, s, Callback(0));
  }

  /** The wait loop of a shutdown would not end while there is such an entry, whichever callbacks run. */
  lemma {:induction false} StuckEntryBlocksShutdown(s: State, id: string, callbacks: seq<Step>)
    requires !s.enabled && id in s.active && forall k :: CallbackDue(s, k) ==> s.calls[k].id != id
    requires forall i :: 0 <= i < |callbacks| ==> callbacks[i].Callback?
    ensures var s' := Run(s, callbacks);
      !s'.enabled && id in s'.active && forall k :: CallbackDue(s', k) ==> s'.calls[k].id != id
  {
    if callbacks != [] {
      var n := |callbacks| - 1;
      StuckEntryBlocksShutdown(s, id, callbacks[..n]);
      assert callbacks[n].Callback?;
    }
  }

  ghost predicate DrainsOut(s: State) {
    && (forall id :: id in s.active ==>
          CallbackDue(s, s.active[id]) && Apply(s, Callback(s.active[id])).active == s.active - {id})
    && ((forall k :: k in s.calls ==> !CallbackDue(s, k)) ==> s.active == map[])
  }

  lemma DrainingDrainsOut(s: State)
    requires Draining(s)
    ensures DrainsOut(s)
  {}
}
