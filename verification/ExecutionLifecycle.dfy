/** The life of executions inside one process, as atomic steps between awaits: `ActiveExecutions.add`
    (reserve, then fail or register), status changes, settling, the post-execute callback, and the
    concurrency queue they share. Every theorem is about all runs of `Step`s.

    A call of `add` is a number; it is also the identity of the execution object the call registers,
    which the post-execute callback keeps a reference to while the table only knows ids. */
module ExecutionLifecycle {
  import opened Common
  import opened ConcurrencyQueue

  /** Webhook, trigger and chat runs are limited; evaluation runs never reserve here; others are free. */
  datatype Mode = Limited | Unlimited | Evaluation

  datatype Status = New | Running | Waiting | Success | Error | Canceled | Crashed | Unknown

  datatype Settlement = Pending | Resolved | Rejected

  /** Dropped: taken out of the concurrency queue, so its promise never resolves. */
  datatype Phase = Throttled | Dropped | Reserved | Failed | Registered

  datatype Call = Call(
    id: string,
    mode: Mode,
    phase: Phase,
    reservation: bool,         // `acquiredReservation` of the call's own reservation object
    status: Status,
    startedAt: int,
    response: Option<nat>,     // attached response promise
    settled: Settlement,       // of the post-execute promise
    callbackRan: bool)         // the `finally` of that promise has run

  datatype State = State(
    limit: nat,
    enabled: bool,
    queue: Queue,
    calls: map<nat, Call>,
    active: map<string, nat>)

  datatype Step =
    | Begin(call: nat, id: string, mode: Mode)
    | Fail(call: nat)                          // a database error, or the compare-and-swap was lost
    | Register(call: nat, now: int)
    | SetStatus(id: string, status: Status)
    | AttachResponse(id: string, promise: nat)
    | Finalize(id: string)
    | Stop(id: string)
    | Callback(call: nat)
    | RemoveQueued(id: string)

  function Init(limit: nat): State { State(limit, true, Queue(limit, []), map[], map[]) }

  // ---------- steps ----------

  function Update(s: State, k: nat, c: Call): State { s.(calls := s.calls[k := c]) }

  function NewCall(id: string, mode: Mode, phase: Phase, reservation: bool): Call {
    Call(id, mode, phase, reservation, New, 0, None, Pending, false)
  }

  function BeginAdd(s: State, k: nat, id: string, mode: Mode): State {
    if mode == Evaluation then Update(s, k, NewCall(id, mode, Reserved, false))
    else if mode == Unlimited || !s.enabled then Update(s, k, NewCall(id, mode, Reserved, true))
    else
      var s' := s.(queue := Enqueued(s.queue, Waiter(id, k)));
      if s.queue.capacity > 0 then Update(s', k, NewCall(id, mode, Reserved, true))
      else Update(s', k, NewCall(id, mode, Throttled, false))
  }

  /** The resolved waiter goes on, holding a slot. */
  function Admit(s: State, w: Option<Waiter>): State {
    if w.Some? && w.value.call in s.calls
    then Update(s, w.value.call, s.calls[w.value.call].(phase := Reserved, reservation := true)) else s
  }

  /** A slot becomes free and the longest waiting call, if any, takes it. */
  function LetNextThrough(s: State): State {
    Admit(s.(queue := Dequeued(s.queue)), Next(s.queue))
  }

  /** Only the first release of a reservation does anything. */
  function Release(s: State, k: nat): State
    requires k in s.calls
  {
    if !s.calls[k].reservation then s else
      var s' := Update(s, k, s.calls[k].(reservation := false));
      if s.enabled && s.calls[k].mode == Limited then LetNextThrough(s') else s'
  }

  function FailAdd(s: State, k: nat): State
    requires k in s.calls
  {
    Release(Update(s, k, s.calls[k].(phase := Failed)), k)
  }

  /** A resuming execution inherits the start time and response promise of the entry it replaces. */
  function RegisterAdd(s: State, k: nat, now: int): State
    requires k in s.calls
  {
    var id := s.calls[k].id;
    var before := if id in s.active && s.active[id] in s.calls then Some(s.calls[s.active[id]]) else None;
    Update(s, k, s.calls[k].(phase := Registered, status := Running,
      settled := Pending, callbackRan := false,
      startedAt := if before.Some? then before.value.startedAt else now,
      response := if before.Some? then before.value.response else None)).(active := s.active[id := k])
  }

  /** Settling a promise a second time has no effect. */
  function Settle(c: Call, how: Settlement): Call { if c.settled == Pending then c.(settled := how) else c }

  predicate Listed(s: State, id: string) { id in s.active && s.active[id] in s.calls }

  function StopListed(s: State, id: string): State
    requires Listed(s, id)
  {
    var k := s.active[id];
    if s.calls[k].status == Waiting then s.(active := s.active - {id})
    else Update(s, k, Settle(s.calls[k], Rejected))
  }

  function RunCallback(s: State, k: nat): State
    requires k in s.calls
  {
    var s' := Release(Update(s, k, s.calls[k].(callbackRan := true)), k);
    if s.calls[k].status == Waiting then s' else s'.(active := s'.active - {s.calls[k].id})
  }

  /** The promise of a call that is taken out of the queue never resolves. */
  function Drop(s: State, i: nat): State
    requires i < |s.queue.waiting|
  {
    var k := s.queue.waiting[i].call;
    (if k in s.calls then Update(s, k, s.calls[k].(phase := Dropped)) else s).(queue := Without(s.queue, i))
  }

  predicate CallbackDue(s: State, k: nat) {
    k in s.calls && s.calls[k].phase == Registered && s.calls[k].settled != Pending && !s.calls[k].callbackRan
  }

  /** A step that is not possible leaves the state alone. */
  function Apply(s: State, step: Step): State {
    match step
    case Begin(k, id, mode) => if k in s.calls then s else BeginAdd(s, k, id, mode)
    case Fail(k) => if k in s.calls && s.calls[k].phase == Reserved then FailAdd(s, k) else s
    case Register(k, now) => if k in s.calls && s.calls[k].phase == Reserved then RegisterAdd(s, k, now) else s
    case SetStatus(id, status) =>
      if Listed(s, id) then Update(s, s.active[id], s.calls[s.active[id]].(status := status)) else s
    case AttachResponse(id, p) =>
      if Listed(s, id) then Update(s, s.active[id], s.calls[s.active[id]].(response := Some(p))) else s
    case Finalize(id) => if Listed(s, id) then Update(s, s.active[id], Settle(s.calls[s.active[id]], Resolved)) else s
    case Stop(id) => if Listed(s, id) then StopListed(s, id) else s
    case Callback(k) => if CallbackDue(s, k) then RunCallback(s, k) else s
    case RemoveQueued(id) =>
      var i := IndexOf(s.queue.waiting, id);
      if s.enabled && i < |s.queue.waiting| then LetNextThrough(Drop(s, i)) else s
  }

  function Run(s: State, steps: seq<Step>): State {
    if steps == [] then s else Apply(Run(s, steps[..|steps| - 1]), steps[|steps| - 1])
  }

  // ---------- capacity ----------

  ghost function Holders(s: State): set<nat> {
    set k | k in s.calls && s.calls[k].mode == Limited && s.calls[k].reservation
  }

  /** The call has passed `reserve` and has neither thrown nor had its post-execute callback run. */
  predicate Outstanding(c: Call) {
    c.mode != Evaluation && (c.phase == Reserved || (c.phase == Registered && !c.callbackRan))
  }

  ghost predicate IsThrottled(s: State, w: Waiter) {
    w.call in s.calls && s.calls[w.call].phase == Throttled && s.calls[w.call].mode == Limited
      && s.calls[w.call].id == w.executionId
  }

  ghost predicate QueueMatchesCalls(s: State) {
    && (forall i :: 0 <= i < |s.queue.waiting| ==> IsThrottled(s, s.queue.waiting[i]))
    && (forall i, j :: 0 <= i < j < |s.queue.waiting| ==> s.queue.waiting[i].call != s.queue.waiting[j].call)
  }

  ghost predicate ReservationsExact(s: State) {
    forall k :: k in s.calls ==> (s.calls[k].reservation <==> Outstanding(s.calls[k]))
  }

  ghost predicate TableMatchesCalls(s: State) {
    forall id :: id in s.active ==>
      s.active[id] in s.calls && s.calls[s.active[id]].phase == Registered && s.calls[s.active[id]].id == id
  }

  /** Free slots, waiting calls and holders always add up to the limit. */
  ghost predicate Conserved(s: State) {
    s.queue.capacity + |s.queue.waiting| + |Holders(s)| == s.limit
  }

  ghost predicate Valid(s: State) {
    s.enabled && Conserved(s) && QueueMatchesCalls(s) && ReservationsExact(s) && TableMatchesCalls(s)
  }

  /** No more holders than slots, and nobody waits while a slot is free. */
  ghost predicate WithinLimit(s: State) {
    |Holders(s)| <= s.limit && (s.queue.waiting != [] ==> |Holders(s)| == s.limit)
  }

  // One lemma for each kind of change to the state.

  lemma ThrottledSurvives(s: State, s': State)
    requires QueueMatchesCalls(s) && s'.queue.waiting == s.queue.waiting
    requires forall k :: k in s.calls && s.calls[k].phase == Throttled ==> k in s'.calls && s'.calls[k] == s.calls[k]
    ensures QueueMatchesCalls(s')
  {
    forall i | 0 <= i < |s'.queue.waiting| ensures IsThrottled(s', s'.queue.waiting[i]) {
      assert IsThrottled(s, s.queue.waiting[i]);
    }
  }

  ghost predicate SameBookkeeping(a: Call, b: Call) {
    && a.phase == b.phase && a.mode == b.mode && a.id == b.id
    && a.reservation == b.reservation && a.callbackRan == b.callbackRan
  }

  /** Statuses, responses and settlements may change, and entries may leave the table. */
  lemma HarmlessKeeps(s: State, s': State)
    requires Valid(s) && s'.queue == s.queue && s'.limit == s.limit && s'.enabled == s.enabled
    requires s'.calls.Keys == s.calls.Keys
    requires forall k :: k in s.calls ==> SameBookkeeping(s'.calls[k], s.calls[k])
    requires forall id :: id in s'.active ==> id in s.active && s'.active[id] == s.active[id]
    ensures Valid(s') && (WithinLimit(s) ==> WithinLimit(s'))
  {
    assert Holders(s') == Holders(s);
    forall i | 0 <= i < |s'.queue.waiting| ensures IsThrottled(s', s'.queue.waiting[i]) {
      assert IsThrottled(s, s.queue.waiting[i]);
    }
  }

  /** The first waiter is let through; `s` has already counted the slot as free. */
  lemma AdmitKeeps(s: State, w: Waiter, rest: seq<Waiter>)
    requires s.enabled && s.queue.waiting == rest && QueueMatchesCalls(s.(queue := s.queue.(waiting := [w] + rest)))
    requires ReservationsExact(s) && TableMatchesCalls(s)
    ensures var s' := Admit(s, Some(w)); QueueMatchesCalls(s') && ReservationsExact(s') && TableMatchesCalls(s')
    ensures w.call !in Holders(s) && Holders(Admit(s, Some(w))) == Holders(s) + {w.call}
  {
    var q := [w] + rest;
    var before, s' := s.(queue := s.queue.(waiting := q)), Admit(s, Some(w));
    assert IsThrottled(before, q[0]);
    forall i | 0 <= i < |rest| ensures IsThrottled(s', rest[i]) {
      assert IsThrottled(before, q[i + 1]) && q[0].call != q[i + 1].call;
    }
    forall i, j | 0 <= i < j < |rest| ensures rest[i].call != rest[j].call { assert q[i + 1].call != q[j + 1].call; }
    assert s.calls[w.call].reservation <==> Outstanding(s.calls[w.call]);
  }

  /** Everything is in order except that one slot is counted neither as free nor as taken. */
  ghost predicate OneSlotLoose(s: State) {
    && s.enabled && QueueMatchesCalls(s) && ReservationsExact(s) && TableMatchesCalls(s)
    && s.queue.capacity + |s.queue.waiting| + |Holders(s)| == s.limit - 1
  }

  lemma LetNextThroughKeeps(s: State)
    requires OneSlotLoose(s)
    ensures Valid(LetNextThrough(s)) && LetNextThrough(s).limit == s.limit && LetNextThrough(s).active == s.active
    ensures |Holders(LetNextThrough(s))| == |Holders(s)| + if s.queue.waiting == [] then 0 else 1
    ensures s.queue.waiting != [] ==>
      s.queue.waiting[0].call in Holders(LetNextThrough(s)) && LetNextThrough(s).queue.waiting == s.queue.waiting[1..]
  {
    if s.queue.waiting != [] {
      var w, rest := s.queue.waiting[0], s.queue.waiting[1..];
      assert s.queue.waiting == [w] + rest;
      var s' := s.(queue := Dequeued(s.queue));
      assert Holders(s') == Holders(s);
      ThrottledSurvives(s, s'.(queue := s'.queue.(waiting := [w] + rest)));
      AdmitKeeps(s', w, rest);
    } else {
      assert Holders(LetNextThrough(s)) == Holders(s);
    }
  }

  /** Everything but call `k` is in order, and `k` is about to release what it holds. */
  ghost predicate ValidExcept(s: State, k: nat) {
    && s.enabled && Conserved(s) && QueueMatchesCalls(s) && TableMatchesCalls(s)
    && k in s.calls && s.calls[k].phase != Throttled && !Outstanding(s.calls[k])
    && (forall j :: j in s.calls && j != k ==> (s.calls[j].reservation <==> Outstanding(s.calls[j])))
  }

  lemma ForgetReservation(s: State, k: nat)
    requires ValidExcept(s, k)
    ensures var s' := Update(s, k, s.calls[k].(reservation := false));
      && QueueMatchesCalls(s') && ReservationsExact(s') && TableMatchesCalls(s')
      && Holders(s') == (if s.calls[k].reservation && s.calls[k].mode == Limited then Holders(s) - {k} else Holders(s))
  {
    var s' := Update(s, k, s.calls[k].(reservation := false));
    ThrottledSurvives(s, s');
    if s.calls[k].reservation && s.calls[k].mode == Limited {
      assert Holders(s') == Holders(s) - {k};
    } else {
      assert Holders(s') == Holders(s);
    }
  }

  /** Giving a slot back: the holder leaves, and the longest waiting call takes its place. */
  lemma ReleaseKeeps(s: State, k: nat)
    requires ValidExcept(s, k)
    ensures Valid(Release(s, k)) && Release(s, k).limit == s.limit && Release(s, k).active == s.active
    ensures WithinLimit(s) ==> WithinLimit(Release(s, k))
  {
    ForgetReservation(s, k);
    if s.calls[k].reservation && s.calls[k].mode == Limited {
      assert k in Holders(s);
      LetNextThroughKeeps(Update(s, k, s.calls[k].(reservation := false)));
    }
  }

  lemma BeginKeeps(s: State, k: nat, id: string, mode: Mode)
    requires Valid(s) && k !in s.calls
    ensures Valid(BeginAdd(s, k, id, mode)) && BeginAdd(s, k, id, mode).limit == s.limit
    ensures WithinLimit(s) ==> WithinLimit(BeginAdd(s, k, id, mode))
  {
    if mode != Limited {
      BeginFreeKeeps(s, k, id, mode);
    } else if s.queue.capacity > 0 {
      BeginAdmittedKeeps(s, k, id);
    } else {
      BeginThrottledKeeps(s, k, id);
    }
  }

  lemma BeginFreeKeeps(s: State, k: nat, id: string, mode: Mode)
    requires Valid(s) && k !in s.calls && mode != Limited
    ensures Valid(BeginAdd(s, k, id, mode))
    ensures WithinLimit(s) ==> WithinLimit(BeginAdd(s, k, id, mode))
  {
    var s' := BeginAdd(s, k, id, mode);
    assert Holders(s') == Holders(s);
    ThrottledSurvives(s, s');
  }

  lemma BeginAdmittedKeeps(s: State, k: nat, id: string)
    requires Valid(s) && k !in s.calls && s.queue.capacity > 0
    ensures Valid(BeginAdd(s, k, id, Limited))
    ensures WithinLimit(s) ==> WithinLimit(BeginAdd(s, k, id, Limited))
  {
    var c := NewCall(id, Limited, Reserved, true);
    NewCallFits(s, k, c);
    NewHolder(s, k, c);
    TakingASlotKeeps(Update(s, k, c), BeginAdd(s, k, id, Limited));
  }

  lemma NewCallFits(s: State, k: nat, c: Call)
    requires Valid(s) && k !in s.calls && (c.reservation <==> Outstanding(c))
    ensures var s' := Update(s, k, c); QueueMatchesCalls(s') && ReservationsExact(s') && TableMatchesCalls(s')
  {
    ThrottledSurvives(s, Update(s, k, c));
  }

  lemma NewHolder(s: State, k: nat, c: Call)
    requires k !in s.calls && c.mode == Limited && c.reservation
    ensures k !in Holders(s) && Holders(Update(s, k, c)) == Holders(s) + {k}
  {}

  /** The slot of a holder that has just come leaves the free ones. */
  lemma TakingASlotKeeps(s: State, s': State)
    requires s.enabled && QueueMatchesCalls(s) && ReservationsExact(s) && TableMatchesCalls(s)
    requires s.queue.capacity + |s.queue.waiting| + |Holders(s)| == s.limit + 1
    requires s' == s.(queue := s.queue.(capacity := s.queue.capacity - 1))
    ensures Valid(s') && Holders(s') == Holders(s)
  {
    ThrottledSurvives(s, s');
  }

  lemma BeginThrottledKeeps(s: State, k: nat, id: string)
    requires Valid(s) && k !in s.calls && s.queue.capacity <= 0
    ensures Valid(BeginAdd(s, k, id, Limited))
    ensures WithinLimit(s) ==> WithinLimit(BeginAdd(s, k, id, Limited))
  {
    var s' := BeginAdd(s, k, id, Limited);
    assert Holders(s') == Holders(s);
    var waiting := s.queue.waiting;
    assert s'.queue.waiting == waiting + [Waiter(id, k)];
    ThrottledSurvives(s, s'.(queue := s.queue));
    forall i | 0 <= i < |waiting| ensures waiting[i].call != k { assert IsThrottled(s, waiting[i]); }
    forall i | 0 <= i < |s'.queue.waiting| ensures IsThrottled(s', s'.queue.waiting[i]) {
      if i < |waiting| { assert IsThrottled(s'.(queue := s.queue), waiting[i]); }
    }
  }

  lemma RegisterKeeps(s: State, k: nat, now: int)
    requires Valid(s) && k in s.calls && s.calls[k].phase == Reserved
    ensures Valid(RegisterAdd(s, k, now)) && RegisterAdd(s, k, now).limit == s.limit
    ensures WithinLimit(s) ==> WithinLimit(RegisterAdd(s, k, now))
  {
    var s' := RegisterAdd(s, k, now);
    assert s.calls[k].reservation <==> Outstanding(s.calls[k]);
    assert Holders(s') == Holders(s);
    ThrottledSurvives(s, s');
  }

  lemma FailKeeps(s: State, k: nat)
    requires Valid(s) && k in s.calls && s.calls[k].phase == Reserved
    ensures Valid(FailAdd(s, k)) && FailAdd(s, k).limit == s.limit
    ensures WithinLimit(s) ==> WithinLimit(FailAdd(s, k))
  {
    var s' := Update(s, k, s.calls[k].(phase := Failed));
    assert Holders(s') == Holders(s);
    ThrottledSurvives(s, s');
    ReleaseKeeps(s', k);
  }

  lemma CallbackRanIsExcept(s: State, k: nat)
    requires Valid(s) && CallbackDue(s, k)
    ensures var s' := Update(s, k, s.calls[k].(callbackRan := true));
      ValidExcept(s', k) && Holders(s') == Holders(s)
  {
    var s' := Update(s, k, s.calls[k].(callbackRan := true));
    assert Holders(s') == Holders(s);
    ThrottledSurvives(s, s');
  }

  lemma CallbackKeeps(s: State, k: nat)
    requires Valid(s) && CallbackDue(s, k)
    ensures Valid(RunCallback(s, k)) && RunCallback(s, k).limit == s.limit
    ensures WithinLimit(s) ==> WithinLimit(RunCallback(s, k))
  {
    var s' := Update(s, k, s.calls[k].(callbackRan := true));
    CallbackRanIsExcept(s, k);
    ReleaseKeeps(s', k);
    HarmlessKeeps(Release(s', k), RunCallback(s, k));
  }

  lemma DropLoosensASlot(s: State, i: nat)
    requires Valid(s) && i < |s.queue.waiting|
    ensures OneSlotLoose(Drop(s, i)) && Drop(s, i).limit == s.limit && Holders(Drop(s, i)) == Holders(s)
  {
    var w, rest, s' := s.queue.waiting[i], Without(s.queue, i).waiting, Drop(s, i);
    assert IsThrottled(s, w);
    assert s.calls[w.call].reservation <==> Outstanding(s.calls[w.call]);
    assert Holders(s') == Holders(s);
    assert forall j :: 0 <= j < |rest| ==> rest[j] == s.queue.waiting[if j < i then j else j + 1];
    forall j | 0 <= j < |rest| ensures IsThrottled(s', rest[j]) {
      assert IsThrottled(s, s.queue.waiting[if j < i then j else j + 1]);
    }
  }

  lemma DroppingKeeps(s: State, i: nat)
    requires Valid(s) && i < |s.queue.waiting|
    ensures var s' := LetNextThrough(Drop(s, i));
      Valid(s') && s'.limit == s.limit && |Holders(s')| == |Holders(s)| + if |s.queue.waiting| == 1 then 0 else 1
    ensures |LetNextThrough(Drop(s, i)).queue.waiting| == if |s.queue.waiting| == 1 then 0 else |s.queue.waiting| - 2
  {
    DropLoosensASlot(s, i);
    LetNextThroughKeeps(Drop(s, i));
  }

  /** The steps of callers still waiting for capacity do not reach the table. */
  predicate IsQueueStep(step: Step) { step.Begin? || step.Fail? || step.RemoveQueued? }

  predicate IsEntryStep(step: Step) { step.SetStatus? || step.AttachResponse? || step.Finalize? || step.Stop? }

  ghost predicate KeepsAccounts(s: State, s': State, removal: bool) {
    Valid(s') && s'.limit == s.limit && (WithinLimit(s) && !removal ==> WithinLimit(s'))
  }

  lemma QueueStepKeeps(s: State, step: Step)
    requires Valid(s) && IsQueueStep(step)
    ensures KeepsAccounts(s, Apply(s, step), step.RemoveQueued?)
  {
    match step
    case Begin(k, id, mode) => if k !in s.calls { BeginKeeps(s, k, id, mode); }
    case Fail(k) => if k in s.calls && s.calls[k].phase == Reserved { FailKeeps(s, k); }
    case RemoveQueued(id) =>
      var i := IndexOf(s.queue.waiting, id);
      if i < |s.queue.waiting| { DroppingKeeps(s, i); }
  }

  lemma EntryStepKeeps(s: State, step: Step)
    requires Valid(s) && IsEntryStep(step)
    ensures KeepsAccounts(s, Apply(s, step), false)
  {
    EntryStepIsHarmless(s, step);
    HarmlessKeeps(s, Apply(s, step));
  }

  lemma EntryStepIsHarmless(s: State, step: Step)
    requires IsEntryStep(step)
    ensures var s' := Apply(s, step);
      && s'.queue == s.queue && s'.limit == s.limit && s'.enabled == s.enabled && s'.calls.Keys == s.calls.Keys
      && (forall id :: id in s'.active ==> id in s.active && s'.active[id] == s.active[id])
      && (forall k :: k in s.calls ==> SameBookkeeping(s'.calls[k], s.calls[k]))
  {}

  lemma ApplyKeeps(s: State, step: Step)
    requires Valid(s)
    ensures Valid(Apply(s, step)) && Apply(s, step).limit == s.limit
    ensures WithinLimit(s) && !step.RemoveQueued? ==> WithinLimit(Apply(s, step))
  {
    if IsQueueStep(step) {
      QueueStepKeeps(s, step);
    } else if IsEntryStep(step) {
      EntryStepKeeps(s, step);
    } else if step.Register? {
      if step.call in s.calls && s.calls[step.call].phase == Reserved { RegisterKeeps(s, step.call, step.now); }
    } else {
      if CallbackDue(s, step.call) { CallbackKeeps(s, step.call); }
    }
  }

  /** Over all runs: the slots taken from the limit are exactly those of waiting calls and of calls that
      reserved and have neither thrown nor had their callback run; and unless a queued call was removed,
      holders never exceed the limit and nobody waits while a slot is free. */
  lemma {:induction false} CapacityIsConserved(limit: nat, steps: seq<Step>)
    ensures Valid(Run(Init(limit), steps)) && Run(Init(limit), steps).limit == limit
    ensures (forall i :: 0 <= i < |steps| ==> !steps[i].RemoveQueued?) ==> WithinLimit(Run(Init(limit), steps))
  {
    if steps == [] {
      assert Holders(Init(limit)) == {};
    } else {
      var n := |steps| - 1;
      CapacityIsConserved(limit, steps[..n]);
      ApplyKeeps(Run(Init(limit), steps[..n]), steps[n]);
    }
  }

  /** Removing a waiting execution drops the call of it that began first, and also lets the next waiting call
      through without any holder leaving: the limit survives exactly when nobody else was waiting. */
  lemma RemoveQueuedOverAdmits(s: State, w: Waiter)
    requires Valid(s) && w in s.queue.waiting
    ensures var s', k := Apply(s, RemoveQueued(w.executionId)),
                         s.queue.waiting[IndexOf(s.queue.waiting, w.executionId)].call;
      && Valid(s') && s'.limit == s.limit && k in s'.calls && s'.calls[k].phase == Dropped
      && |Holders(s')| == |Holders(s)| + (if |s.queue.waiting| == 1 then 0 else 1)
      && (WithinLimit(s) ==> (WithinLimit(s') <==> |s.queue.waiting| == 1))
  {
    var i := IndexOf(s.queue.waiting, w.executionId);
    DroppingKeeps(s, i);
    assert IsThrottled(s, s.queue.waiting[i]);
    DroppedIsNotNext(s, i);
  }

  lemma DroppedIsNotNext(s: State, i: nat)
    requires Valid(s) && i < |s.queue.waiting|
    ensures var s', k := LetNextThrough(Drop(s, i)), s.queue.waiting[i].call;
      k in s'.calls && s'.calls[k].phase == Dropped
  {
    assert IsThrottled(s, s.queue.waiting[i]);
    var rest := Without(s.queue, i).waiting;
    if rest != [] { assert rest[0] == s.queue.waiting[if i == 0 then 1 else 0]; }
  }

  // ---------- each call gives its reservation back once ----------

  predicate Finished(c: Call) {
    c.mode != Evaluation && (c.phase == Failed || (c.phase == Registered && c.callbackRan))
  }

  /** How often a run clears the reservation of call `k`. */
  ghost function Releases(s: State, steps: seq<Step>, k: nat): nat {
    if steps == [] then 0 else
      var before := Run(s, steps[..|steps| - 1]);
      var after := Apply(before, steps[|steps| - 1]);
      Releases(s, steps[..|steps| - 1], k)
        + if k in before.calls && before.calls[k].reservation && k in after.calls && !after.calls[k].reservation
          then 1 else 0
  }

  predicate Later(c: Call, c': Call) {
    && c'.mode == c.mode && c'.id == c.id
    && (Finished(c) ==> Finished(c'))
    && (!Finished(c) && !Outstanding(c) ==> !Finished(c'))
    && (Outstanding(c) ==> Outstanding(c') || Finished(c'))
  }

  lemma LetNextOnlyMovesForward(s: State, j: nat)
    requires QueueMatchesCalls(s) && j in s.calls
    ensures j in LetNextThrough(s).calls && Later(s.calls[j], LetNextThrough(s).calls[j])
    ensures s.calls[j].phase != Throttled ==> LetNextThrough(s).calls[j] == s.calls[j]
  {
    if s.queue.waiting != [] { assert IsThrottled(s, s.queue.waiting[0]); }
  }

  lemma ReleaseOnlyMovesForward(s: State, k: nat, j: nat)
    requires QueueMatchesCalls(s) && k in s.calls && j in s.calls && s.calls[k].phase != Throttled
    ensures j in Release(s, k).calls && Later(s.calls[j], Release(s, k).calls[j])
  {
    var s' := Update(s, k, s.calls[k].(reservation := false));
    ThrottledSurvives(s, s');
    LetNextOnlyMovesForward(s', j);
  }

  lemma FailOnlyMovesForward(s: State, j: nat, k: nat)
    requires Valid(s) && k in s.calls && j in s.calls && s.calls[j].phase == Reserved
    ensures k in FailAdd(s, j).calls && Later(s.calls[k], FailAdd(s, j).calls[k])
  {
    var s' := Update(s, j, s.calls[j].(phase := Failed));
    ThrottledSurvives(s, s');
    ReleaseOnlyMovesForward(s', j, k);
  }

  lemma CallbackOnlyMovesForward(s: State, j: nat, k: nat)
    requires Valid(s) && k in s.calls && CallbackDue(s, j)
    ensures k in RunCallback(s, j).calls && Later(s.calls[k], RunCallback(s, j).calls[k])
  {
    var s' := Update(s, j, s.calls[j].(callbackRan := true));
    ThrottledSurvives(s, s');
    ReleaseOnlyMovesForward(s', j, k);
  }

  lemma RemoveOnlyMovesForward(s: State, i: nat, k: nat)
    requires Valid(s) && k in s.calls && i < |s.queue.waiting|
    ensures k in LetNextThrough(Drop(s, i)).calls && Later(s.calls[k], LetNextThrough(Drop(s, i)).calls[k])
  {
    assert IsThrottled(s, s.queue.waiting[i]);
    DropLoosensASlot(s, i);
    LetNextOnlyMovesForward(Drop(s, i), k);
  }

  lemma StepsOnlyMoveForward(s: State, step: Step, k: nat)
    requires Valid(s) && k in s.calls
    ensures k in Apply(s, step).calls && Later(s.calls[k], Apply(s, step).calls[k])
  {
    match step
    case Fail(j) => if j in s.calls && s.calls[j].phase == Reserved { FailOnlyMovesForward(s, j, k); }
    case Callback(j) => if CallbackDue(s, j) { CallbackOnlyMovesForward(s, j, k); }
    case RemoveQueued(id) =>
      var i := IndexOf(s.queue.waiting, id);
      if i < |s.queue.waiting| { RemoveOnlyMovesForward(s, i, k); }
    case _ =>
  }

  /** A reservation is given back exactly once, by the failed `add` or by the callback, never before. */
  lemma {:induction false} ReleasedExactlyOnce(limit: nat, steps: seq<Step>, k: nat)
    ensures var s := Run(Init(limit), steps);
      Releases(Init(limit), steps, k) == if k in s.calls && Finished(s.calls[k]) then 1 else 0
  {
    if steps != [] {
      var n := |steps| - 1;
      var before := Run(Init(limit), steps[..n]);
      ReleasedExactlyOnce(limit, steps[..n], k);
      CapacityIsConserved(limit, steps[..n]);
      CapacityIsConserved(limit, steps);
      if k in before.calls {
        StepsOnlyMoveForward(before, steps[n], k);
      } else {
        NewcomersAreUnfinished(before, steps[n], k);
      }
    }
  }

  lemma NewcomersAreUnfinished(s: State, step: Step, k: nat)
    requires k !in s.calls
    ensures k in Apply(s, step).calls ==> !Finished(Apply(s, step).calls[k])
  {}
}
