/** The queue of workflows whose activation failed and is retried: `addQueuedWorkflowActivation`, its
    retry function, and `removeQueuedWorkflowActivation`, as steps between awaits. */
module ActivationQueue {
  import opened Common

  const WORKFLOW_REACTIVATE_INITIAL_TIMEOUT := 1000
  const WORKFLOW_REACTIVATE_MAX_TIMEOUT := 24 * 60 * 60 * 1000

  /** A queued activation; `queuedAs` tells apart the entries of one workflow. */
  datatype Entry = Entry(queuedAs: nat, lastTimeout: nat, timer: nat)

  /** A timer that has been set and neither fired nor been cleared, with its delay. */
  datatype Timer = Timer(workflowId: string, queuedAs: nat, delay: nat)

  /** A retry function that is awaiting `add`. */
  datatype Retry = Retry(workflowId: string, queuedAs: nat)

  datatype State = State(
    queue: map<string, Entry>,
    timers: map<nat, Timer>,
    retries: map<nat, Retry>,
    next: nat)

  datatype Step =
    | Queue(workflowId: string)
    | Fire(timer: nat)
    | Fail(retry: nat, isolate: bool)
    | Succeed(retry: nat)
    | Skip(retry: nat)              // archived, or no longer active
    | Refuse(retry: nat)            // blocked by policy
    | Remove(workflowId: string)

  function Init(): State { State(map[], map[], map[], 0) }

  /** Clears the timer the entry knows of. */
  function Removed(s: State, w: string): State {
    if w in s.queue then s.(queue := s.queue - {w}, timers := s.timers - {s.queue[w].timer}) else s
  }

  /** The entry is queued with a new timer. */
  function Armed(s: State, e: Entry, timer: Timer): State {
    s.(queue := s.queue[timer.workflowId := e.(timer := s.next)],
       timers := s.timers[s.next := timer],
       next := s.next + 1)
  }

  function Queued(s: State, w: string): State {
    Armed(Removed(s, w), Entry(s.next, WORKFLOW_REACTIVATE_INITIAL_TIMEOUT, s.next),
          Timer(w, s.next, WORKFLOW_REACTIVATE_INITIAL_TIMEOUT))
  }

  function Fired(s: State, t: nat): State
    requires t in s.timers
  {
    s.(timers := s.timers - {t}, retries := s.retries[t := Retry(s.timers[t].workflowId, s.timers[t].queuedAs)])
  }

  function NextTimeout(lastTimeout: nat, isolate: bool): nat {
    if !isolate && lastTimeout < WORKFLOW_REACTIVATE_MAX_TIMEOUT
    then Min(lastTimeout * 2, WORKFLOW_REACTIVATE_MAX_TIMEOUT) else lastTimeout
  }

  /** The entry after a failed retry. */
  function Delayed(e: Entry, isolate: bool): Entry {
    e.(lastTimeout := NextTimeout(e.lastTimeout, isolate))
  }

  /** The entry that is edited is whichever is queued now; its previous timer is not cleared. */
  function Failed(s: State, r: nat, isolate: bool): State
    requires r in s.retries
  {
    var w, s' := s.retries[r].workflowId, s.(retries := s.retries - {r});
    if w !in s.queue then s' else
      var e := Delayed(s.queue[w], isolate);
      Armed(s', e, Timer(w, s.retries[r].queuedAs, e.lastTimeout))
  }

  /** `add` itself takes the workflow out of the queue once it has registered everything. */
  function Succeeded(s: State, r: nat): State
    requires r in s.retries
  {
    Removed(s.(retries := s.retries - {r}), s.retries[r].workflowId)
  }

  /** `add` has returned early, without registering anything and without touching the queue. */
  function Skipped(s: State, r: nat): State
    requires r in s.retries
  {
    s.(retries := s.retries - {r})
  }

  /** Only the retry's own entry is removed. */
  function Refused(s: State, r: nat): State
    requires r in s.retries
  {
    var w, s' := s.retries[r].workflowId, s.(retries := s.retries - {r});
    if w in s.queue && s.queue[w].queuedAs == s.retries[r].queuedAs then Removed(s', w) else s'
  }

  function Apply(s: State, step: Step): State {
    match step
    case Queue(w) => Queued(s, w)
    case Fire(t) => if t in s.timers then Fired(s, t) else s
    case Fail(r, isolate) => if r in s.retries then Failed(s, r, isolate) else s
    case Succeed(r) => if r in s.retries then Succeeded(s, r) else s
    case Skip(r) => if r in s.retries then Skipped(s, r) else s
    case Refuse(r) => if r in s.retries then Refused(s, r) else s
    case Remove(w) => Removed(s, w)
  }

  function Run(s: State, steps: seq<Step>): State {
    if steps == [] then s else Apply(Run(s, steps[..|steps| - 1]), steps[|steps| - 1])
  }

  // ---------- backoff ----------

  function Backoff(failures: nat): nat { Min(1000 * Pow2(failures), 86400000) }

  lemma BackoffStep(failures: nat)
    ensures NextTimeout(Backoff(failures), false) == Backoff(failures + 1)
    ensures NextTimeout(Backoff(failures), true) == Backoff(failures)
  {}

  ghost predicate RetryOf(s: State, r: nat, w: string) { r in s.retries && s.retries[r].workflowId == w }

  /** How many retries of a workflow have failed in a run since it was queued last, isolate errors not counted. */
  ghost function Failures(steps: seq<Step>, w: string): nat {
    if steps == [] then 0 else
      var n := |steps| - 1;
      match steps[n]
      case Queue(x) => if x == w then 0 else Failures(steps[..n], w)
      case Fail(r, isolate) =>
        Failures(steps[..n], w) + if !isolate && RetryOf(Run(Init(), steps[..n]), r, w) then 1 else 0
      case _ => Failures(steps[..n], w)
  }

  // ---------- every run ----------

  /** Something that will try to activate a workflow, or is trying: an armed timer or a retry. */
  predicate Live(s: State, h: nat) { h in s.timers || h in s.retries }

  function TriesFor(s: State, h: nat): Retry
    requires Live(s, h)
  {
    if h in s.timers then Retry(s.timers[h].workflowId, s.timers[h].queuedAs) else s.retries[h]
  }

  /** Handles are never reused, no queueing has two timers or retries, and the timer an entry knows of, as long
      as it is armed, has the entry's delay. */
  ghost predicate Fresh(s: State) {
    && (forall h: nat :: Live(s, h) ==> h < s.next && TriesFor(s, h).queuedAs < s.next)
    && (forall h: nat :: h in s.timers ==> h !in s.retries)
    && (forall h: nat, k: nat ::
          Live(s, h) && Live(s, k) && TriesFor(s, h).queuedAs == TriesFor(s, k).queuedAs ==> h == k)
    && (forall w :: w in s.queue ==> FreshEntry(s, w))
  }

  ghost predicate FreshEntry(s: State, w: string)
    requires w in s.queue
  {
    var e := s.queue[w];
    && e.timer < s.next && e.queuedAs < s.next
    && (e.timer in s.timers ==> s.timers[e.timer].workflowId == w && s.timers[e.timer].delay == e.lastTimeout)
  }

  /** Nothing is queued, armed or tried that was not before, and no handle is given out. */
  ghost predicate Shrinks(s: State, s': State) {
    && s'.next == s.next
    && (forall t :: t in s'.timers ==> t in s.timers && s'.timers[t] == s.timers[t])
    && (forall r :: r in s'.retries ==> r in s.retries && s'.retries[r] == s.retries[r])
    && (forall w :: w in s'.queue ==> w in s.queue && s'.queue[w] == s.queue[w])
  }

  lemma ShrinkingKeepsFresh(s: State, s': State)
    requires Fresh(s) && Shrinks(s, s')
    ensures Fresh(s')
  {
    forall h: nat | Live(s', h) ensures h !in s.timers || h !in s.retries { assert Live(s, h); }
    forall h: nat | Live(s', h) ensures Live(s, h) && TriesFor(s', h) == TriesFor(s, h) {}
    forall w | w in s'.queue ensures FreshEntry(s', w) { assert FreshEntry(s, w); }
  }

  lemma FiringKeepsFresh(s: State, t: nat)
    requires Fresh(s) && t in s.timers
    ensures Fresh(Fired(s, t))
  {
    var s' := Fired(s, t);
    forall h: nat | Live(s', h) ensures Live(s, h) && TriesFor(s', h) == TriesFor(s, h) {}
    forall w | w in s'.queue ensures FreshEntry(s', w) { assert FreshEntry(s, w); }
  }

  lemma ArmingKeepsFresh(s: State, e: Entry, timer: Timer)
    requires Fresh(s) && e.queuedAs <= s.next && timer.queuedAs <= s.next && timer.delay == e.lastTimeout
    requires forall h: nat :: Live(s, h) ==> TriesFor(s, h).queuedAs != timer.queuedAs
    ensures Fresh(Armed(s, e, timer))
  {
    var s' := Armed(s, e, timer);
    assert !Live(s, s.next);
    forall h: nat | Live(s', h) && h != s.next ensures Live(s, h) && TriesFor(s', h) == TriesFor(s, h) {}
    assert TriesFor(s', s.next).queuedAs == timer.queuedAs;
    forall w | w in s'.queue ensures FreshEntry(s', w) {
      if w != timer.workflowId { assert FreshEntry(s, w); }
    }
  }

  lemma ApplyKeepsFresh(s: State, step: Step)
    requires Fresh(s)
    ensures Fresh(Apply(s, step))
  {
    match step
    case Queue(w) =>
      ShrinkingKeepsFresh(s, Removed(s, w));
      ArmingKeepsFresh(Removed(s, w), Entry(s.next, WORKFLOW_REACTIVATE_INITIAL_TIMEOUT, s.next),
                       Timer(w, s.next, WORKFLOW_REACTIVATE_INITIAL_TIMEOUT));
    case Fire(t) => if t in s.timers { FiringKeepsFresh(s, t); }
    case Fail(r, isolate) => if r in s.retries { FailingKeepsFresh(s, r, isolate); }
    case _ => ShrinkingKeepsFresh(s, Apply(s, step));
  }

  lemma FailingKeepsFresh(s: State, r: nat, isolate: bool)
    requires Fresh(s) && r in s.retries
    ensures Fresh(Failed(s, r, isolate))
  {
    ShrinkingKeepsFresh(s, Skipped(s, r));
    var w := s.retries[r].workflowId;
    if w in s.queue {
      assert FreshEntry(s, w) && Live(s, r);
      var e, ended := Delayed(s.queue[w], isolate), Skipped(s, r);
      forall h: nat | Live(ended, h) ensures TriesFor(ended, h).queuedAs != s.retries[r].queuedAs {
        assert Live(s, h) && TriesFor(s, h) == TriesFor(ended, h);
      }
      ArmingKeepsFresh(ended, e, Timer(w, s.retries[r].queuedAs, e.lastTimeout));
    }
  }

  lemma {:induction false} RunsAreFresh(steps: seq<Step>)
    ensures Fresh(Run(Init(), steps))
  {
    if steps != [] {
      var n := |steps| - 1;
      RunsAreFresh(steps[..n]);
      ApplyKeepsFresh(Run(Init(), steps[..n]), steps[n]);
    }
  }

  /** In every run, re-queues during a retry included, the delay kept for a queued workflow is that of its
      failures. */
  lemma {:induction false} DelayFollowsFailures(steps: seq<Step>, w: string)
    ensures var s := Run(Init(), steps);
      w in s.queue ==> s.queue[w].lastTimeout == Backoff(Failures(steps, w))
  {
    if steps != [] {
      var n := |steps| - 1;
      DelayFollowsFailures(steps[..n], w);
      BackoffStep(Failures(steps[..n], w));
    }
  }

  /** And it is the delay of the timer its entry knows of. */
  lemma OwnTimerFollowsFailures(steps: seq<Step>, w: string)
    ensures var s := Run(Init(), steps);
      w in s.queue && s.queue[w].timer in s.timers ==>
        s.timers[s.queue[w].timer] == Timer(w, s.timers[s.queue[w].timer].queuedAs, Backoff(Failures(steps, w)))
  {
    RunsAreFresh(steps);
    DelayFollowsFailures(steps, w);
    var s := Run(Init(), steps);
    assert w in s.queue ==> FreshEntry(s, w);
  }

  /** A queued workflow has a timer or a retry of its own entry. */
  ghost predicate Attended(s: State, w: string) {
    w in s.queue ==> exists h: nat :: Live(s, h) && TriesFor(s, h) == Retry(w, s.queue[w].queuedAs)
  }

  /** `add` returns early in a retry whose entry is queued. */
  predicate Strands(s: State, step: Step, w: string) {
    && step.Skip? && step.retry in s.retries && w in s.queue
    && s.retries[step.retry] == Retry(w, s.queue[w].queuedAs)
  }

  /** An early return of `add` in the entry's own retry is the only thing that leaves a queued workflow
      without anything that will try to activate it, and always does. */
  lemma AttendedIff(s: State, step: Step, w: string)
    requires Fresh(s) && Attended(s, w)
    ensures Attended(Apply(s, step), w) <==> !Strands(s, step, w)
  {
    var s' := Apply(s, step);
    if Strands(s, step, w) {
      assert Live(s, step.retry);
      forall h: nat | Live(s', h) ensures TriesFor(s', h) != s.retries[step.retry] {
        assert Live(s, h) && TriesFor(s', h) == TriesFor(s, h);
      }
    } else if step == Queue(w) {
      assert Live(s', s.next);
    } else if w in s'.queue {
      var h: nat :| Live(s, h) && TriesFor(s, h) == Retry(w, s.queue[w].queuedAs);
      if step.Fail? && step.retry == h && h in s.retries {
        assert Live(s', s.next);
      } else {
        TryGoesOn(s, step, w, h);
      }
    }
  }

  lemma TryGoesOn(s: State, step: Step, w: string, h: nat)
    requires Fresh(s) && w in s.queue && Live(s, h) && TriesFor(s, h) == Retry(w, s.queue[w].queuedAs)
    requires step != Queue(w) && w in Apply(s, step).queue && !Strands(s, step, w)
    requires !(step.Fail? && step.retry == h && h in s.retries)
    ensures Live(Apply(s, step), h) && TriesFor(Apply(s, step), h) == TriesFor(s, h)
    ensures Apply(s, step).queue[w].queuedAs == s.queue[w].queuedAs
  {
    assert !Live(s, s.next);
    match step
    case Queue(x) => if x in s.queue { assert FreshEntry(s, x); }
    case Remove(x) => if x in s.queue { assert FreshEntry(s, x); }
    case Succeed(r) =>
      if r in s.retries && s.retries[r].workflowId in s.queue { assert FreshEntry(s, s.retries[r].workflowId); }
    case Refuse(r) =>
      if r in s.retries && s.retries[r].workflowId in s.queue { assert FreshEntry(s, s.retries[r].workflowId); }
    case _ =>
  }

  ghost predicate StrandedNowhere(steps: seq<Step>, w: string) {
    steps == [] || (StrandedNowhere(steps[..|steps| - 1], w) &&
                    !Strands(Run(Init(), steps[..|steps| - 1]), steps[|steps| - 1], w))
  }

  /** Whatever is queued, removed and retried in between: unless `add` returns early in its own retry, a
      queued workflow is always about to be tried again. */
  lemma {:induction false} QueuedIsTriedAgain(steps: seq<Step>, w: string)
    requires StrandedNowhere(steps, w)
    ensures Attended(Run(Init(), steps), w)
  {
    if steps != [] {
      var n := |steps| - 1;
      QueuedIsTriedAgain(steps[..n], w);
      RunsAreFresh(steps[..n]);
      AttendedIff(Run(Init(), steps[..n]), steps[n], w);
    }
  }

  /** The queued entry gives way: a new one replaces it, `add` succeeds, somebody removes it, or its own retry
      is refused by policy. */
  ghost predicate TakesAway(s: State, step: Step, w: string)
    requires w in s.queue
  {
    match step
    case Queue(x) => x == w
    case Remove(x) => x == w
    case Succeed(r) => RetryOf(s, r, w)
    case Refuse(r) => RetryOf(s, r, w) && s.retries[r].queuedAs == s.queue[w].queuedAs
    case _ => false
  }

  /** Over all runs: nothing else takes an entry away. In particular a refused retry leaves alone the entry
      of a workflow that has been queued again in the meantime. */
  lemma EntryStaysIff(steps: seq<Step>, step: Step, w: string)
    requires w in Run(Init(), steps).queue
    ensures var s, s' := Run(Init(), steps), Apply(Run(Init(), steps), step);
      (w in s'.queue && s'.queue[w].queuedAs == s.queue[w].queuedAs) <==> !TakesAway(s, step, w)
  {
    RunsAreFresh(steps);
    assert FreshEntry(Run(Init(), steps), w);
  }

  // ---------- a workflow that is not queued again during its retry ----------

  ghost predicate TimerOf(s: State, t: nat, w: string) { t in s.timers && s.timers[t].workflowId == w }

  ghost predicate RetryInFlight(s: State, w: string) { exists r :: RetryOf(s, r, w) }

  /** The workflow is not queued while one of its retries is under way. */
  ghost predicate NoOverlap(s: State, step: Step, w: string) { step == Queue(w) ==> !RetryInFlight(s, w) }

  ghost predicate NoOverlapRun(steps: seq<Step>, w: string) {
    steps == [] || (NoOverlapRun(steps[..|steps| - 1], w) &&
                    NoOverlap(Run(Init(), steps[..|steps| - 1]), steps[|steps| - 1], w))
  }

  /** The timer is the one the workflow's entry knows of, and has the entry's delay and identity. */
  ghost predicate TimerKnown(s: State, t: nat, w: string)
    requires t in s.timers
  {
    && w in s.queue && s.queue[w].timer == t && s.queue[w].queuedAs == s.timers[t].queuedAs
    && s.timers[t].delay == s.queue[w].lastTimeout && !RetryInFlight(s, w)
  }

  /** The workflow has at most one timer or retry, and that is its entry's. */
  ghost predicate Orderly(s: State, w: string) {
    && (forall t :: TimerOf(s, t, w) ==> TimerKnown(s, t, w))
    && (forall r :: RetryOf(s, r, w) && w in s.queue ==> s.queue[w].queuedAs == s.retries[r].queuedAs)
    && (forall r, q :: RetryOf(s, r, w) && RetryOf(s, q, w) ==> r == q)
  }

  /** Queueing the workflow during its own retry is the only way out of this order, and always leads out. */
  lemma NoOverlapIff(s: State, step: Step, w: string)
    requires Fresh(s) && Orderly(s, w)
    ensures Orderly(Apply(s, step), w) <==> NoOverlap(s, step, w)
  {
    var s' := Apply(s, step);
    if NoOverlap(s, step, w) {
      ApplyKeepsOrderly(s, step, w);
    } else {
      var r :| RetryOf(s, r, w);
      assert TimerOf(s', s.next, w) && RetryOf(s', r, w);
    }
  }

  lemma ApplyKeepsOrderly(s: State, step: Step, w: string)
    requires Fresh(s) && Orderly(s, w) && NoOverlap(s, step, w)
    ensures Orderly(Apply(s, step), w)
  {
    match step
    case Queue(x) => QueueingKeepsOrderly(s, x, w);
    case Fire(t) => if t in s.timers { FiringKeepsOrderly(s, t, w); }
    case Fail(r, isolate) => if r in s.retries { FailingKeepsOrderly(s, r, isolate, w); }
    case Remove(x) => RemovingKeepsOrderly(s, x, w);
    case Succeed(r) => if r in s.retries { EndingKeepsOrderly(s, r, w); }
    case Skip(r) => if r in s.retries { EndingKeepsOrderly(s, r, w); }
    case Refuse(r) => if r in s.retries { EndingKeepsOrderly(s, r, w); }
  }

  lemma RemovingKeepsOrderly(s: State, x: string, w: string)
    requires Orderly(s, w)
    ensures Orderly(Removed(s, x), w) && (x == w ==> forall t :: !TimerOf(Removed(s, x), t, w))
  {
    var s' := Removed(s, x);
    forall t | TimerOf(s', t, w) ensures x != w && w in s'.queue { assert TimerOf(s, t, w) && TimerKnown(s, t, w); }
    ShrinkingKeepsOrderly(s, s', w);
  }

  lemma EndingKeepsOrderly(s: State, r: nat, w: string)
    requires Orderly(s, w) && r in s.retries
    ensures Orderly(Skipped(s, r), w) && Orderly(Removed(Skipped(s, r), s.retries[r].workflowId), w)
  {
    ShrinkingKeepsOrderly(s, Skipped(s, r), w);
    RemovingKeepsOrderly(Skipped(s, r), s.retries[r].workflowId, w);
  }

  lemma QueueingKeepsOrderly(s: State, x: string, w: string)
    requires Fresh(s) && Orderly(s, w) && NoOverlap(s, Queue(x), w)
    ensures Orderly(Queued(s, x), w)
  {
    var removed := Removed(s, x);
    RemovingKeepsOrderly(s, x, w);
    ShrinkingKeepsFresh(s, removed);
    if x == w { assert forall r :: RetryOf(removed, r, w) ==> RetryOf(s, r, w); }
    ArmingKeepsOrderly(removed, Entry(s.next, WORKFLOW_REACTIVATE_INITIAL_TIMEOUT, s.next),
                       Timer(x, s.next, WORKFLOW_REACTIVATE_INITIAL_TIMEOUT), w);
  }

  lemma ShrinkingKeepsOrderly(s: State, s': State, w: string)
    requires Orderly(s, w) && Shrinks(s, s')
    requires forall t :: TimerOf(s, t, w) && TimerOf(s', t, w) ==> w in s'.queue
    ensures Orderly(s', w)
  {
    forall r | RetryOf(s', r, w) ensures RetryOf(s, r, w) {}
    forall t | TimerOf(s', t, w) ensures TimerKnown(s', t, w) { assert TimerOf(s, t, w); }
  }

  lemma ArmingKeepsOrderly(s: State, e: Entry, timer: Timer, w: string)
    requires Fresh(s) && Orderly(s, w)
    requires timer.workflowId == w ==>
      && !RetryInFlight(s, w) && timer.queuedAs == e.queuedAs && timer.delay == e.lastTimeout
      && forall t :: !TimerOf(s, t, w)
    ensures Orderly(Armed(s, e, timer), w)
  {
    var s' := Armed(s, e, timer);
    assert !Live(s, s.next);
    forall r | RetryOf(s', r, w) ensures RetryOf(s, r, w) {}
    forall t | TimerOf(s', t, w) ensures TimerKnown(s', t, w) { if t != s.next { assert TimerOf(s, t, w); } }
  }

  lemma FiringKeepsOrderly(s: State, t: nat, w: string)
    requires Fresh(s) && Orderly(s, w) && t in s.timers
    ensures Orderly(Fired(s, t), w)
  {
    var s' := Fired(s, t);
    if TimerOf(s, t, w) { assert TimerKnown(s, t, w); }
    forall r | RetryOf(s', r, w) && r != t ensures RetryOf(s, r, w) {}
    forall u | TimerOf(s', u, w) ensures TimerKnown(s', u, w) { assert TimerOf(s, u, w); }
  }

  lemma RetryExcludesTimers(s: State, r: nat, w: string)
    requires Orderly(s, w) && RetryOf(s, r, w)
    ensures forall t :: !TimerOf(s, t, w)
  {
    assert RetryInFlight(s, w);
  }

  lemma FailingKeepsOrderly(s: State, r: nat, isolate: bool, w: string)
    requires Fresh(s) && Orderly(s, w) && r in s.retries
    ensures Orderly(Failed(s, r, isolate), w)
  {
    var x, ended := s.retries[r].workflowId, Skipped(s, r);
    ShrinkingKeepsOrderly(s, ended, w);
    ShrinkingKeepsFresh(s, ended);
    if x in s.queue {
      if x == w {
        RetryExcludesTimers(s, r, w);
        assert RetryOf(s, r, w);
        assert forall q :: RetryOf(ended, q, w) ==> RetryOf(s, q, w) && q != r;
        assert forall t :: TimerOf(ended, t, w) ==> TimerOf(s, t, w);
      }
      var e := Delayed(s.queue[x], isolate);
      ArmingKeepsOrderly(ended, e, Timer(x, s.retries[r].queuedAs, e.lastTimeout), w);
    }
  }

  /** Over all runs in which the workflow, whatever happens to others, is not queued during its own retry: it
      has at most one armed timer, it is queued while it has one, and after k failures since it was queued, as
      the run counts them, the delay is min(1000 * 2^k, one day). */
  lemma {:induction false} OneTimerWithBackoff(steps: seq<Step>, w: string)
    requires NoOverlapRun(steps, w)
    ensures var s := Run(Init(), steps);
      && Fresh(s) && Orderly(s, w)
      && (forall t, u :: TimerOf(s, t, w) && TimerOf(s, u, w) ==> t == u)
      && (forall t :: TimerOf(s, t, w) ==> w in s.queue && s.timers[t].delay == Backoff(Failures(steps, w)))
  {
    if steps != [] {
      var n := |steps| - 1;
      OneTimerWithBackoff(steps[..n], w);
      ApplyKeepsOrderly(Run(Init(), steps[..n]), steps[n], w);
    }
    RunsAreFresh(steps);
    DelayFollowsFailures(steps, w);
    var s := Run(Init(), steps);
    forall t | TimerOf(s, t, w) ensures TimerKnown(s, t, w) {}
  }

  /** In such runs, removal, success, refusal by policy and an early return of `add` all leave the workflow
      without a timer. The first three take it out of the queue: the entry a refused retry finds, if any, is
      its own. After an early return the entry stays, with nothing that will try it again. */
  lemma NothingLeftBehind(steps: seq<Step>, step: Step, w: string)
    requires NoOverlapRun(steps, w)
    requires step == Remove(w) ||
      ((step.Succeed? || step.Refuse? || step.Skip?) && RetryOf(Run(Init(), steps), step.retry, w))
    ensures var s, s' := Run(Init(), steps), Apply(Run(Init(), steps), step);
      && (forall t :: !TimerOf(s', t, w))
      && (!step.Skip? ==> w !in s'.queue)
      && (step.Skip? ==> s'.queue == s.queue && (w in s.queue ==> !Attended(s', w)))
  {
    OneTimerWithBackoff(steps, w);
    var s, s' := Run(Init(), steps), Apply(Run(Init(), steps), step);
    assert forall t :: TimerOf(s', t, w) ==> TimerOf(s, t, w);
    if step == Remove(w) {
      RemovingKeepsOrderly(s, w, w);
    } else {
      RetryExcludesTimers(s, step.retry, w);
      forall h: nat | Live(s', h) ensures TriesFor(s', h).workflowId != w {
        assert !TimerOf(s, h, w) && (RetryOf(s, h, w) ==> h == step.retry);
      }
    }
  }

  // ---------- the window ----------

  ghost function TimersOf(s: State, w: string): set<nat> {
    set t | t in s.timers && s.timers[t].workflowId == w
  }

  /** A failing retry sets one more timer for its workflow, whatever timers there are: at most one is left
      exactly when the workflow is no longer queued or had no armed timer. */
  lemma FailingRetryArmsSecondTimerIff(s: State, r: nat, isolate: bool)
    requires Fresh(s) && r in s.retries && |TimersOf(s, s.retries[r].workflowId)| <= 1
    ensures var w := s.retries[r].workflowId;
      |TimersOf(Failed(s, r, isolate), w)| <= 1 <==> w !in s.queue || TimersOf(s, w) == {}
  {
    var w := s.retries[r].workflowId;
    assert !Live(s, s.next);
    if w in s.queue {
      assert TimersOf(Failed(s, r, isolate), w) == TimersOf(s, w) + {s.next};
    } else {
      assert TimersOf(Failed(s, r, isolate), w) == TimersOf(s, w);
    }
  }

  /** Queueing a workflow again during its retry, and then removing it, leaves a timer that will still try
      to activate it. */
  lemma RequeueDuringRetryLeavesTimer(w: string) returns (steps: seq<Step>)
    ensures steps == [Queue(w), Fire(0), Queue(w), Fail(0, false), Remove(w)]
    ensures var s := Run(Init(), steps); w !in s.queue && 1 in s.timers && s.timers[1].workflowId == w
  {
    var s := Init();
    steps := [];
    steps, s := Extend(steps, s, Queue(w));
    steps, s := Extend(steps, s, Fire(0));
    steps, s := Extend(steps, s, Queue(w));
    steps, s := Extend(steps, s, Fail(0, false));
    steps, s := Extend(steps, s, Remove(w));
  }

  lemma Extend(steps: seq<Step>, now: State, step: Step) returns (steps': seq<Step>, now': State)
    requires now == Run(Init(), steps)
    ensures steps' == steps + [step] && now' == Apply(now, step) && now' == Run(Init(), steps')
  {
    steps', now' := steps + [step], Apply(now, step);
    assert (steps + [step])[..|steps|] == steps;
  }

  // ---------- the manager's queue as it is updated in place ----------

  class ActivationQueue {
    var queuedActivations: map<string, Entry>
    var timers: map<nat, Timer>
    var retries: map<nat, Retry>
    var next: nat

    function Contents(): State
      reads this
    {
      State(queuedActivations, timers, retries, next)
    }

    constructor ()
      ensures Contents() == Init()
    {
      queuedActivations, timers, retries, next := map[], map[], map[], 0;
    }

    method AddQueuedWorkflowActivation(workflowId: string)
      modifies this
      ensures Contents() == Apply(old(Contents()), Queue(workflowId))
    {
      RemoveQueuedWorkflowActivation(workflowId);
      var timeout := SetTimeout(workflowId, next, WORKFLOW_REACTIVATE_INITIAL_TIMEOUT);
      var entry := Entry(timeout, WORKFLOW_REACTIVATE_INITIAL_TIMEOUT, timeout);
      queuedActivations := queuedActivations[workflowId := entry];
    }

    method SetTimeout(workflowId: string, queuedAs: nat, delay: nat) returns (timer: nat)
      modifies this`timers, this`next
      ensures timer == old(next) && next == old(next) + 1
      ensures timers == old(timers)[timer := Timer(workflowId, queuedAs, delay)]
    {
      timer := next;
      timers := timers[timer := Timer(workflowId, queuedAs, delay)];
      next := next + 1;
    }

    method RemoveQueuedWorkflowActivation(workflowId: string)
      modifies this`queuedActivations, this`timers
      ensures Contents() == Apply(old(Contents()), Remove(workflowId))
    {
      if workflowId in queuedActivations {
        timers := timers - {queuedActivations[workflowId].timer};
        queuedActivations := queuedActivations - {workflowId};
      }
    }

    /** The retry function starts: its timer has fired and `add` is awaited. */
    method RetryStarts(timer: nat)
      requires timer in timers
      modifies this`timers, this`retries
      ensures Contents() == Apply(old(Contents()), Fire(timer))
    {
      retries := retries[timer := Retry(timers[timer].workflowId, timers[timer].queuedAs)];
      timers := timers - {timer};
    }

    method RetryFails(retry: nat, isolateError: bool)
      requires retry in retries
      modifies this
      ensures Contents() == Apply(old(Contents()), Fail(retry, isolateError))
    {
      var own := retries[retry];
      retries := retries - {retry};
      if own.workflowId !in queuedActivations { return; }
      var queued := queuedActivations[own.workflowId];
      var lastTimeout := queued.lastTimeout;
      if !isolateError && lastTimeout < WORKFLOW_REACTIVATE_MAX_TIMEOUT {
        lastTimeout := Min(lastTimeout * 2, WORKFLOW_REACTIVATE_MAX_TIMEOUT);
      }
      var timeout := SetTimeout(own.workflowId, own.queuedAs, lastTimeout);
      queuedActivations := queuedActivations[own.workflowId := Entry(queued.queuedAs, lastTimeout, timeout)];
    }

    method RetrySucceeds(retry: nat)
      requires retry in retries
      modifies this
      ensures Contents() == Apply(old(Contents()), Succeed(retry))
    {
      var own := retries[retry];
      retries := retries - {retry};
      RemoveQueuedWorkflowActivation(own.workflowId);
    }

    method RetrySkipped(retry: nat)
      requires retry in retries
      modifies this`retries
      ensures Contents() == Apply(old(Contents()), Skip(retry))
    {
      retries := retries - {retry};
    }

    method RetryRefused(retry: nat)
      requires retry in retries
      modifies this
      ensures Contents() == Apply(old(Contents()), Refuse(retry))
    {
      var own := retries[retry];
      retries := retries - {retry};
      if own.workflowId in queuedActivations && queuedActivations[own.workflowId].queuedAs == own.queuedAs {
        RemoveQueuedWorkflowActivation(own.workflowId);
      }
    }
  }
}
