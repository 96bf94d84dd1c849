/** What has become of a registered execution: in every run of `ExecutionLifecycle` its status is the one set
    last, and its promise is decided by the first end or stop that reached it. */
module Settlements {
  import opened Common
  import opened ConcurrencyQueue
  import opened ExecutionLifecycle
  import opened ExecutionTable

  /** What is known of a registered call from the steps that reached it. */
  datatype Account = Account(status: Status, settled: Settlement)

  /** The id leads to the call. */
  predicate LeadsTo(s: State, id: string, k: nat) { id in s.active && s.active[id] == k }

  predicate RegistersCall(s: State, step: Step, k: nat) {
    step.Register? && step.call == k && k in s.calls && s.calls[k].phase == Reserved
  }

  /** The first settlement counts. */
  function Decided(a: Account, how: Settlement): Account { if a.settled == Pending then a.(settled := how) else a }

  /** Looks only at the step, at whom its id leads to, and at the account so far. */
  function Heard(a: Account, s: State, step: Step, k: nat): Account {
    match step
    case SetStatus(id, status) => if LeadsTo(s, id, k) then a.(status := status) else a
    case Finalize(id) => if LeadsTo(s, id, k) then Decided(a, Resolved) else a
    case Stop(id) => if LeadsTo(s, id, k) && a.status != Waiting then Decided(a, Rejected) else a
    case _ => a
  }

  /** The account of a call in a run, from its registration on. */
  ghost function AccountOf(s: State, steps: seq<Step>, k: nat): Option<Account> {
    if steps == [] then None else
      var n := |steps| - 1;
      var before, so := Run(s, steps[..n]), AccountOf(s, steps[..n], k);
      if RegistersCall(before, steps[n], k) then Some(Account(Running, Pending))
      else if so.Some? then Some(Heard(so.value, before, steps[n], k)) else None
  }

  ghost predicate IsAccount(s: State, k: nat, a: Option<Account>) {
    if k in s.calls && s.calls[k].phase == Registered then a == Some(Account(s.calls[k].status, s.calls[k].settled))
    else a == None
  }

  lemma StepKeepsAccount(s: State, step: Step, k: nat, a: Option<Account>)
    requires Valid(s) && IsAccount(s, k, a) && !RegistersCall(s, step, k)
    ensures IsAccount(Apply(s, step), k, if a.Some? then Some(Heard(a.value, s, step, k)) else None)
  {
    if IsQueueStep(step) {
      QueueStepsKeepRegistered(s, step);
    } else if step.Callback? {
      if CallbackDue(s, step.call) { CallbackKeepsRegistered(s, step.call); }
    }
  }

  /** In every run a registered execution has the status set last through its id, `running` if none was; and
      its promise is resolved or rejected as the first end of a run, or stop of an execution not marked
      waiting, that reached it has decided, and pending if none did. */
  lemma {:induction false} CallsAreAsAccounted(limit: nat, steps: seq<Step>, k: nat)
    ensures IsAccount(Run(Init(limit), steps), k, AccountOf(Init(limit), steps, k))
  {
    if steps != [] {
      var n := |steps| - 1;
      var before := Run(Init(limit), steps[..n]);
      CallsAreAsAccounted(limit, steps[..n], k);
      CapacityIsConserved(limit, steps[..n]);
      if !RegistersCall(before, steps[n], k) {
        StepKeepsAccount(before, steps[n], k, AccountOf(Init(limit), steps[..n], k));
      }
    }
  }
}
