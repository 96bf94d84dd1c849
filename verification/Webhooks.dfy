/** The webhook table: `ActiveWorkflowManager.addWebhooks` with its rollback, `clearWebhooks`, and
    the database accesses of `storeWebhook` and `deleteWorkflowWebhooks` as they interleave. */
module Webhooks {

  import opened Common

  /** The primary key of the table. */
  datatype Key = Key(path: string, method_: string)

  datatype Row = Row(workflowId: string, node: string)

  type Table = map<Key, Row>

  function RowsOf(table: Table, workflowId: string): set<Key> {
    set key | key in table && table[key].workflowId == workflowId
  }

  /** A row of another workflow neither appears, disappears nor changes under this key. */
  predicate UntouchedAt(before: Table, after: Table, workflowId: string, key: Key) {
    OwnedByOther(before, workflowId, key) || OwnedByOther(after, workflowId, key) ==>
      key in before && key in after && after[key] == before[key]
  }

  ghost predicate OthersUntouched(before: Table, after: Table, workflowId: string) {
    forall key :: UntouchedAt(before, after, workflowId, key)
  }

  lemma OthersUntouchedTransitive(a: Table, b: Table, c: Table, workflowId: string)
    requires OthersUntouched(a, b, workflowId) && OthersUntouched(b, c, workflowId)
    ensures OthersUntouched(a, c, workflowId)
  {
    forall key ensures UntouchedAt(a, c, workflowId, key) {
      assert UntouchedAt(a, b, workflowId, key) && UntouchedAt(b, c, workflowId, key);
    }
  }

  // ---------- activation of one workflow ----------

  datatype Error = PathTaken | QueryFailed | External

  datatype Activation = Init | LeadershipChange | Update | Activate

  /** What goes wrong for one webhook, if anything: each of the three database accesses of its own account,
      and its registration with the external service. */
  datatype Weather = Weather(
    insert: Option<Error>,
    lookup: Option<Error>,
    update: Option<Error>,
    external: Option<Error>)

  predicate Calm(w: Weather) { w.insert.None? && w.lookup.None? && w.update.None? }

  datatype Result = NothingToAdd | Added | Threw(error: Error)

  /** A database failure is reported as a taken path. */
  function Reported(error: Error): Error { if error == QueryFailed then PathTaken else error }

  predicate Tolerates(activation: Activation, error: Error) {
    activation in {Init, LeadershipChange} && error == QueryFailed
  }

  predicate Fatal(activation: Activation, error: Option<Error>) {
    error.Some? && !Tolerates(activation, error.value)
  }

  predicate PassedOver(activation: Activation, error: Option<Error>) {
    error.Some? && Tolerates(activation, error.value)
  }

  predicate OwnedByOther(table: Table, workflowId: string, key: Key) {
    key in table && table[key].workflowId != workflowId
  }

  predicate Registered(table: Table, workflowId: string, key: Key) {
    key in table && table[key].workflowId == workflowId
  }

  /** Why storing a webhook fails: a free path if the insert is refused, a path of another workflow always,
      a path of the same workflow only if refreshing the row fails. */
  function StoreError(table: Table, workflowId: string, key: Key, w: Weather): Option<Error> {
    if key !in table && w.insert.None? then None
    else if w.lookup.Some? then w.lookup
    else if key !in table then w.insert
    else if OwnedByOther(table, workflowId, key) then Some(PathTaken)
    else w.update
  }

  /** A reason for the whole activation to throw. */
  predicate Blocks(before: Table, workflowId: string, key: Key, activation: Activation, w: Weather) {
    || OwnedByOther(before, workflowId, key)
    || Fatal(activation, w.insert) || Fatal(activation, w.lookup) || Fatal(activation, w.update)
    || Fatal(activation, w.external)
  }

  /** A fatal error is thrown as it is, but a failed query as a taken path. */
  predicate ThrownAs(activation: Activation, cause: Option<Error>, error: Error) {
    Fatal(activation, cause) && (error == cause.value || (cause.value == QueryFailed && error == PathTaken))
      && error != QueryFailed
  }

  predicate MayThrow(before: Table, workflowId: string, key: Key, activation: Activation, w: Weather, error: Error) {
    || (OwnedByOther(before, workflowId, key) && error == PathTaken)
    || ThrownAs(activation, w.insert, error) || ThrownAs(activation, w.lookup, error)
    || ThrownAs(activation, w.update, error) || ThrownAs(activation, w.external, error)
  }

  /** Registered, or passed over on startup or takeover because the database failed. */
  predicate Handled(table: Table, workflowId: string, key: Key, activation: Activation, w: Weather) {
    || Registered(table, workflowId, key)
    || PassedOver(activation, w.insert) || PassedOver(activation, w.lookup) || PassedOver(activation, w.update)
  }

  datatype Webhook = Webhook(key: Key, node: string)

  predicate IsRow(table: Table, workflowId: string, webhook: Webhook) {
    webhook.key in table && table[webhook.key] == Row(workflowId, webhook.node)
  }

  /** A row is as before, or that of one of these webhooks. */
  ghost predicate OnlyWrites(before: Table, after: Table, workflowId: string, webhooks: seq<Webhook>) {
    forall key :: SameAt(before, after, key) || exists webhook ::
      webhook in webhooks && webhook.key == key && IsRow(after, workflowId, webhook)
  }

  predicate SameAt(before: Table, after: Table, key: Key) {
    (key in after <==> key in before) && (key in before ==> after[key] == before[key])
  }

  /** Of the webhooks with one key the last counts. */
  predicate IsLastOfKey(webhooks: seq<Webhook>, i: nat)
    requires i < |webhooks|
  {
    forall j :: i < j < |webhooks| ==> webhooks[j].key != webhooks[i].key
  }

  /** Where the database did not fail the last webhook of a key is stored under it. */
  predicate LastIsStored(table: Table, workflowId: string, webhooks: seq<Webhook>, weather: seq<Weather>)
    requires |weather| == |webhooks|
  {
    forall i: nat :: i < |webhooks| && Calm(weather[i]) && IsLastOfKey(webhooks, i) ==>
      IsRow(table, workflowId, webhooks[i])
  }

  class WebhookRegistry {
    var table: Table

    constructor ()
      ensures table == map[]
    {
      table := map[];
    }

    /** Registers on the primary key, and never over a path owned by another workflow. */
    method StoreWebhook(key: Key, row: Row, w: Weather) returns (error: Option<Error>)
      modifies this
      ensures error == StoreError(old(table), row.workflowId, key, w)
      ensures table == if error.None? then old(table)[key := row] else old(table)
      ensures error.None? ==> !OwnedByOther(old(table), row.workflowId, key)
    {
      if w.insert.None? && key !in table {
        table := table[key := row];
        return None;
      }
      if w.lookup.Some? { return w.lookup; }
      if key !in table { return w.insert; }
      if table[key].workflowId != row.workflowId { return Some(PathTaken); }
      if w.update.Some? { return w.update; }
      table := table[key := row];
      return None;
    }

    /** Fails before touching the table if the workflow cannot be loaded or deregistering throws. */
    method ClearWebhooks(workflowId: string, fails: bool) returns (ok: bool)
      modifies this
      ensures ok <==> !fails
      ensures !ok ==> table == old(table)
      ensures ok ==> RowsOf(table, workflowId) == {} && table.Keys == old(table.Keys) - RowsOf(old(table), workflowId)
      ensures OthersUntouched(old(table), table, workflowId)
    {
      if fails { return false; }
      var webhooks := RowsOf(table, workflowId);
      table := table - webhooks;
      return true;
    }

    /** `weather[i]` is what happens to webhook `i`; `rollbackFails` what happens to the clean-up. */
    method AddWebhooks(workflowId: string, webhooks: seq<Webhook>, activation: Activation,
                       weather: seq<Weather>, rollbackFails: bool) returns (result: Result)
      requires |weather| == |webhooks|
      modifies this
      ensures OthersUntouched(old(table), table, workflowId)
      ensures result == NothingToAdd <==> webhooks == []
      ensures result.Threw? && !rollbackFails ==> RowsOf(table, workflowId) == {}
      ensures result.Threw? ==> exists i ::
        && 0 <= i < |webhooks| && Blocks(old(table), workflowId, webhooks[i].key, activation, weather[i])
        && MayThrow(old(table), workflowId, webhooks[i].key, activation, weather[i], result.error)
      ensures result == Added ==> RowsOf(old(table), workflowId) <= RowsOf(table, workflowId)
      ensures result == Added ==> OnlyWrites(old(table), table, workflowId, webhooks)
      ensures result == Added ==> LastIsStored(table, workflowId, webhooks, weather)
      ensures result == Added ==> forall i :: 0 <= i < |webhooks| ==>
        Handled(table, workflowId, webhooks[i].key, activation, weather[i])
      ensures result == Added ==> forall i :: 0 <= i < |webhooks| && Calm(weather[i]) ==>
        !Blocks(old(table), workflowId, webhooks[i].key, activation, weather[i])
    {
      if |webhooks| == 0 { return NothingToAdd; }
      for i := 0 to |webhooks|
        invariant OthersUntouched(old(table), table, workflowId)
        invariant RowsOf(old(table), workflowId) <= RowsOf(table, workflowId)
        invariant OnlyWrites(old(table), table, workflowId, webhooks[..i])
        invariant LastIsStored(table, workflowId, webhooks[..i], weather[..i])
        invariant forall j :: 0 <= j < i ==> Handled(table, workflowId, webhooks[j].key, activation, weather[j])
        invariant forall j :: 0 <= j < i && Calm(weather[j]) ==>
          !Blocks(old(table), workflowId, webhooks[j].key, activation, weather[j])
      {
        ghost var soFar := table;
        var error := AddWebhook(workflowId, webhooks[i], weather[i], old(table));
        OneMoreWritten(old(table), soFar, table, workflowId, webhooks[..i], webhooks[i]);
        if !Fatal(activation, error) { LastIsStoredToo(soFar, table, workflowId, webhooks, weather, i); }
        if Fatal(activation, error) {
          assert Blocks(old(table), workflowId, webhooks[i].key, activation, weather[i]);
          assert MayThrow(old(table), workflowId, webhooks[i].key, activation, weather[i], Reported(error.value));
          ghost var stored := table;
          var cleared := ClearWebhooks(workflowId, rollbackFails);
          OthersUntouchedTransitive(old(table), stored, table, workflowId);
          return Threw(Reported(error.value));
        }
      }
      assert webhooks[..|webhooks|] == webhooks && weather[..|weather|] == weather;
      return Added;
    }

    /** The `try` block of the loop. */
    method AddWebhook(workflowId: string, webhook: Webhook, w: Weather, ghost before: Table)
        returns (error: Option<Error>)
      requires OthersUntouched(before, table, workflowId)
      modifies this
      ensures OthersUntouched(before, table, workflowId)
      ensures forall key :: Registered(old(table), workflowId, key) ==> Registered(table, workflowId, key)
      ensures RowsOf(old(table), workflowId) <= RowsOf(table, workflowId)
      ensures error.None? ==> Registered(table, workflowId, webhook.key)
      ensures table == old(table) || table == old(table)[webhook.key := Row(workflowId, webhook.node)]
      ensures error.None? || (Calm(w) && !OwnedByOther(before, workflowId, webhook.key)) ==>
        IsRow(table, workflowId, webhook)
      ensures error.Some? ==> error in {w.insert, w.lookup, w.update, w.external}
                              || (error.value == PathTaken && OwnedByOther(before, workflowId, webhook.key))
      ensures !Registered(table, workflowId, webhook.key) && error.Some? && error.value != PathTaken ==>
        error in {w.insert, w.lookup, w.update}
      ensures Calm(w) ==> error == if OwnedByOther(before, workflowId, webhook.key) then Some(PathTaken) else w.external
    {
      assert UntouchedAt(before, table, workflowId, webhook.key);
      error := StoreWebhook(webhook.key, Row(workflowId, webhook.node), w);
      forall key ensures UntouchedAt(before, table, workflowId, key) {
        assert UntouchedAt(before, old(table), workflowId, key);
      }
      if error.None? { error := w.external; }
    }
  }

  lemma OneMoreWritten(before: Table, soFar: Table, after: Table, workflowId: string, webhooks: seq<Webhook>,
                       webhook: Webhook)
    requires OnlyWrites(before, soFar, workflowId, webhooks)
    requires after == soFar || after == soFar[webhook.key := Row(workflowId, webhook.node)]
    ensures OnlyWrites(before, after, workflowId, webhooks + [webhook])
  {
    forall key | !SameAt(before, after, key)
      ensures exists x :: x in webhooks + [webhook] && x.key == key && IsRow(after, workflowId, x)
    {
      if key == webhook.key && after != soFar {
        assert webhook in webhooks + [webhook];
      } else {
        assert SameAt(soFar, after, key) && !SameAt(before, soFar, key);
        var x :| x in webhooks && x.key == key && IsRow(soFar, workflowId, x);
        assert x in webhooks + [webhook];
      }
    }
  }

  lemma LastIsStoredToo(soFar: Table, after: Table, workflowId: string, webhooks: seq<Webhook>, weather: seq<Weather>,
                        n: nat)
    requires n < |webhooks| == |weather| && LastIsStored(soFar, workflowId, webhooks[..n], weather[..n])
    requires after == soFar || after == soFar[webhooks[n].key := Row(workflowId, webhooks[n].node)]
    requires Calm(weather[n]) ==> IsRow(after, workflowId, webhooks[n])
    ensures LastIsStored(after, workflowId, webhooks[..n + 1], weather[..n + 1])
  {
    forall i: nat | i < n && Calm(weather[i]) && IsLastOfKey(webhooks[..n + 1], i)
      ensures IsRow(after, workflowId, webhooks[i])
    {
      assert webhooks[..n + 1][n].key != webhooks[i].key && IsLastOfKey(webhooks[..n], i);
      assert IsRow(soFar, workflowId, webhooks[..n][i]);
    }
  }

  // ---------- registration and clearing as they interleave ----------

  /** One `storeWebhook` call in some process: it inserts, and if that fails looks, then updates. */
  datatype Pc = Inserting | Looking | Updating | Stored | Rejected

  datatype Registration = Registration(key: Key, row: Row, pc: Pc)

  /** One `deleteWorkflowWebhooks` call that has found the rows it is going to delete by their keys. */
  datatype Clearing = Clearing(workflowId: string, found: set<Key>)

  datatype State = State(table: Table, registrations: map<nat, Registration>, clearings: map<nat, Clearing>)

  datatype Step =
    | Begin(reg: nat, key: Key, row: Row)
    | Insert(reg: nat, fails: bool)
    | Look(reg: nat, fails: bool)
    | Overwrite(reg: nat, fails: bool)
    | Find(clearing: nat, workflowId: string)
    | Delete(clearing: nat, fails: bool)

  function Initial(): State { State(map[], map[], map[]) }

  predicate At(s: State, r: nat, pc: Pc) { r in s.registrations && s.registrations[r].pc == pc }

  function Goto(s: State, r: nat, pc: Pc): State
    requires r in s.registrations
  {
    s.(registrations := s.registrations[r := s.registrations[r].(pc := pc)])
  }

  function Put(s: State, r: nat): State
    requires r in s.registrations
  {
    Goto(s, r, Stored).(table := s.table[s.registrations[r].key := s.registrations[r].row])
  }

  /** The look finds a row of the registering workflow. */
  predicate OwnsKey(s: State, r: nat)
    requires r in s.registrations
  {
    Registered(s.table, s.registrations[r].row.workflowId, s.registrations[r].key)
  }

  /** Deletes by key, whatever the rows are by now. */
  function DoDelete(s: State, c: nat, fails: bool): State
    requires c in s.clearings
  {
    s.(table := if fails then s.table else s.table - s.clearings[c].found, clearings := s.clearings - {c})
  }

  /** A step that is not possible leaves the state alone. */
  function Apply(s: State, step: Step): State {
    match step
    case Begin(r, key, row) =>
      if r in s.registrations then s else s.(registrations := s.registrations[r := Registration(key, row, Inserting)])
    case Insert(r, fails) =>
      if !At(s, r, Inserting) then s
      else if fails || s.registrations[r].key in s.table then Goto(s, r, Looking) else Put(s, r)
    case Look(r, fails) =>
      if !At(s, r, Looking) then s else if !fails && OwnsKey(s, r) then Goto(s, r, Updating) else Goto(s, r, Rejected)
    case Overwrite(r, fails) =>
      if !At(s, r, Updating) then s
      else if fails then Goto(s, r, Rejected)
      else if s.registrations[r].key in s.table then Put(s, r) else Goto(s, r, Stored)
    case Find(c, workflowId) =>
      if c in s.clearings then s else
        s.(clearings := s.clearings[c := Clearing(workflowId, RowsOf(s.table, workflowId))])
    case Delete(c, fails) => if c in s.clearings then DoDelete(s, c, fails) else s
  }

  function Run(s: State, steps: seq<Step>): State {
    if steps == [] then s else Apply(Run(s, steps[..|steps| - 1]), steps[|steps| - 1])
  }

  lemma InsertingAlone(s: State, r: nat, key: Key, row: Row, fails: bool)
    requires r !in s.registrations
    ensures var s' := Apply(Apply(s, Begin(r, key, row)), Insert(r, fails));
      var through := !fails && key !in s.table;
      s' == s.(table := if through then s.table[key := row] else s.table,
               registrations := s.registrations[r := Registration(key, row, if through then Stored else Looking)])
  {}

  lemma LookingAlone(s: State, r: nat, lookFails: bool, updateFails: bool)
    requires At(s, r, Looking)
    ensures var s' := Apply(Apply(s, Look(r, lookFails)), Overwrite(r, updateFails));
      var through := !lookFails && OwnsKey(s, r) && !updateFails;
      && s'.table == (if through then s.table[s.registrations[r].key := s.registrations[r].row] else s.table)
      && At(s', r, if through then Stored else Rejected)
  {}

  /** When nothing comes between its accesses, a registration does what `storeWebhook` says. */
  lemma UndisturbedRegistration(s: State, r: nat, key: Key, row: Row, w: Weather)
    requires r !in s.registrations
    ensures var inserted := Apply(Apply(s, Begin(r, key, row)), Insert(r, w.insert.Some?));
      var s' := Apply(Apply(inserted, Look(r, w.lookup.Some?)), Overwrite(r, w.update.Some?));
      var error := StoreError(s.table, row.workflowId, key, w);
      && s'.table == (if error.None? then s.table[key := row] else s.table)
      && At(s', r, if error.None? then Stored else Rejected)
  {
    var inserted := Apply(Apply(s, Begin(r, key, row)), Insert(r, w.insert.Some?));
    InsertingAlone(s, r, key, row, w.insert.Some?);
    if At(inserted, r, Looking) {
      LookingAlone(inserted, r, w.lookup.Some?, w.update.Some?);
    } else {
      assert At(inserted, r, Stored);
    }
  }

  /** And a clearing removes exactly the rows of its workflow. */
  lemma UndisturbedClearing(s: State, c: nat, workflowId: string, key: Key)
    requires c !in s.clearings
    ensures var s' := Apply(Apply(s, Find(c, workflowId)), Delete(c, false));
      if key in RowsOf(s.table, workflowId) then key !in s'.table else SameAt(s.table, s'.table, key)
  {}

  /** The workflow on whose behalf a step is made. */
  ghost predicate ActsFor(s: State, step: Step, workflowId: string) {
    match step
    case Begin(_, _, row) => row.workflowId == workflowId
    case Insert(r, _) => r in s.registrations && s.registrations[r].row.workflowId == workflowId
    case Look(r, _) => r in s.registrations && s.registrations[r].row.workflowId == workflowId
    case Overwrite(r, _) => r in s.registrations && s.registrations[r].row.workflowId == workflowId
    case Find(_, w) => w == workflowId
    case Delete(c, _) => c in s.clearings && s.clearings[c].workflowId == workflowId
  }

  /** The step writes or deletes by a key that has come into other hands since it was looked up. */
  predicate Trespasses(s: State, step: Step, workflowId: string, key: Key) {
    OwnedByOther(s.table, workflowId, key) &&
    match step
    case Overwrite(r, fails) => !fails && At(s, r, Updating) && s.registrations[r].key == key
    case Delete(c, fails) => !fails && c in s.clearings && key in s.clearings[c].found
    case _ => false
  }

  /** A step leaves another workflow's row alone exactly if it does not trespass there: neither the update
      after a look nor the delete after a find is guarded. */
  lemma StepTouchesOnlyItsOwnIff(s: State, step: Step, workflowId: string, key: Key)
    requires ActsFor(s, step, workflowId)
    ensures UntouchedAt(s.table, Apply(s, step).table, workflowId, key) <==> !Trespasses(s, step, workflowId, key)
  {
    if step.Delete? && Trespasses(s, step, workflowId, key) { assert key !in Apply(s, step).table; }
  }

  /** What was looked up under the key still holds: whoever is about to update or delete the row owns it. */
  ghost predicate LookupsHold(s: State, key: Key) {
    && (forall r :: At(s, r, Updating) && s.registrations[r].key == key ==> OwnsKey(s, r))
    && (forall c :: c in s.clearings && key in s.clearings[c].found ==>
          Registered(s.table, s.clearings[c].workflowId, key))
  }

  /** The row is not deleted while another registration or clearing that has looked it up is pending. */
  ghost predicate Unhurried(s: State, step: Step, key: Key) {
    step.Delete? && !step.fails && step.clearing in s.clearings && key in s.clearings[step.clearing].found ==>
      && (forall r :: At(s, r, Updating) ==> s.registrations[r].key != key)
      && (forall d :: d in s.clearings && d != step.clearing ==> key !in s.clearings[d].found)
  }

  ghost predicate UnhurriedRun(s: State, steps: seq<Step>, key: Key) {
    steps == [] || (UnhurriedRun(s, steps[..|steps| - 1], key) &&
                    Unhurried(Run(s, steps[..|steps| - 1]), steps[|steps| - 1], key))
  }

  /** Being unhurried is exactly what a step must be to keep the lookups of a key valid. */
  lemma LookupsHoldIff(s: State, step: Step, key: Key)
    requires LookupsHold(s, key)
    ensures LookupsHold(Apply(s, step), key) <==> Unhurried(s, step, key)
  {
    if step.Delete? && !step.fails && step.clearing in s.clearings {
      DeleteKeepsLookupsIff(s, step.clearing, key);
    } else {
      OtherStepsKeepLookups(s, step, key);
    }
  }

  lemma OtherStepsKeepLookups(s: State, step: Step, key: Key)
    requires LookupsHold(s, key) && (step.Delete? && step.clearing in s.clearings ==> step.fails)
    ensures LookupsHold(Apply(s, step), key)
  {
    var s' := Apply(s, step);
    forall r | At(s', r, Updating) && s'.registrations[r].key == key ensures OwnsKey(s', r) {
      assert At(s, r, Updating) || At(s, r, Looking);
    }
  }

  lemma DeleteKeepsLookupsIff(s: State, c: nat, key: Key)
    requires LookupsHold(s, key) && c in s.clearings
    ensures LookupsHold(DoDelete(s, c, false), key) <==> Unhurried(s, Delete(c, false), key)
  {
    var s' := DoDelete(s, c, false);
    if key in s.clearings[c].found {
      assert forall r :: At(s', r, Updating) <==> At(s, r, Updating);
      assert forall d :: d in s.clearings && d != c ==> d in s'.clearings;
    } else {
      forall r | At(s', r, Updating) && s'.registrations[r].key == key ensures OwnsKey(s', r) {
        assert At(s, r, Updating);
      }
    }
  }

  lemma {:induction false} UnhurriedRunsHold(steps: seq<Step>, key: Key)
    requires UnhurriedRun(Initial(), steps, key)
    ensures LookupsHold(Run(Initial(), steps), key)
  {
    if steps != [] {
      var n := |steps| - 1;
      UnhurriedRunsHold(steps[..n], key);
      LookupsHoldIff(Run(Initial(), steps[..n]), steps[n], key);
    }
  }

  /** In every interleaving of any number of registrations and clearings that is unhurried about a key,
      whatever it does elsewhere, no step alters another workflow's row under that key. */
  lemma NoWorkflowLosesRows(steps: seq<Step>, step: Step, workflowId: string, key: Key)
    requires UnhurriedRun(Initial(), steps, key) && ActsFor(Run(Initial(), steps), step, workflowId)
    ensures UntouchedAt(Run(Initial(), steps).table, Apply(Run(Initial(), steps), step).table, workflowId, key)
  {
    UnhurriedRunsHold(steps, key);
    NoTrespassWhileLookupsHold(Run(Initial(), steps), step, workflowId, key);
    StepTouchesOnlyItsOwnIff(Run(Initial(), steps), step, workflowId, key);
  }

  lemma NoTrespassWhileLookupsHold(s: State, step: Step, workflowId: string, key: Key)
    requires LookupsHold(s, key) && ActsFor(s, step, workflowId)
    ensures !Trespasses(s, step, workflowId, key)
  {}

  // ---------- the two windows ----------

  /** The path can change hands between look and update, and the update takes it back. */
  lemma HurriedUpdateStealsPath(key: Key) returns (steps: seq<Step>)
    ensures steps == [Begin(0, key, Row("a", "n")), Insert(0, false), Begin(1, key, Row("a", "n")), Insert(1, false),
                      Look(1, false), Find(0, "a"), Delete(0, false), Begin(2, key, Row("b", "n")), Insert(2, false),
                      Overwrite(1, false)]
    ensures Run(Initial(), steps[..9]).table == map[key := Row("b", "n")]
    ensures Run(Initial(), steps).table == map[key := Row("a", "n")]
  {
    var s;
    steps, s := PathChangesHands(key);
    var before := steps;
    steps, s := Extend(steps, s, Overwrite(1, false));
    assert steps[..9] == before;
  }

  lemma PathChangesHands(key: Key) returns (steps: seq<Step>, s: State)
    ensures steps == [Begin(0, key, Row("a", "n")), Insert(0, false), Begin(1, key, Row("a", "n")), Insert(1, false),
                      Look(1, false), Find(0, "a"), Delete(0, false), Begin(2, key, Row("b", "n")), Insert(2, false)]
    ensures s == Run(Initial(), steps) && s.table == map[key := Row("b", "n")]
    ensures At(s, 1, Updating) && s.registrations[1].key == key && s.registrations[1].row == Row("a", "n")
  {
    steps, s := ReRegistrationLooked(key);
    steps, s := Extend(steps, s, Find(0, "a"));
    assert key in s.clearings[0].found;
    steps, s := Extend(steps, s, Delete(0, false));
    assert s.table == map[];
    steps, s := Extend(steps, s, Begin(2, key, Row("b", "n")));
    steps, s := Extend(steps, s, Insert(2, false));
  }

  lemma ReRegistrationLooked(key: Key) returns (steps: seq<Step>, s: State)
    ensures steps == [Begin(0, key, Row("a", "n")), Insert(0, false), Begin(1, key, Row("a", "n")), Insert(1, false),
                      Look(1, false)]
    ensures s == Run(Initial(), steps) && s.table == map[key := Row("a", "n")] && s.clearings == map[]
    ensures s.registrations == map[0 := Registration(key, Row("a", "n"), Stored),
                                   1 := Registration(key, Row("a", "n"), Updating)]
  {
    steps, s := [], Initial();
    steps, s := Extend(steps, s, Begin(0, key, Row("a", "n")));
    steps, s := Extend(steps, s, Insert(0, false));
    steps, s := Extend(steps, s, Begin(1, key, Row("a", "n")));
    steps, s := Extend(steps, s, Insert(1, false));
    steps, s := Extend(steps, s, Look(1, false));
  }

  /** Two clearings of one workflow find the same row; the first deletes it, another workflow takes the
      path, and the second deletes that workflow's row. */
  lemma OverlappingClearingsDeleteOthersRow(key: Key) returns (steps: seq<Step>)
    ensures steps == [Begin(0, key, Row("a", "n")), Insert(0, false), Find(0, "a"), Find(1, "a"), Delete(0, false),
                      Begin(1, key, Row("b", "n")), Insert(1, false), Delete(1, false)]
    ensures Run(Initial(), steps[..7]).table == map[key := Row("b", "n")]
    ensures Run(Initial(), steps).table == map[]
  {
    var s;
    steps, s := FoundTwice(key);
    steps, s := Extend(steps, s, Delete(0, false));
    assert s.table == map[];
    steps, s := Extend(steps, s, Begin(1, key, Row("b", "n")));
    steps, s := Extend(steps, s, Insert(1, false));
    var before := steps;
    steps, s := Extend(steps, s, Delete(1, false));
    assert steps[..7] == before;
  }

  lemma FoundTwice(key: Key) returns (steps: seq<Step>, s: State)
    ensures steps == [Begin(0, key, Row("a", "n")), Insert(0, false), Find(0, "a"), Find(1, "a")]
    ensures s == Run(Initial(), steps) && s.table == map[key := Row("a", "n")]
    ensures s.registrations == map[0 := Registration(key, Row("a", "n"), Stored)]
    ensures s.clearings == map[0 := Clearing("a", {key}), 1 := Clearing("a", {key})]
  {
    steps, s := [], Initial();
    steps, s := Extend(steps, s, Begin(0, key, Row("a", "n")));
    steps, s := Extend(steps, s, Insert(0, false));
    assert RowsOf(s.table, "a") == {key};
    steps, s := Extend(steps, s, Find(0, "a"));
    steps, s := Extend(steps, s, Find(1, "a"));
  }

  lemma Extend(steps: seq<Step>, now: State, step: Step) returns (steps': seq<Step>, now': State)
    requires now == Run(Initial(), steps)
    ensures steps' == steps + [step] && now' == Apply(now, step) && now' == Run(Initial(), steps')
  {
    steps', now' := steps + [step], Apply(now, step);
    assert (steps + [step])[..|steps|] == steps;
  }
}
