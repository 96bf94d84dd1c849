/** `CredentialsOverwrites`: instance-wide values for credential fields, inherited along `extends`.

    `setPlainData` flattens the overwrites in place, in key order, with a memo (`resolvedTypes`)
    whose intermediate results are never written back; `get` then looks through the flattened
    table again. The reference meaning is `Nearest`: a field comes from the nearest type, self
    first, whose configured overwrites have it. On single-inheritance hierarchies the code meets it
    exactly; with several parents which field values can appear is still settled (`Sound`), but the
    two walks rank the parents differently, and no other hierarchy keeps all lookups
    (`LookupsSurviveIffSingleInheritance`). */
module CredentialsOverwrites {
  import opened Common
  import opened CredentialTypes

  /** Scalar credential values; a missing key models `undefined`. */
  datatype Value = Null | Text(text: string) | Number(number: int) | Flag(flag: bool)

  type Fields = map<string, Value>
  type Overwrites = map<TypeName, Fields>

  function Field(fields: Fields, key: string): Option<Value> {
    if key in fields then Some(fields[key]) else None
  }

  function Own(data: Overwrites, t: TypeName, key: string): Option<Value> {
    if t in data then Field(data[t], key) else None
  }

  // ---------- the reference lookup ----------

  /** Hierarchies whose types extend at most one type each, without cycles. */
  ghost predicate Chains(h: Hierarchy) { Acyclic(h) && SingleInheritance(h) }

  ghost predicate HasParent(h: Hierarchy, t: TypeName) { Extends(h, t) != [] }

  ghost function Parent(h: Hierarchy, t: TypeName): (p: TypeName)
    requires Chains(h) && HasParent(h, t)
    ensures Rank(h, p) < Rank(h, t)
  {
    var p := Extends(h, t)[0];
    EdgeReaches(h, t, p);
    RankDecreases(h, t, p);
    p
  }

  ghost function Nearest(h: Hierarchy, data: Overwrites, t: TypeName, key: string): Option<Value>
    requires Chains(h)
    decreases Rank(h, t)
  {
    if Own(data, t, key).Some? then Own(data, t, key)
    else if HasParent(h, t) then Nearest(h, data, Parent(h, t), key)
    else None
  }

  ghost predicate SameLookup(h: Hierarchy, a: Overwrites, b: Overwrites)
    requires Chains(h)
  {
    forall t, key :: Nearest(h, a, t, key) == Nearest(h, b, t, key)
  }

  // ---------- the invariant of flattening ----------

  /** raw(T) is contained in stored(T), which is contained in what `Nearest` resolves from raw. */
  ghost predicate Sandwiched(h: Hierarchy, raw: Overwrites, stored: Overwrites)
    requires Chains(h)
  {
    && stored.Keys == raw.Keys
    && (forall t, key :: Own(raw, t, key).Some? ==> Own(stored, t, key) == Own(raw, t, key))
    && (forall t, key :: Own(stored, t, key).Some? ==> Own(stored, t, key) == Nearest(h, raw, t, key))
  }

  lemma {:induction false} SandwichedLookup(h: Hierarchy, raw: Overwrites, stored: Overwrites, t: TypeName, key: string)
    requires Chains(h) && Sandwiched(h, raw, stored)
    ensures Nearest(h, stored, t, key) == Nearest(h, raw, t, key)
    decreases Rank(h, t)
  {
    if Own(stored, t, key).None? {
      assert Own(raw, t, key).None?;
      if HasParent(h, t) { SandwichedLookup(h, raw, stored, Parent(h, t), key); }
    }
  }

  /** However much of the flattening was skipped by the memo, lookups are those of the raw table. */
  lemma FlatteningKeepsLookups(h: Hierarchy, raw: Overwrites, stored: Overwrites)
    requires Chains(h) && Sandwiched(h, raw, stored)
    ensures SameLookup(h, stored, raw)
  {
    forall t, key ensures Nearest(h, stored, t, key) == Nearest(h, raw, t, key) {
      SandwichedLookup(h, raw, stored, t, key);
    }
  }

  /** What `getOverwrites` can see of a key: the chain upwards from `t`, cut off at the first
      type that is already memoised (only its own stored fields) or unknown (nothing). */
  ghost function Visible(h: Hierarchy, data: Overwrites, resolved: seq<TypeName>, t: TypeName, key: string)
      : Option<Value>
    requires Chains(h)
    decreases Rank(h, t)
  {
    if t in resolved then Own(data, t, key)
    else if t !in h then None
    else if Own(data, t, key).Some? then Own(data, t, key)
    else if HasParent(h, t) then Visible(h, data, resolved, Parent(h, t), key)
    else None
  }

  lemma {:induction false} VisibleIsNearest(h: Hierarchy, raw: Overwrites, stored: Overwrites,
                                            resolved: seq<TypeName>, t: TypeName, key: string)
    requires Chains(h) && Sandwiched(h, raw, stored)
    ensures Visible(h, stored, resolved, t, key).Some? ==>
      Visible(h, stored, resolved, t, key) == Nearest(h, raw, t, key)
    decreases Rank(h, t)
  {
    SandwichedLookup(h, raw, stored, t, key);
    if HasParent(h, t) {
      VisibleIsNearest(h, raw, stored, resolved, Parent(h, t), key);
      SandwichedLookup(h, raw, stored, Parent(h, t), key);
    }
  }

  ghost predicate IsVisible(h: Hierarchy, data: Overwrites, resolved: seq<TypeName>, t: TypeName, found: Option<Fields>)
    requires Chains(h)
  {
    forall key :: (if found.Some? then Field(found.value, key) else None) == Visible(h, data, resolved, t, key)
  }

  /** With nothing memoised and every type known, what is visible is the full lookup. */
  lemma {:induction false} FreshVisibleIsComplete(h: Hierarchy, data: Overwrites, t: TypeName, key: string)
    requires Chains(h) && t in h && forall a :: Reaches(h, t, a) ==> a in h
    ensures Visible(h, data, [], t, key) == Nearest(h, data, t, key)
    decreases Rank(h, t)
  {
    if HasParent(h, t) {
      var p := Parent(h, t);
      EdgeReaches(h, t, p);
      forall a | Reaches(h, p, a) ensures a in h { ReachesTransitive(h, t, p, a); }
      FreshVisibleIsComplete(h, data, p, key);
    }
  }

  // ---------- what the two methods compute ----------

  function Entry(data: Overwrites, t: TypeName): Option<Fields> { if t in data then Some(data[t]) else None }

  function Merged(fields: Fields, over: Option<Fields>): Fields { if over.Some? then fields + over.value else fields }

  datatype Resolution = Resolution(found: Option<Fields>, memo: seq<TypeName>)

  datatype Inheritance = Inheritance(fields: Fields, memo: seq<TypeName>)

  /** What `getOverwrites` returns, and the memo afterwards. */
  ghost function Resolved(h: Hierarchy, data: Overwrites, memo: seq<TypeName>, t: TypeName): Resolution
    requires Acyclic(h)
    decreases Rank(h, t), 1, 0
  {
    if t in memo then Resolution(Entry(data, t), memo)
    else if t !in h then Resolution(None, memo)
    else if h[t] == [] then Resolution(Entry(data, t), memo + [t])
    else
      var inherited := Inherited(h, data, memo, t, |h[t]|);
      Resolution(Some(Merged(inherited.fields, Entry(data, t))), inherited.memo + [t])
  }

  /** The fields of the first `n` parents, later ones winning. */
  ghost function Inherited(h: Hierarchy, data: Overwrites, memo: seq<TypeName>, t: TypeName, n: nat): Inheritance
    requires Acyclic(h) && n <= |Extends(h, t)|
    decreases Rank(h, t), 0, n
  {
    if n == 0 then Inheritance(map[], memo) else
      var before := Inherited(h, data, memo, t, n - 1);
      var parent := Extends(h, t)[n - 1];
      assert Rank(h, parent) < Rank(h, t) by { EdgeReaches(h, t, parent); RankDecreases(h, t, parent); }
      var r := Resolved(h, data, before.memo, parent);
      Inheritance(Merged(before.fields, r.found), r.memo)
  }

  datatype Flattening = Flattening(stored: Overwrites, memo: seq<TypeName>)

  /** The table and the memo after `setPlainData` has visited the types in `order`. */
  ghost function Flattened(h: Hierarchy, raw: Overwrites, order: seq<TypeName>): Flattening
    requires Acyclic(h)
  {
    if order == [] then Flattening(raw, []) else
      var before, t := Flattened(h, raw, order[..|order| - 1]), order[|order| - 1];
      var r := Resolved(h, before.stored, before.memo, t);
      var stores := r.found.Some? && r.found.value != map[];
      Flattening(if stores then before.stored[t := r.found.value] else before.stored, r.memo)
  }

  ghost predicate AllDifferent(order: seq<TypeName>) { forall i, j :: 0 <= i < j < |order| ==> order[i] != order[j] }

  /** Every type once. */
  ghost predicate IsOrder(order: seq<TypeName>, types: set<TypeName>) {
    (forall t :: t in order <==> t in types) && AllDifferent(order)
  }

  // ---------- several parents: what survives without an order among them ----------

  ghost predicate SelfOrAncestor(h: Hierarchy, t: TypeName, a: TypeName) { a == t || Reaches(h, t, a) }

  /** Some self-or-ancestor of `t` is configured with this value. */
  ghost predicate Sourced(h: Hierarchy, data: Overwrites, t: TypeName, key: string, value: Value) {
    exists a :: SelfOrAncestor(h, t, a) && Own(data, a, key) == Some(value)
  }

  /** Own fields win; every other field is some ancestor's. */
  ghost predicate MergedFrom(h: Hierarchy, data: Overwrites, t: TypeName, fields: Fields) {
    && OwnFieldsWin(data, t, fields)
    && (forall key :: key in fields ==> Sourced(h, data, t, key, fields[key]))
  }

  ghost predicate OwnFieldsWin(data: Overwrites, t: TypeName, fields: Fields) {
    forall key :: Own(data, t, key).Some? ==> Field(fields, key) == Own(data, t, key)
  }

  ghost predicate Sound(h: Hierarchy, raw: Overwrites, stored: Overwrites) {
    && stored.Keys == raw.Keys
    && (forall t, key :: Own(raw, t, key).Some? ==> Own(stored, t, key) == Own(raw, t, key))
    && (forall t, key :: Own(stored, t, key).Some? ==> Sourced(h, raw, t, key, Own(stored, t, key).value))
  }

  lemma SourcedThrough(h: Hierarchy, raw: Overwrites, stored: Overwrites, t: TypeName, key: string, value: Value)
    requires Sound(h, raw, stored) && Sourced(h, stored, t, key, value)
    ensures Sourced(h, raw, t, key, value)
  {
    var a :| SelfOrAncestor(h, t, a) && Own(stored, a, key) == Some(value);
    var b :| SelfOrAncestor(h, a, b) && Own(raw, b, key) == Some(value);
    SelfOrAncestorTransitive(h, t, a, b);
  }

  lemma SelfOrAncestorTransitive(h: Hierarchy, t: TypeName, a: TypeName, b: TypeName)
    requires SelfOrAncestor(h, t, a) && SelfOrAncestor(h, a, b)
    ensures SelfOrAncestor(h, t, b)
  {
    if a != t && b != a { ReachesTransitive(h, t, a, b); }
  }

  lemma InheritedIsSourced(h: Hierarchy, data: Overwrites, t: TypeName, parent: TypeName, fields: Fields)
    requires parent in Extends(h, t) && MergedFrom(h, data, parent, fields)
    ensures forall key :: key in fields ==> Sourced(h, data, t, key, fields[key])
  {
    EdgeReaches(h, t, parent);
    forall key | key in fields ensures Sourced(h, data, t, key, fields[key]) {
      var a :| SelfOrAncestor(h, parent, a) && Own(data, a, key) == Some(fields[key]);
      if a != parent { ReachesTransitive(h, t, parent, a); }
      assert SelfOrAncestor(h, t, a);
    }
  }

  lemma StoringMergedIsSound(h: Hierarchy, raw: Overwrites, stored: Overwrites, t: TypeName, fields: Fields)
    requires Sound(h, raw, stored) && t in raw && MergedFrom(h, stored, t, fields)
    ensures Sound(h, raw, stored[t := fields])
  {
    var stored' := stored[t := fields];
    forall u, key ensures Own(stored', u, key) == if u == t then Field(fields, key) else Own(stored, u, key) {}
    forall key | key in fields ensures Sourced(h, raw, t, key, fields[key]) {
      SourcedThrough(h, raw, stored, t, key, fields[key]);
    }
  }

  /** Only the type and its ancestors are memoised. */
  ghost predicate MemoGrows(h: Hierarchy, t: TypeName, before: seq<TypeName>, after: seq<TypeName>) {
    before <= after && forall x :: x in after && x !in before ==> SelfOrAncestor(h, t, x)
  }

  lemma {:induction false} ResolvedIsMerged(h: Hierarchy, data: Overwrites, memo: seq<TypeName>, t: TypeName)
    requires Acyclic(h)
    ensures var r := Resolved(h, data, memo, t);
      && MemoGrows(h, t, memo, r.memo)
      && (r.found.None? && t in h ==> t !in data)
      && (r.found.Some? ==> MergedFrom(h, data, t, r.found.value))
    decreases Rank(h, t), 1, 0
  {
    OwnIsMerged(h, data, t);
    if t !in memo && t in h && h[t] != [] { InheritedIsMerged(h, data, memo, t, |h[t]|); }
  }

  lemma {:induction false} InheritedIsMerged(h: Hierarchy, data: Overwrites, memo: seq<TypeName>, t: TypeName, n: nat)
    requires Acyclic(h) && n <= |Extends(h, t)|
    ensures var i := Inherited(h, data, memo, t, n);
      && MemoGrows(h, t, memo, i.memo)
      && (forall key :: key in i.fields ==> Sourced(h, data, t, key, i.fields[key]))
      && (n > 0 && Extends(h, t)[n - 1] in h ==> OwnFieldsWin(data, Extends(h, t)[n - 1], i.fields))
    decreases Rank(h, t), 0, n
  {
    if n > 0 {
      var parent := Extends(h, t)[n - 1];
      EdgeReaches(h, t, parent);
      RankDecreases(h, t, parent);
      InheritedIsMerged(h, data, memo, t, n - 1);
      var before := Inherited(h, data, memo, t, n - 1);
      var r := Resolved(h, data, before.memo, parent);
      ResolvedIsMerged(h, data, before.memo, parent);
      if r.found.Some? { InheritedIsSourced(h, data, t, parent, r.found.value); }
      forall x | x in r.memo && x !in before.memo ensures SelfOrAncestor(h, t, x) {
        if x != parent { ReachesTransitive(h, t, parent, x); }
      }
    }
  }

  lemma {:induction false} ResolvedIsVisible(h: Hierarchy, data: Overwrites, memo: seq<TypeName>, t: TypeName)
    requires Chains(h)
    ensures IsVisible(h, data, memo, t, Resolved(h, data, memo, t).found)
    decreases Rank(h, t)
  {
    if t !in memo && t in h && h[t] != [] {
      ResolvedIsVisible(h, data, memo, Parent(h, t));
      assert Inherited(h, data, memo, t, 0) == Inheritance(map[], memo);
      var r := Resolved(h, data, memo, Parent(h, t));
      assert Inherited(h, data, memo, t, 1) == Inheritance(Merged(map[], r.found), r.memo);
    }
  }

  lemma {:induction false} FlattenedIsSound(h: Hierarchy, raw: Overwrites, order: seq<TypeName>)
    requires Acyclic(h) && forall x :: x in order ==> x in raw
    ensures Sound(h, raw, Flattened(h, raw, order).stored)
  {
    if order == [] {
      AsConfiguredIsSound(h, raw);
    } else {
      var n := |order| - 1;
      FlattenedIsSound(h, raw, order[..n]);
      var before := Flattened(h, raw, order[..n]);
      ResolvedIsMerged(h, before.stored, before.memo, order[n]);
      var r := Resolved(h, before.stored, before.memo, order[n]);
      if r.found.Some? { StoringMergedIsSound(h, raw, before.stored, order[n], r.found.value); }
    }
  }

  /** However much of the flattening the memo skips, and in any order. */
  lemma {:induction false} FlattenedIsSandwiched(h: Hierarchy, raw: Overwrites, order: seq<TypeName>)
    requires Chains(h) && forall x :: x in order ==> x in raw
    ensures Sandwiched(h, raw, Flattened(h, raw, order).stored)
  {
    if order != [] {
      var n := |order| - 1;
      FlattenedIsSandwiched(h, raw, order[..n]);
      var before := Flattened(h, raw, order[..n]);
      ResolvedIsVisible(h, before.stored, before.memo, order[n]);
      var r := Resolved(h, before.stored, before.memo, order[n]);
      if r.found.Some? && r.found.value != map[] {
        StoringFlattenedIsSound(h, raw, before.stored, before.memo, order[n], r.found.value);
      }
    }
  }

  // ---------- what flattening stores ----------

  /** Visiting these types has memoised `a`: it is known, and one of them or an ancestor of one. */
  ghost predicate Touched(h: Hierarchy, visited: seq<TypeName>, a: TypeName) {
    a in h && exists u :: u in visited && SelfOrAncestor(h, u, a)
  }

  /** The memo is exactly what the visits have touched. */
  ghost predicate MemoIs(h: Hierarchy, memo: seq<TypeName>, visited: seq<TypeName>) {
    forall x :: x in memo <==> Touched(h, visited, x)
  }

  /** The climb from `t` for a field: the nearest configured one, up to the first type that has been touched
      before, of which only what is stored counts, or to the first unknown type, where it ends. */
  ghost function Climb(h: Hierarchy, raw: Overwrites, stored: Overwrites, visited: seq<TypeName>, t: TypeName,
                       key: string): Option<Value>
    requires Chains(h)
    decreases Rank(h, t)
  {
    if Touched(h, visited, t) then Own(stored, t, key)
    else if t !in h then None
    else if Own(raw, t, key).Some? then Own(raw, t, key)
    else if HasParent(h, t) then Climb(h, raw, stored, visited, Parent(h, t), key)
    else None
  }

  /** What is stored for a type visited after others: as configured if it is unknown or a descendant of it was
      among them, otherwise what the climb from it finds. */
  ghost predicate StoresClimb(h: Hierarchy, raw: Overwrites, stored: Overwrites, visited: seq<TypeName>, t: TypeName)
    requires Chains(h)
  {
    forall key :: Own(stored, t, key) ==
      if t in h && !Touched(h, visited, t) then Climb(h, raw, stored, visited, t, key) else Own(raw, t, key)
  }

  ghost predicate FlattenedBy(h: Hierarchy, raw: Overwrites, stored: Overwrites, order: seq<TypeName>)
    requires Chains(h)
  {
    forall i: nat :: i < |order| ==> StoresClimb(h, raw, stored, order[..i], order[i])
  }

  /** No type visited before shares `t` or an ancestor of `t` with it. */
  ghost predicate Undisturbed(h: Hierarchy, visited: seq<TypeName>, t: TypeName) {
    forall u, a :: u in visited && SelfOrAncestor(h, t, a) ==> !SelfOrAncestor(h, u, a)
  }

  /** On a known and undisturbed line nothing is missing. */
  lemma {:induction false} UndisturbedClimb(h: Hierarchy, raw: Overwrites, stored: Overwrites, visited: seq<TypeName>,
                                            t: TypeName, key: string)
    requires Chains(h) && Undisturbed(h, visited, t) && forall a :: SelfOrAncestor(h, t, a) ==> a in h
    ensures Climb(h, raw, stored, visited, t, key) == Nearest(h, raw, t, key)
    decreases Rank(h, t)
  {
    assert SelfOrAncestor(h, t, t);
    if HasParent(h, t) {
      var p := Parent(h, t);
      EdgeReaches(h, t, p);
      forall a | SelfOrAncestor(h, p, a) ensures SelfOrAncestor(h, t, a) { SelfOrAncestorTransitive(h, t, p, a); }
      UndisturbedClimb(h, raw, stored, visited, p, key);
    }
  }

  /** Wherever nothing disturbs it, the whole lookup is stored. */
  ghost predicate CompleteWhereUndisturbed(h: Hierarchy, raw: Overwrites, stored: Overwrites, order: seq<TypeName>)
    requires Chains(h)
  {
    forall i: nat, key ::
      i < |order| && Undisturbed(h, order[..i], order[i]) && (forall a :: SelfOrAncestor(h, order[i], a) ==> a in h) ==>
        Own(stored, order[i], key) == Nearest(h, raw, order[i], key)
  }

  /** A field configured for the type or an ancestor that had not been touched when the type was visited is
      stored with it. */
  ghost predicate Collects(h: Hierarchy, raw: Overwrites, stored: Overwrites, visited: seq<TypeName>, t: TypeName) {
    forall a, key :: SelfOrAncestor(h, t, a) && a in h && !Touched(h, visited, a) && Own(raw, a, key).Some? ==>
      Own(stored, t, key).Some?
  }

  ghost predicate CollectsUntouched(h: Hierarchy, raw: Overwrites, stored: Overwrites, order: seq<TypeName>) {
    forall i: nat :: i < |order| ==> Collects(h, raw, stored, order[..i], order[i])
  }

  /** What flattening does to a table, read off the order of its visits. */
  ghost predicate IsFlattening(h: Hierarchy, raw: Overwrites, stored: Overwrites, order: seq<TypeName>)
    requires Acyclic(h)
  {
    && IsOrder(order, raw.Keys) && Sound(h, raw, stored) && CollectsUntouched(h, raw, stored, order)
    && (Chains(h) ==> FlattenedBy(h, raw, stored, order) && CompleteWhereUndisturbed(h, raw, stored, order))
  }

  lemma FlattenedIsComplete(h: Hierarchy, raw: Overwrites, stored: Overwrites, order: seq<TypeName>)
    requires Chains(h) && FlattenedBy(h, raw, stored, order)
    ensures CompleteWhereUndisturbed(h, raw, stored, order)
  {
    forall i: nat, key |
        i < |order| && Undisturbed(h, order[..i], order[i]) && forall a :: SelfOrAncestor(h, order[i], a) ==> a in h
      ensures Own(stored, order[i], key) == Nearest(h, raw, order[i], key)
    {
      assert StoresClimb(h, raw, stored, order[..i], order[i]) && SelfOrAncestor(h, order[i], order[i]);
      UndisturbedClimb(h, raw, stored, order[..i], order[i], key);
    }
  }

  /** With a type its ancestors have been memoised. */
  ghost predicate UpClosed(h: Hierarchy, memo: seq<TypeName>) {
    forall x, a :: x in memo && Reaches(h, x, a) && a in h ==> a in memo
  }

  ghost predicate AnyBelow(h: Hierarchy, types: seq<TypeName>, x: TypeName) {
    exists u :: u in types && SelfOrAncestor(h, u, x)
  }

  lemma AncestorOfParent(h: Hierarchy, t: TypeName, x: TypeName)
    requires Reaches(h, t, x)
    ensures AnyBelow(h, Extends(h, t), x)
  {
    ReachesUnfold(h, t, x);
    var p :| p in Extends(h, t) && (p == x || Reaches(h, p, x));
    assert SelfOrAncestor(h, p, x);
  }

  lemma {:induction false} ResolvedMemo(h: Hierarchy, data: Overwrites, memo: seq<TypeName>, t: TypeName)
    requires Acyclic(h) && UpClosed(h, memo)
    ensures var after := Resolved(h, data, memo, t).memo;
      UpClosed(h, after) && forall x :: x in after <==> x in memo || (x in h && SelfOrAncestor(h, t, x))
    decreases Rank(h, t), 1, 0
  {
    forall x | Reaches(h, t, x) ensures AnyBelow(h, Extends(h, t), x) { AncestorOfParent(h, t, x); }
    if t !in memo && t in h {
      InheritedMemo(h, data, memo, t, |h[t]|);
      assert h[t][..|h[t]|] == h[t];
      forall u, x | u in h[t] && SelfOrAncestor(h, u, x) ensures SelfOrAncestor(h, t, x) {
        EdgeReaches(h, t, u);
        SelfOrAncestorTransitive(h, t, u, x);
      }
    }
  }

  lemma {:induction false} InheritedMemo(h: Hierarchy, data: Overwrites, memo: seq<TypeName>, t: TypeName, n: nat)
    requires Acyclic(h) && n <= |Extends(h, t)| && UpClosed(h, memo)
    ensures var after := Inherited(h, data, memo, t, n).memo;
      UpClosed(h, after) && forall x :: x in after <==> x in memo || (x in h && AnyBelow(h, Extends(h, t)[..n], x))
    decreases Rank(h, t), 0, n
  {
    if n > 0 {
      var parent := Extends(h, t)[n - 1];
      EdgeReaches(h, t, parent);
      RankDecreases(h, t, parent);
      InheritedMemo(h, data, memo, t, n - 1);
      ResolvedMemo(h, data, Inherited(h, data, memo, t, n - 1).memo, parent);
      assert Extends(h, t)[..n] == Extends(h, t)[..n - 1] + [parent];
    }
  }

  lemma {:induction false} FlattenedMemo(h: Hierarchy, raw: Overwrites, order: seq<TypeName>)
    requires Acyclic(h)
    ensures UpClosed(h, Flattened(h, raw, order).memo) && MemoIs(h, Flattened(h, raw, order).memo, order)
  {
    if order != [] {
      var n := |order| - 1;
      FlattenedMemo(h, raw, order[..n]);
      var before := Flattened(h, raw, order[..n]);
      ResolvedMemo(h, before.stored, before.memo, order[n]);
      TouchedByOneMore(h, order[..n], order[n]);
      assert order == order[..n] + [order[n]];
    }
  }

  lemma TouchedByOneMore(h: Hierarchy, visited: seq<TypeName>, t: TypeName)
    ensures forall x :: Touched(h, visited + [t], x) <==> Touched(h, visited, x) || (x in h && SelfOrAncestor(h, t, x))
  {
    forall x | x in h && SelfOrAncestor(h, t, x) ensures Touched(h, visited + [t], x) { assert t in visited + [t]; }
    forall x | Touched(h, visited, x) ensures Touched(h, visited + [t], x) {
      var u :| u in visited && SelfOrAncestor(h, u, x);
      assert u in visited + [t];
    }
  }

  /** A type that has not been visited is stored as configured. */
  lemma {:induction false} UnvisitedIsRaw(h: Hierarchy, raw: Overwrites, order: seq<TypeName>, t: TypeName)
    requires Acyclic(h) && t !in order
    ensures Entry(Flattened(h, raw, order).stored, t) == Entry(raw, t)
  {
    if order != [] { UnvisitedIsRaw(h, raw, order[..|order| - 1], t); }
  }

  /** Past the memo, nothing has been stored yet but what was configured. */
  lemma {:induction false} VisibleIsClimb(h: Hierarchy, raw: Overwrites, order: seq<TypeName>, t: TypeName, key: string)
    requires Chains(h)
    ensures var f := Flattened(h, raw, order);
      Visible(h, f.stored, f.memo, t, key) == Climb(h, raw, f.stored, order, t, key)
    decreases Rank(h, t)
  {
    FlattenedMemo(h, raw, order);
    if t in h && !Touched(h, order, t) {
      assert t !in order by { if t in order { assert SelfOrAncestor(h, t, t); } }
      UnvisitedIsRaw(h, raw, order, t);
      if HasParent(h, t) { VisibleIsClimb(h, raw, order, Parent(h, t), key); }
    }
  }

  /** Only what is stored for touched types matters to a climb. */
  lemma {:induction false} ClimbAgrees(h: Hierarchy, raw: Overwrites, a: Overwrites, b: Overwrites,
                                       visited: seq<TypeName>, t: TypeName, key: string)
    requires Chains(h) && forall x :: Touched(h, visited, x) ==> Entry(a, x) == Entry(b, x)
    ensures Climb(h, raw, a, visited, t, key) == Climb(h, raw, b, visited, t, key)
    decreases Rank(h, t)
  {
    if HasParent(h, t) { ClimbAgrees(h, raw, a, b, visited, Parent(h, t), key); }
  }

  /** What a visit stores, and that it changes nothing a type touched before is stored with. */
  lemma VisitStoresClimb(h: Hierarchy, raw: Overwrites, order: seq<TypeName>, t: TypeName)
    requires Chains(h) && t !in order
    ensures var before, after := Flattened(h, raw, order), Flattened(h, raw, order + [t]);
      && (forall x :: x != t ==> Entry(after.stored, x) == Entry(before.stored, x))
      && (Touched(h, order, t) ==> after.stored == before.stored)
      && forall key :: Own(after.stored, t, key) ==
           if t in h && !Touched(h, order, t) then Climb(h, raw, before.stored, order, t, key) else Own(raw, t, key)
  {
    assert (order + [t])[..|order|] == order;
    var before := Flattened(h, raw, order);
    FlattenedMemo(h, raw, order);
    UnvisitedIsRaw(h, raw, order, t);
    ResolvedIsVisible(h, before.stored, before.memo, t);
    forall key ensures Visible(h, before.stored, before.memo, t, key) == Climb(h, raw, before.stored, order, t, key) {
      VisibleIsClimb(h, raw, order, t, key);
    }
  }

  /** Visiting one more type leaves alone what an earlier one is stored with and has climbed to. */
  lemma EarlierStays(h: Hierarchy, raw: Overwrites, order: seq<TypeName>, t: TypeName, i: nat)
    requires Chains(h) && t !in order && i < |order|
    requires StoresClimb(h, raw, Flattened(h, raw, order).stored, order[..i], order[i])
    ensures StoresClimb(h, raw, Flattened(h, raw, order + [t]).stored, order[..i], order[i])
  {
    var before, after := Flattened(h, raw, order).stored, Flattened(h, raw, order + [t]).stored;
    VisitStoresClimb(h, raw, order, t);
    forall x | Touched(h, order[..i], x) ensures Entry(after, x) == Entry(before, x) {
      var u :| u in order[..i] && SelfOrAncestor(h, u, x);
      assert u in order && Touched(h, order, x);
    }
    forall key
      ensures Climb(h, raw, after, order[..i], order[i], key) == Climb(h, raw, before, order[..i], order[i], key)
    {
      ClimbAgrees(h, raw, after, before, order[..i], order[i], key);
    }
    assert Entry(after, order[i]) == Entry(before, order[i]);
  }

  lemma LastStoresClimb(h: Hierarchy, raw: Overwrites, order: seq<TypeName>, t: TypeName)
    requires Chains(h) && t !in order
    ensures StoresClimb(h, raw, Flattened(h, raw, order + [t]).stored, order, t)
  {
    var before, after := Flattened(h, raw, order).stored, Flattened(h, raw, order + [t]).stored;
    VisitStoresClimb(h, raw, order, t);
    if t in h && !Touched(h, order, t) {
      forall key ensures Climb(h, raw, after, order, t, key) == Climb(h, raw, before, order, t, key) {
        ClimbAgrees(h, raw, after, before, order, t, key);
      }
    }
  }

  /** With single inheritance the order of the visits and the table as configured determine, climb by climb,
      all that is stored. */
  lemma {:induction false} FlatteningStoresClimbs(h: Hierarchy, raw: Overwrites, order: seq<TypeName>)
    requires Chains(h) && AllDifferent(order)
    ensures FlattenedBy(h, raw, Flattened(h, raw, order).stored, order)
  {
    if order != [] {
      var n := |order| - 1;
      FlatteningStoresClimbs(h, raw, order[..n]);
      assert order == order[..n] + [order[n]];
      forall i: nat | i < |order| ensures StoresClimb(h, raw, Flattened(h, raw, order).stored, order[..i], order[i]) {
        assert order[..i] == if i < n then order[..n][..i] else order[..n];
        if i < n {
          EarlierStays(h, raw, order[..n], order[n], i);
        } else {
          LastStoresClimb(h, raw, order[..n], order[n]);
        }
      }
    }
  }

  lemma {:induction false} ResolvedCollects(h: Hierarchy, data: Overwrites, memo: seq<TypeName>, t: TypeName,
                                            a: TypeName, key: string)
    requires Acyclic(h) && UpClosed(h, memo) && a in h && a !in memo
    requires SelfOrAncestor(h, t, a) && Own(data, a, key).Some?
    ensures var r := Resolved(h, data, memo, t); r.found.Some? && key in r.found.value
    decreases Rank(h, t), 1, 0
  {
    if a != t {
      AncestorOfParent(h, t, a);
      assert h[t][..|h[t]|] == h[t];
      InheritedCollects(h, data, memo, t, |h[t]|, a, key);
    }
  }

  lemma {:induction false} InheritedCollects(h: Hierarchy, data: Overwrites, memo: seq<TypeName>, t: TypeName, n: nat,
                                             a: TypeName, key: string)
    requires Acyclic(h) && n <= |Extends(h, t)| && UpClosed(h, memo) && a in h && a !in memo
    requires AnyBelow(h, Extends(h, t)[..n], a) && Own(data, a, key).Some?
    ensures key in Inherited(h, data, memo, t, n).fields
    decreases Rank(h, t), 0, n
  {
    var parent := Extends(h, t)[n - 1];
    EdgeReaches(h, t, parent);
    RankDecreases(h, t, parent);
    assert Extends(h, t)[..n] == Extends(h, t)[..n - 1] + [parent];
    InheritedMemo(h, data, memo, t, n - 1);
    if AnyBelow(h, Extends(h, t)[..n - 1], a) {
      InheritedCollects(h, data, memo, t, n - 1, a, key);
    } else {
      ResolvedCollects(h, data, Inherited(h, data, memo, t, n - 1).memo, parent, a, key);
    }
  }

  lemma VisitCollects(h: Hierarchy, raw: Overwrites, order: seq<TypeName>, t: TypeName)
    requires Acyclic(h) && forall x :: x in order ==> x in raw
    ensures Collects(h, raw, Flattened(h, raw, order + [t]).stored, order, t)
  {
    assert (order + [t])[..|order|] == order;
    var before := Flattened(h, raw, order);
    FlattenedMemo(h, raw, order);
    FlattenedIsSound(h, raw, order);
    forall a, key | SelfOrAncestor(h, t, a) && a in h && !Touched(h, order, a) && Own(raw, a, key).Some?
      ensures Own(Flattened(h, raw, order + [t]).stored, t, key).Some?
    {
      ResolvedCollects(h, before.stored, before.memo, t, a, key);
    }
  }

  /** On every acyclic hierarchy. */
  lemma {:induction false} FlatteningCollects(h: Hierarchy, raw: Overwrites, order: seq<TypeName>)
    requires Acyclic(h) && AllDifferent(order) && forall x :: x in order ==> x in raw
    ensures CollectsUntouched(h, raw, Flattened(h, raw, order).stored, order)
  {
    if order != [] {
      var n := |order| - 1;
      FlatteningCollects(h, raw, order[..n]);
      VisitCollects(h, raw, order[..n], order[n]);
      assert order == order[..n] + [order[n]];
      forall i: nat | i < |order| ensures Collects(h, raw, Flattened(h, raw, order).stored, order[..i], order[i]) {
        assert order[..i] == if i < n then order[..n][..i] else order[..n];
        if i < n { assert Collects(h, raw, Flattened(h, raw, order[..n]).stored, order[..n][..i], order[..n][i]); }
      }
    }
  }

  lemma SoundTransitive(h: Hierarchy, a: Overwrites, b: Overwrites, c: Overwrites)
    requires Sound(h, a, b) && Sound(h, b, c)
    ensures Sound(h, a, c)
  {
    forall t, key | Own(c, t, key).Some? ensures Sourced(h, a, t, key, Own(c, t, key).value) {
      SourcedThrough(h, a, b, t, key, Own(c, t, key).value);
    }
  }

  /** On every acyclic hierarchy, flattening neither adds nor loses a field of any lookup, keeps the fields
      a type is configured with, and takes the others from the type's ancestors. */
  lemma SoundLookup(h: Hierarchy, raw: Overwrites, stored: Overwrites, t: TypeName, key: string)
    requires Acyclic(h) && Sound(h, raw, stored)
    ensures Lookup(h, stored, t, key).Some? <==> Lookup(h, raw, t, key).Some?
    ensures Own(raw, t, key).Some? ==> Lookup(h, stored, t, key) == Own(raw, t, key)
    ensures Lookup(h, stored, t, key).Some? ==> Sourced(h, raw, t, key, Lookup(h, stored, t, key).value)
  {
    if Lookup(h, raw, t, key).Some? {
      var a := FirstWithSome(raw, Listed(h, t), key);
      FirstWithMember(stored, Listed(h, t), a, key);
    }
    if Lookup(h, stored, t, key).Some? {
      var a := FirstWithSome(stored, Listed(h, t), key);
      ListedIsSelfOrAncestor(h, t, a);
      assert Sourced(h, stored, t, key, Own(stored, a, key).value);
      SourcedThrough(h, raw, stored, t, key, Own(stored, a, key).value);
      var b :| SelfOrAncestor(h, t, b) && Own(raw, b, key).Some?;
      ListedIsSelfOrAncestor(h, t, b);
      FirstWithMember(raw, Listed(h, t), b, key);
    }
  }

  // ---------- `get` reads the flattened table through the worklist of parent types ----------

  /** The first of `names` whose stored fields have the key. */
  ghost function FirstWith(data: Overwrites, names: seq<TypeName>, key: string): Option<Value> {
    if names == [] then None
    else if Own(data, names[0], key).Some? then Own(data, names[0], key)
    else FirstWith(data, names[1..], key)
  }

  /** The order in which `get` prefers types. */
  ghost function Listed(h: Hierarchy, t: TypeName): seq<TypeName>
    requires Acyclic(h)
  {
    [t] + ParentTypes(h, t)
  }

  ghost function Lookup(h: Hierarchy, data: Overwrites, t: TypeName, key: string): Option<Value>
    requires Acyclic(h)
  {
    FirstWith(data, Listed(h, t), key)
  }

  lemma ListedIsSelfOrAncestor(h: Hierarchy, t: TypeName, a: TypeName)
    requires Acyclic(h)
    ensures a in Listed(h, t) <==> SelfOrAncestor(h, t, a)
  {
    ParentTypesAreAncestors(h, t, a);
    assert Listed(h, t)[0] == t;
  }

  lemma {:induction false} FirstWithConcat(data: Overwrites, a: seq<TypeName>, b: seq<TypeName>, key: string)
    ensures FirstWith(data, a + b, key) ==
      if FirstWith(data, a, key).Some? then FirstWith(data, a, key) else FirstWith(data, b, key)
  {
    if a == [] {
      assert a + b == b;
    } else {
      assert (a + b)[1..] == a[1..] + b;
      FirstWithConcat(data, a[1..], b, key);
    }
  }

  lemma {:induction false} FirstWithMember(data: Overwrites, names: seq<TypeName>, t: TypeName, key: string)
    requires t in names && Own(data, t, key).Some?
    ensures FirstWith(data, names, key).Some?
  {
    if names[0] != t { FirstWithMember(data, names[1..], t, key); }
  }

  lemma {:induction false} FirstWithSome(data: Overwrites, names: seq<TypeName>, key: string) returns (t: TypeName)
    requires FirstWith(data, names, key).Some?
    ensures t in names && Own(data, t, key) == FirstWith(data, names, key)
  {
    if Own(data, names[0], key).Some? { t := names[0]; } else { t := FirstWithSome(data, names[1..], key); }
  }

  /** Repeated ancestors further down the worklist never win. */
  lemma {:induction false} FirstWithIsNearest(h: Hierarchy, data: Overwrites, t: TypeName, key: string)
    requires Chains(h)
    ensures Lookup(h, data, t, key) == Nearest(h, data, t, key)
    decreases Rank(h, t)
  {
    if !HasParent(h, t) {
      NothingAboveRoot(h, t);
      FirstWithConcat(data, [t], [], key);
      assert Listed(h, t) == [t] + [] && FirstWith(data, [t], key) == Own(data, t, key);
    } else {
      var p := Parent(h, t);
      var repeats := SingleParentShape(h, t);
      FirstWithIsNearest(h, data, p, key);
      var line := [p] + ParentTypes(h, p);
      assert [t] + ParentTypes(h, t) == [t] + (line + repeats);
      FirstWithConcat(data, [t], line + repeats, key);
      FirstWithConcat(data, line, repeats, key);
      if FirstWith(data, line, key).None? && FirstWith(data, repeats, key).Some? {
        var w := FirstWithSome(data, repeats, key);
        FirstWithMember(data, line, w, key);
      }
    }
  }

  ghost predicate IsLookup(h: Hierarchy, data: Overwrites, t: TypeName, fields: Fields)
    requires Acyclic(h)
  {
    forall key :: Field(fields, key) == Lookup(h, data, t, key)
  }

  ghost predicate IsNearest(h: Hierarchy, data: Overwrites, t: TypeName, fields: Fields)
    requires Chains(h)
  {
    forall key :: Field(fields, key) == Nearest(h, data, t, key)
  }

  /** Some self-or-ancestor of `t` has an entry, possibly an empty one. */
  ghost predicate HasEntry(h: Hierarchy, data: Overwrites, t: TypeName) {
    t in data || exists a :: a in data && Reaches(h, t, a)
  }

  // ---------- applying overwrites to stored credential data ----------

  predicate IsUnset(data: Fields, key: string) {
    key !in data || data[key] == Null || data[key] == Text("")
  }

  /** A field the user filled in differently; such credentials of skip-list types are left alone. */
  predicate Customized(overwrites: Fields, data: Fields) {
    exists key :: key in overwrites && !IsUnset(data, key) && data[key] != overwrites[key]
  }

  predicate Injects(overwrites: Fields, skipped: bool, data: Fields, key: string) {
    key in overwrites && IsUnset(data, key) && !(skipped && Customized(overwrites, data))
  }

  /** Stored data with every injected field filled in and nothing else touched. */
  ghost predicate IsApplied(overwrites: Fields, skipped: bool, data: Fields, applied: Fields) {
    forall key :: Field(applied, key) ==
      (if Injects(overwrites, skipped, data, key) then Some(overwrites[key]) else Field(data, key))
  }

  ghost predicate FilledExcept(overwrites: Fields, pending: set<string>, data: Fields, applied: Fields) {
    forall key :: Field(applied, key) ==
      (if key in overwrites && key !in pending && IsUnset(data, key) then Some(overwrites[key]) else Field(data, key))
  }

  class CredentialsOverwrites {
    const types: Hierarchy
    const skipTypes: set<TypeName>
    var overwriteData: Overwrites
    var resolvedTypes: seq<TypeName>
    /** The settings row holding the saved overwrites, if there is one. */
    var savedOverwrites: Option<Overwrites>

    constructor (types: Hierarchy, skipTypes: set<TypeName>)
      ensures this.types == types && this.skipTypes == skipTypes
      ensures overwriteData == map[] && resolvedTypes == [] && savedOverwrites == None
    {
      this.types, this.skipTypes := types, skipTypes;
      overwriteData, resolvedTypes, savedOverwrites := map[], [], None;
    }

    /** On single-inheritance hierarchies exactly what is visible past the memo; on all, a merge of the
        type's own fields over its ancestors', in which the last parent's own fields win. */
    method GetOverwrites(t: TypeName) returns (overwrites: Option<Fields>)
      requires Acyclic(types)
      modifies this`resolvedTypes
      ensures Resolution(overwrites, resolvedTypes) == Resolved(types, overwriteData, old(resolvedTypes), t)
      ensures overwrites.Some? ==> MergedFrom(types, overwriteData, t, overwrites.value)
      ensures Chains(types) ==> IsVisible(types, overwriteData, old(resolvedTypes), t, overwrites)
      ensures UpClosed(types, old(resolvedTypes)) ==> forall x ::
        x in resolvedTypes <==> x in old(resolvedTypes) || (x in types && SelfOrAncestor(types, t, x))
      decreases Rank(types, t)
    {
      ResolvedIsMerged(types, overwriteData, resolvedTypes, t);
      if UpClosed(types, resolvedTypes) { ResolvedMemo(types, overwriteData, resolvedTypes, t); }
      if Chains(types) { ResolvedIsVisible(types, overwriteData, resolvedTypes, t); }
      if t in resolvedTypes {
        return Entry(overwriteData, t);
      }
      if t !in types {
        return None;
      }
      var parents := Extends(types, t);
      if parents == [] {
        resolvedTypes := resolvedTypes + [t];
        return Entry(overwriteData, t);
      }
      var merged: Fields := map[];
      for i := 0 to |parents|
        invariant Inheritance(merged, resolvedTypes) == Inherited(types, overwriteData, old(resolvedTypes), t, i)
      {
        EdgeReaches(types, t, parents[i]);
        RankDecreases(types, t, parents[i]);
        var inherited := GetOverwrites(parents[i]);
        if inherited.Some? { merged := merged + inherited.value; }
      }
      if t in overwriteData { merged := merged + overwriteData[t]; }
      resolvedTypes := resolvedTypes + [t];
      return Some(merged);
    }

    /** Flattens in whatever order the keys are enumerated. */
    method SetPlainData(raw: Overwrites) returns (ghost order: seq<TypeName>)
      requires Acyclic(types)
      modifies this`resolvedTypes, this`overwriteData
      ensures IsFlattening(types, raw, overwriteData, order)
      ensures Flattening(overwriteData, resolvedTypes) == Flattened(types, raw, order)
      ensures Chains(types) ==> Sandwiched(types, raw, overwriteData) && SameLookup(types, overwriteData, raw)
    {
      resolvedTypes := [];
      overwriteData := raw;
      order := [];
      var pending := raw.Keys;
      while pending != {}
        invariant pending <= raw.Keys && IsOrder(order, raw.Keys - pending)
        invariant Flattening(overwriteData, resolvedTypes) == Flattened(types, raw, order)
        decreases pending
      {
        var t :| t in pending;
        assert (order + [t])[..|order|] == order;
        order := order + [t];
        var overwrites := GetOverwrites(t);
        if overwrites.Some? && overwrites.value != map[] {
          overwriteData := overwriteData[t := overwrites.value];
        }
        pending := pending - {t};
      }
      FlattenedIsSound(types, raw, order);
      FlatteningCollects(types, raw, order);
      if Chains(types) {
        FlattenedIsSandwiched(types, raw, order);
        FlatteningKeepsLookups(types, raw, overwriteData);
        FlatteningStoresClimbs(types, raw, order);
        FlattenedIsComplete(types, raw, overwriteData, order);
      }
    }

    /** `get`: later entries of the reversed worklist overwrite earlier ones. */
    method Get(name: TypeName) returns (fields: Option<Fields>)
      requires Acyclic(types)
      ensures fields.Some? <==> HasEntry(types, overwriteData, name)
      ensures fields.Some? ==> IsLookup(types, overwriteData, name, fields.value)
      ensures fields.Some? && Chains(types) ==> IsNearest(types, overwriteData, name, fields.value)
    {
      var parents := GetParentTypes(types, name);
      var names := [name] + parents;
      var found, acc: Fields := false, map[];
      var i := |names|;
      while i > 0
        invariant 0 <= i <= |names|
        invariant found <==> exists j :: i <= j < |names| && names[j] in overwriteData
        invariant forall key :: Field(acc, key) == FirstWith(overwriteData, names[i..], key)
      {
        i := i - 1;
        if names[i] in overwriteData {
          found, acc := true, acc + overwriteData[names[i]];
        }
        assert names[i..] == [names[i]] + names[i + 1..];
      }
      assert names[0..] == names;
      if Chains(types) {
        forall key ensures Field(acc, key) == Nearest(types, overwriteData, name, key) {
          FirstWithIsNearest(types, overwriteData, name, key);
        }
      }
      NamesAreSelfAndAncestors(types, overwriteData, name, names);
      fields := if found then Some(acc) else None;
    }

    method ApplyOverwrite(t: TypeName, data: Fields) returns (applied: Fields)
      requires Acyclic(types)
      ensures !HasEntry(types, overwriteData, t) ==> applied == data
      ensures HasEntry(types, overwriteData, t) ==> forall overwrites: Fields ::
        IsLookup(types, overwriteData, t, overwrites) ==> IsApplied(overwrites, t in skipTypes, data, applied)
    {
      var found := Get(t);
      if found.None? { return data; }
      forall other: Fields | IsLookup(types, overwriteData, t, other) ensures other == found.value {
        LookupIsUnique(types, overwriteData, t, other, found.value);
      }
      if t in skipTypes && Customized(found.value, data) { return data; }
      applied := data;
      var pending := found.value.Keys;
      while pending != {}
        invariant pending <= found.value.Keys
        invariant FilledExcept(found.value, pending, data, applied)
        decreases pending
      {
        var key :| key in pending;
        if IsUnset(applied, key) { applied := applied[key := found.value[key]]; }
        pending := pending - {key};
      }
    }

    /** Managed exactly when applying would put in a value the stored data does not already have. */
    method UsesManagedAuth(t: TypeName, data: Fields) returns (managed: bool)
      requires Acyclic(types)
      ensures managed <==> HasEntry(types, overwriteData, t) && exists overwrites: Fields, key ::
          IsLookup(types, overwriteData, t, overwrites) && Injects(overwrites, t in skipTypes, data, key)
          && Field(data, key) != Some(overwrites[key])
    {
      var found := Get(t);
      if found.None? { return false; }
      var applied := ApplyOverwrite(t, data);
      assert IsApplied(found.value, t in skipTypes, data, applied);
      managed := exists key :: key in found.value && Field(applied, key) != Field(data, key);
      if managed {
        var key :| key in found.value && Field(applied, key) != Field(data, key);
        assert Injects(found.value, t in skipTypes, data, key);
      }
      forall other: Fields, key | IsLookup(types, overwriteData, t, other) && Injects(other, t in skipTypes, data, key)
          && Field(data, key) != Some(other[key]) ensures managed {
        LookupIsUnique(types, overwriteData, t, found.value, other);
        assert key in found.value && Field(applied, key) != Field(data, key);
      }
    }

    /** One-click types: those for which this instance brings the client its OAuth version needs. */
    method IsManagedOAuthType(t: TypeName) returns (managed: bool)
      requires Acyclic(types)
      ensures managed <==> t in types && t !in skipTypes && BringsClient(types, overwriteData, t)
    {
      if t !in types { return false; }
      var parentTypes := GetParentTypes(types, t);
      var clientFields;
      if t == "oAuth2Api" || "oAuth2Api" in parentTypes {
        clientFields := {"clientId", "clientSecret"};
      } else if t == "oAuth1Api" || "oAuth1Api" in parentTypes {
        clientFields := {"consumerKey", "consumerSecret"};
      } else {
        return false;
      }
      if t in skipTypes { return false; }
      var overwrites := Get(t);
      EntryHasFields(types, overwriteData, t, overwrites, clientFields);
      return overwrites.Some? && clientFields <= overwrites.value.Keys;
    }

    // ---------- persistence ----------

    /** `setData`: the table that is saved is the one just flattened in place. */
    method SetData(raw: Overwrites, storeInDb: bool) returns (ghost order: seq<TypeName>)
      requires Acyclic(types)
      modifies this
      ensures IsFlattening(types, raw, overwriteData, order)
      ensures Chains(types) ==> SameLookup(types, overwriteData, raw)
      ensures savedOverwrites == if storeInDb then Some(overwriteData) else old(savedOverwrites)
    {
      order := SetPlainData(raw);
      if storeInDb { savedOverwrites := Some(overwriteData); }
    }

    method LoadOverwriteDataFromDB() returns (ghost order: seq<TypeName>)
      requires Acyclic(types)
      modifies this
      ensures savedOverwrites == old(savedOverwrites)
      ensures savedOverwrites.None? ==> overwriteData == old(overwriteData)
      ensures savedOverwrites.Some? ==> IsFlattening(types, savedOverwrites.value, overwriteData, order)
      ensures savedOverwrites.Some? && Chains(types) ==> SameLookup(types, overwriteData, savedOverwrites.value)
    {
      order := [];
      if savedOverwrites.Some? { order := SetData(savedOverwrites.value, false); }
    }

    /** Saving the flattened table and loading it, any number of times, never changes a lookup on
        single-inheritance hierarchies, nor on any which fields it has. */
    method SaveAndReload(times: nat)
      requires Acyclic(types)
      modifies this
      ensures Sound(types, old(overwriteData), overwriteData)
      ensures Chains(types) ==> SameLookup(types, overwriteData, old(overwriteData))
    {
      AsConfiguredIsSound(types, overwriteData);
      var i := 0;
      while i < times
        invariant Sound(types, old(overwriteData), overwriteData)
        invariant Chains(types) ==> SameLookup(types, overwriteData, old(overwriteData))
      {
        ghost var before := overwriteData;
        ghost var _ := SetData(overwriteData, true);
        SoundTransitive(types, old(overwriteData), before, overwriteData);
        ghost var saved := overwriteData;
        ghost var _ := LoadOverwriteDataFromDB();
        SoundTransitive(types, old(overwriteData), saved, overwriteData);
        i := i + 1;
      }
    }
  }

  lemma StoringFlattenedIsSound(h: Hierarchy, raw: Overwrites, stored: Overwrites, memo: seq<TypeName>,
                                t: TypeName, fields: Fields)
    requires Chains(h) && Sandwiched(h, raw, stored) && t in raw
    requires IsVisible(h, stored, memo, t, Some(fields)) && fields != map[]
    ensures Sandwiched(h, raw, stored[t := fields])
  {
    var key0 :| key0 in fields;
    assert Field(fields, key0).Some?;
    assert t in memo || t in h by { assert Visible(h, stored, memo, t, key0).Some?; }
    var stored' := stored[t := fields];
    forall u, key ensures Own(stored', u, key).Some? ==> Own(stored', u, key) == Nearest(h, raw, u, key) {
      VisibleIsNearest(h, raw, stored, memo, t, key);
    }
  }

  lemma NamesAreSelfAndAncestors(h: Hierarchy, data: Overwrites, name: TypeName, names: seq<TypeName>)
    requires names != [] && names[0] == name && forall a :: a in names[1..] <==> Reaches(h, name, a)
    ensures (exists j :: 0 <= j < |names| && names[j] in data) <==> HasEntry(h, data, name)
  {
    if j :| 0 <= j < |names| && names[j] in data {
      if j > 0 { assert names[j] in names[1..]; }
    }
    forall a | a in data && (a == name || Reaches(h, name, a))
      ensures exists j :: 0 <= j < |names| && names[j] in data
    {
      assert a in names by { if a != name { assert a in names[1..]; } else { assert names[0] == a; } }
    }
  }

  lemma LookupIsUnique(h: Hierarchy, data: Overwrites, t: TypeName, a: Fields, b: Fields)
    requires Acyclic(h) && IsLookup(h, data, t, a) && IsLookup(h, data, t, b)
    ensures a == b
  {
    forall key ensures Field(a, key) == Field(b, key) { assert Field(a, key) == Lookup(h, data, t, key); }
    SameFields(a, b);
  }

  ghost predicate HasFields(h: Hierarchy, data: Overwrites, t: TypeName, keys: set<string>)
    requires Acyclic(h)
  {
    forall key :: key in keys ==> Lookup(h, data, t, key).Some?
  }

  /** OAuth2 decides before OAuth1, by descent, which pair of fields makes a client. */
  ghost predicate BringsClient(h: Hierarchy, data: Overwrites, t: TypeName)
    requires Acyclic(h)
  {
    if SelfOrAncestor(h, t, "oAuth2Api") then HasFields(h, data, t, {"clientId", "clientSecret"})
    else SelfOrAncestor(h, t, "oAuth1Api") && HasFields(h, data, t, {"consumerKey", "consumerSecret"})
  }

  lemma EntryHasFields(h: Hierarchy, data: Overwrites, t: TypeName, found: Option<Fields>, keys: set<string>)
    requires Acyclic(h) && keys != {} && (found.Some? <==> HasEntry(h, data, t))
    requires found.Some? ==> IsLookup(h, data, t, found.value)
    ensures HasFields(h, data, t, keys) <==> found.Some? && keys <= found.value.Keys
  {
    var key :| key in keys;
    if Lookup(h, data, t, key).Some? {
      var a := FirstWithSome(data, Listed(h, t), key);
      ListedIsSelfOrAncestor(h, t, a);
    }
    if found.Some? {
      forall key ensures key in found.value <==> Lookup(h, data, t, key).Some? {
        assert Field(found.value, key) == Lookup(h, data, t, key);
      }
    }
  }

  lemma OwnIsMerged(h: Hierarchy, data: Overwrites, t: TypeName)
    ensures t in data ==> MergedFrom(h, data, t, data[t])
  {
    if t in data {
      forall key | key in data[t] ensures Sourced(h, data, t, key, data[t][key]) {
        assert SelfOrAncestor(h, t, t) && Own(data, t, key) == Some(data[t][key]);
      }
    }
  }

  lemma AsConfiguredIsSound(h: Hierarchy, raw: Overwrites)
    ensures Sound(h, raw, raw)
  {
    forall t, key | Own(raw, t, key).Some? ensures Sourced(h, raw, t, key, Own(raw, t, key).value) {
      assert SelfOrAncestor(h, t, t);
    }
  }

  // ---------- exactly the hierarchies on which lookups survive ----------

  ghost predicate LookupsSurvive(h: Hierarchy, raw: Overwrites, order: seq<TypeName>)
    requires Acyclic(h)
  {
    forall t, key :: Lookup(h, Flattened(h, raw, order).stored, t, key) == Lookup(h, raw, t, key)
  }

  /** Every type that is named is known, and none is named twice by one type. */
  ghost predicate WellFormed(h: Hierarchy) {
    && Acyclic(h)
    && (forall t, p :: t in h && p in h[t] ==> p in h)
    && (forall t, i, j :: t in h && 0 <= i < j < |h[t]| ==> h[t][i] != h[t][j])
  }

  /** Of two parents with the same field `get` finds the first one's and `getOverwrites` the last one's. */
  lemma ParentsRankedDifferently(h: Hierarchy, data: Overwrites, memo: seq<TypeName>, t: TypeName, key: string)
    requires Acyclic(h) && t in h && h[t] != [] && t !in memo && Own(data, t, key).None?
    requires var first, last := h[t][0], h[t][|h[t]| - 1];
      last in h && Own(data, first, key).Some? && Own(data, last, key).Some?
    ensures Lookup(h, data, t, key) == Own(data, h[t][0], key)
    ensures var r := Resolved(h, data, memo, t);
      r.found.Some? && Field(r.found.value, key) == Own(data, h[t][|h[t]| - 1], key)
  {
    InheritedIsMerged(h, data, memo, t, |h[t]|);
    WorklistEquation(h, t);
    assert Listed(h, t)[0] == t && Listed(h, t)[1..] == ParentTypes(h, t) && ParentTypes(h, t)[0] == h[t][0];
    assert FirstWith(data, ParentTypes(h, t), key) == Own(data, h[t][0], key);
  }

  function Rivals(first: TypeName, last: TypeName, t: TypeName): Overwrites {
    map[t := map[], first := map["k" := Number(1)], last := map["k" := Number(2)]]
  }

  /** A type below two rivals takes over the last one's field when it is visited, and keeps it. */
  lemma {:induction false} LastRivalIsStored(h: Hierarchy, t: TypeName, order: seq<TypeName>)
    requires WellFormed(h) && t in h && |h[t]| >= 2
    requires var raw := Rivals(h[t][0], h[t][|h[t]| - 1], t); forall x :: x in order ==> x in raw
    requires forall i, j :: 0 <= i < j < |order| ==> order[i] != order[j]
    ensures var raw := Rivals(h[t][0], h[t][|h[t]| - 1], t);
      Own(Flattened(h, raw, order).stored, t, "k") == if t in order then Some(Number(2)) else None
  {
    var first, last := h[t][0], h[t][|h[t]| - 1];
    var raw := Rivals(first, last, t);
    EdgeReaches(h, t, first);
    EdgeReaches(h, t, last);
    if order != [] {
      var n := |order| - 1;
      LastRivalIsStored(h, t, order[..n]);
      if order[n] == t {
        assert t !in order[..n];
        VisitTakesLastRival(h, t, order[..n]);
      }
      assert forall x :: x in order <==> x in order[..n] || x == order[n];
    }
  }

  lemma VisitTakesLastRival(h: Hierarchy, t: TypeName, order: seq<TypeName>)
    requires WellFormed(h) && t in h && |h[t]| >= 2 && t !in order && forall x :: x in order ==> Reaches(h, t, x)
    requires var raw := Rivals(h[t][0], h[t][|h[t]| - 1], t);
      (forall x :: x in order ==> x in raw) && Own(Flattened(h, raw, order).stored, t, "k") == None
    ensures var before := Flattened(h, Rivals(h[t][0], h[t][|h[t]| - 1], t), order);
      var r := Resolved(h, before.stored, before.memo, t);
      r.found.Some? && Field(r.found.value, "k") == Some(Number(2))
  {
    var first, last := h[t][0], h[t][|h[t]| - 1];
    var raw := Rivals(first, last, t);
    EdgeReaches(h, t, last);
    assert Own(raw, last, "k") == Some(Number(2)) && Own(raw, first, "k").Some?;
    var before := Flattened(h, raw, order);
    FlattenedIsSound(h, raw, order);
    NotYetVisited(h, raw, order, t);
    ParentsRankedDifferently(h, before.stored, before.memo, t, "k");
  }

  /** Nobody else's visit memoises a type that no other configured type descends from. */
  lemma NotYetVisited(h: Hierarchy, raw: Overwrites, order: seq<TypeName>, t: TypeName)
    requires Acyclic(h) && t !in order && forall x :: x in order ==> Reaches(h, t, x)
    ensures t !in Flattened(h, raw, order).memo
  {
    FlattenedMemo(h, raw, order);
    if t in Flattened(h, raw, order).memo {
      var u :| u in order && SelfOrAncestor(h, u, t);
      ReachesTransitive(h, t, u, t);
    }
  }

  /** On well-formed hierarchies: with single inheritance flattening keeps every lookup of every table in
      every key order, and with a type of several parents some table loses a lookup in every key order. */
  lemma LookupsSurviveIffSingleInheritance(h: Hierarchy)
    requires WellFormed(h)
    ensures SingleInheritance(h) <==>
      forall raw: Overwrites, order :: IsOrder(order, raw.Keys) ==> LookupsSurvive(h, raw, order)
    ensures !SingleInheritance(h) ==>
      exists raw: Overwrites :: forall order :: IsOrder(order, raw.Keys) ==> !LookupsSurvive(h, raw, order)
  {
    if SingleInheritance(h) {
      forall raw: Overwrites, order | IsOrder(order, raw.Keys) ensures LookupsSurvive(h, raw, order) {
        ChainsKeepLookups(h, raw, order);
      }
    } else {
      var t :| t in h && |h[t]| > 1;
      var raw := Rivals(h[t][0], h[t][|h[t]| - 1], t);
      forall order | IsOrder(order, raw.Keys) ensures !LookupsSurvive(h, raw, order) { RivalsLoseLookup(h, t, order); }
      var order := SomeOrder(raw.Keys);
    }
  }

  lemma ChainsKeepLookups(h: Hierarchy, raw: Overwrites, order: seq<TypeName>)
    requires Chains(h) && IsOrder(order, raw.Keys)
    ensures LookupsSurvive(h, raw, order)
  {
    FlattenedIsSandwiched(h, raw, order);
    var stored := Flattened(h, raw, order).stored;
    forall t, key ensures Lookup(h, stored, t, key) == Lookup(h, raw, t, key) {
      SandwichedLookup(h, raw, stored, t, key);
      FirstWithIsNearest(h, raw, t, key);
      FirstWithIsNearest(h, stored, t, key);
    }
  }

  lemma RivalsLoseLookup(h: Hierarchy, t: TypeName, order: seq<TypeName>)
    requires WellFormed(h) && t in h && |h[t]| >= 2
    requires IsOrder(order, Rivals(h[t][0], h[t][|h[t]| - 1], t).Keys)
    ensures !LookupsSurvive(h, Rivals(h[t][0], h[t][|h[t]| - 1], t), order)
  {
    var raw := Rivals(h[t][0], h[t][|h[t]| - 1], t);
    EdgeReaches(h, t, h[t][0]);
    EdgeReaches(h, t, h[t][|h[t]| - 1]);
    LastRivalIsStored(h, t, order);
    ParentsRankedDifferently(h, raw, [], t, "k");
    var stored := Flattened(h, raw, order).stored;
    assert Listed(h, t)[0] == t;
    assert Lookup(h, stored, t, "k") != Lookup(h, raw, t, "k");
  }

  lemma {:induction false} SomeOrder(types: set<TypeName>) returns (order: seq<TypeName>)
    ensures IsOrder(order, types)
  {
    order := [];
    if types != {} {
      var t :| t in types;
      order := SomeOrder(types - {t});
      order := order + [t];
    }
  }

  // ---------- laws of applying ----------

  /** Applying keeps every filled-in field, is idempotent, and leaves nothing to inject a second time
      that the data does not have already; for skip-list types too. */
  lemma ApplyLaws(overwrites: Fields, skipped: bool, data: Fields, applied: Fields, again: Fields)
    requires IsApplied(overwrites, skipped, data, applied) && IsApplied(overwrites, skipped, applied, again)
    ensures forall key :: !IsUnset(data, key) ==> Field(applied, key) == Field(data, key)
    ensures again == applied
    ensures forall key :: Injects(overwrites, skipped, applied, key) ==> Field(applied, key) == Some(overwrites[key])
  {
    if Customized(overwrites, data) { CustomizedStays(overwrites, skipped, data, applied); }
    forall key ensures Injects(overwrites, skipped, applied, key) ==> Field(applied, key) == Some(overwrites[key]) {
      assert Field(applied, key) ==
        if Injects(overwrites, skipped, data, key) then Some(overwrites[key]) else Field(data, key);
    }
    forall key ensures Field(again, key) == Field(applied, key) {}
    SameFields(again, applied);
  }

  /** A credential of a skip-list type with a field filled in differently stays as it is; in any other every
      missing, null or empty field that has an overwrite is filled. */
  lemma AppliedUnlessCustomized(overwrites: Fields, skipped: bool, data: Fields, applied: Fields)
    requires IsApplied(overwrites, skipped, data, applied)
    ensures if skipped && exists key ::
                 key in overwrites && key in data && data[key] !in {Null, Text(""), overwrites[key]}
            then applied == data
            else forall key :: key in overwrites && (key in data ==> data[key] in {Null, Text("")}) ==>
                   Field(applied, key) == Some(overwrites[key])
  {
    if skipped && exists key :: key in overwrites && key in data && data[key] !in {Null, Text(""), overwrites[key]} {
      var key :| key in overwrites && key in data && data[key] !in {Null, Text(""), overwrites[key]};
      assert Customized(overwrites, data);
      SameFields(applied, data);
    } else {
      assert !(skipped && Customized(overwrites, data));
    }
  }

  lemma CustomizedStays(overwrites: Fields, skipped: bool, data: Fields, applied: Fields)
    requires IsApplied(overwrites, skipped, data, applied) && Customized(overwrites, data)
    ensures Customized(overwrites, applied)
  {
    var key :| key in overwrites && !IsUnset(data, key) && data[key] != overwrites[key];
    assert Field(applied, key) == Field(data, key);
  }

  lemma SameFields(a: Fields, b: Fields)
    requires forall key :: Field(a, key) == Field(b, key)
    ensures a == b
  {
    forall key ensures (key in a <==> key in b) && (key in a ==> a[key] == b[key]) {
      assert Field(a, key) == Field(b, key);
    }
  }
}
