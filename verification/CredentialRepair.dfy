/** `replaceInvalidCredentials`: repairs the credential references of a workflow's nodes against the
    database, with a cache of three kinds of entries that is shared across nodes and across calls
    for the same project. What a repair is, `IsRepair`, is said of the rows of the database alone. */
module CredentialRepair {
  import opened Common

  type CredentialType = string

  /** What a node stores for a credential type. `Bare` is the old format, a plain name;
      `Missing` is null or undefined; `Managed` is resolved at execution time. */
  datatype Reference =
    | Missing
    | Managed
    | Bare(name: string)
    | Details(id: Option<string>, name: string)

  datatype Row = Row(id: string, name: string, credType: CredentialType, inProject: bool)

  /** The credentials table; ids are unique. */
  type Database = rows: set<Row> | forall a, b :: a in rows && b in rows && a.id == b.id ==> a == b
    witness {}

  // ---------- the two queries ----------

  ghost function ById(db: Database, id: string, t: CredentialType): set<Row> {
    set r | r in db && r.id == id && r.credType == t
  }

  /** Restricted to credentials usable in the workflow's project. */
  ghost function ByName(db: Database, name: string, t: CredentialType): set<Row> {
    set r | r in db && r.name == name && r.credType == t && r.inProject
  }

  function FindOneBy(db: Database, id: string, t: CredentialType): (found: Option<Row>)
    ensures found.None? <==> ById(db, id, t) == {}
    ensures found.Some? ==> ById(db, id, t) == {found.value}
  {
    var rows := set r | r in db && r.id == id && r.credType == t;
    if rows == {} then None else
      assert forall a, b :: a in rows && b in rows ==> a == b;
      SingletonPick(rows);
      var r :| r in rows;
      assert rows == {r};
      Some(r)
  }

  /** The one credential of that name and type in the project, if there is exactly one. */
  function FindUniqueByName(db: Database, name: string, t: CredentialType): (found: Option<Row>)
    ensures found.Some? <==> |ByName(db, name, t)| == 1
    ensures found.Some? ==> ByName(db, name, t) == {found.value}
  {
    var rows := set r | r in db && r.name == name && r.credType == t && r.inProject;
    if |rows| != 1 then None else
      SingletonEquality(rows);
      var r :| r in rows;
      assert rows == {r};
      Some(r)
  }

  lemma SingletonEquality<T>(s: set<T>)
    requires |s| == 1
    ensures forall a, b :: a in s && b in s ==> a == b
  {
    var x :| x in s;
    assert |s - {x}| == 0;
    assert s == {x};
  }

  lemma SingletonPick<T>(s: set<T>)
    requires s != {} && forall a, b :: a in s && b in s ==> a == b
    ensures |s| == 1
  {
    var x :| x in s;
    assert s == {x};
  }

  // ---------- what a repair is ----------

  /** A bare name means the same as details without an id. */
  function Normal(c: Reference): Reference {
    if c.Bare? then Details(None, c.name) else c
  }

  /** The reference is to the one row of the set. */
  ghost predicate RefersTo(r: Reference, rows: set<Row>) {
    exists row :: rows == {row} && r == Details(Some(row.id), row.name)
  }

  /** By name: the only row of that name and type in the project; otherwise the reference stays, where a bare
      name may turn into details without an id. */
  ghost predicate IsRepairByName(db: Database, t: CredentialType, c: Reference, name: string, r: Reference) {
    if |ByName(db, name, t)| == 1 then RefersTo(r, ByName(db, name, t)) else r == c || r == Normal(c)
  }

  /** An id that exists gets the name its row has by now, an id that does not exist counts for nothing: then
      the name decides, as it does where there is no id. */
  ghost predicate IsRepair(db: Database, t: CredentialType, c: Reference, r: Reference) {
    match c
    case Missing => r == c
    case Managed => r == c
    case Bare(name) => IsRepairByName(db, t, c, name, r)
    case Details(None, name) => IsRepairByName(db, t, c, name, r)
    case Details(Some(id), name) =>
      if ById(db, id, t) != {} then RefersTo(r, ById(db, id, t)) else IsRepairByName(db, t, c, name, r)
  }

  /** There is a repair of every reference, and but for the form of an unresolved bare name only one. */
  lemma RepairIsUnique(db: Database, t: CredentialType, c: Reference, a: Reference, b: Reference)
    requires IsRepair(db, t, c, a) && IsRepair(db, t, c, b)
    ensures Normal(a) == Normal(b)
  {}

  /** Repairing a repaired reference changes nothing. */
  lemma ReferenceIsRepairedOnce(db: Database, t: CredentialType, c: Reference, once: Reference, twice: Reference)
    requires IsRepair(db, t, c, once) && IsRepair(db, t, once, twice)
    ensures Normal(twice) == Normal(once)
  {
    if once.Details? && once.id.Some? && once != c {
      var row :| row in db && once == Details(Some(row.id), row.name) && row.credType == t;
      assert row in ById(db, row.id, t);
    }
  }

  // ---------- the cache ----------

  datatype Key =
    | NameKey(t: CredentialType, name: string)
    | IdKey(t: CredentialType, id: string)
    | IdAndNameKey(t: CredentialType, id: string, name: string)

  /** What a cached answer of each kind promises about the database. */
  ghost predicate Justified(db: Database, key: Key, answer: Reference) {
    match key
    case NameKey(t, name) => IsRepair(db, t, Details(None, name), answer)
    case IdKey(t, id) => RefersTo(answer, ById(db, id, t))
    case IdAndNameKey(t, id, name) => ById(db, id, t) == {} && IsRepair(db, t, Details(Some(id), name), answer)
  }

  class Cache {
    var entries: map<Key, Reference>

    ghost predicate Valid(db: Database)
      reads this
    {
      forall key :: key in entries ==> Justified(db, key, entries[key])
    }

    constructor ()
      ensures entries == map[]
    {
      entries := map[];
    }
  }

  datatype Node = Node(disabled: bool, credentials: Option<map<CredentialType, Reference>>)

  /** The credential types that are object internals and are never looked up. */
  const UNSAFE_PROPERTIES: set<CredentialType> :=
    {"__proto__", "prototype", "constructor", "getPrototypeOf", "setPrototypeOf", "getOwnPropertyDescriptor",
     "getOwnPropertyDescriptors", "defineProperty", "defineProperties", "mainModule", "binding", "_linkedBinding",
     "_load", "prepareStackTrace", "__lookupGetter__", "__lookupSetter__", "__defineGetter__", "__defineSetter__",
     "caller", "callee", "arguments", "getBuiltinModule", "dlopen", "execve", "loadEnvFile"}

  ghost predicate Untouched(node: Node) { node.disabled || node.credentials.None? }

  /** The repaired node. */
  ghost predicate IsRepaired(db: Database, before: Node, after: Node) {
    if Untouched(before) then after == before else
      && after.disabled == before.disabled && after.credentials.Some?
      && CredentialsRepaired(db, before.credentials.value, {}, after.credentials.value)
  }

  /** Entries not `pending` are repaired, the others are as before; the set of types never changes. */
  ghost predicate CredentialsRepaired(db: Database, before: map<CredentialType, Reference>,
                                      pending: set<CredentialType>, after: map<CredentialType, Reference>)
  {
    && after.Keys == before.Keys
    && forall t :: t in before ==>
      if t in pending || t in UNSAFE_PROPERTIES then after[t] == before[t]
      else IsRepair(db, t, before[t], after[t])
  }

  function ReferenceTo(row: Row): Reference { Details(Some(row.id), row.name) }

  /** The body of the inner loop for one reference of a node. */
  method ReplaceReference(db: Database, cache: Cache, t: CredentialType, c: Reference) returns (r: Reference)
    requires cache.Valid(db)
    modifies cache
    ensures cache.Valid(db) && old(cache.entries.Keys) <= cache.entries.Keys
    ensures IsRepair(db, t, c, r)
  {
    if c.Missing? || c.Managed? { return c; }
    if c.Bare? || c.id.None? {
      var nameKey := NameKey(t, c.name);
      if nameKey !in cache.entries {
        var byName := FindUniqueByName(db, c.name, t);
        if byName.Some? {
          cache.entries := cache.entries[nameKey := ReferenceTo(byName.value)];
          return ReferenceTo(byName.value);
        }
        cache.entries := cache.entries[nameKey := Details(None, c.name)];
        return c;
      }
      return cache.entries[nameKey];
    }
    var idKey, idAndNameKey := IdKey(t, c.id.value), IdAndNameKey(t, c.id.value, c.name);
    if idAndNameKey in cache.entries {
      assert Justified(db, idAndNameKey, cache.entries[idAndNameKey]);
      return cache.entries[idAndNameKey];
    }
    if idKey in cache.entries {
      assert Justified(db, idKey, cache.entries[idKey]);
      return cache.entries[idKey];
    }
    var byId := FindOneBy(db, c.id.value, t);
    if byId.Some? {
      cache.entries := cache.entries[idKey := ReferenceTo(byId.value)];
      return ReferenceTo(byId.value);
    }
    var byName := FindUniqueByName(db, c.name, t);
    if byName.Some? {
      assert byName.value in ById(db, byName.value.id, t);
      cache.entries := cache.entries[idAndNameKey := ReferenceTo(byName.value)];
      cache.entries := cache.entries[IdKey(t, byName.value.id) := ReferenceTo(byName.value)];
      return ReferenceTo(byName.value);
    }
    cache.entries := cache.entries[idAndNameKey := c];
    return c;
  }

  /** Every node is repaired against the rows of the database as they are, in any order of a node's entries and
      with any cache that earlier repairs of the same project left behind. */
  method ReplaceInvalidCredentials(db: Database, nodes: array<Node>, cache: Cache)
    requires cache.Valid(db)
    modifies nodes, cache
    ensures cache.Valid(db)
    ensures forall i :: 0 <= i < nodes.Length ==> IsRepaired(db, old(nodes[i]), nodes[i])
  {
    var i := 0;
    while i < nodes.Length
      invariant 0 <= i <= nodes.Length && cache.Valid(db)
      invariant RepairedUpTo(db, old(nodes[..]), nodes[..], i)
    {
      ghost var soFar := nodes[..];
      var repaired := RepairNode(db, nodes[i], cache);
      RepairOneMore(db, old(nodes[..]), soFar, i, repaired);
      nodes[i] := repaired;
      assert nodes[..] == soFar[i := repaired];
      i := i + 1;
    }
  }

  /** The first `n` nodes are repaired, the others as they were. */
  ghost predicate RepairedUpTo(db: Database, before: seq<Node>, after: seq<Node>, n: nat) {
    && n <= |before| == |after|
    && (forall j :: 0 <= j < n ==> IsRepaired(db, before[j], after[j]))
    && (forall j :: n <= j < |before| ==> after[j] == before[j])
  }

  lemma RepairOneMore(db: Database, before: seq<Node>, after: seq<Node>, n: nat, repaired: Node)
    requires RepairedUpTo(db, before, after, n) && n < |before| && IsRepaired(db, after[n], repaired)
    ensures RepairedUpTo(db, before, after[n := repaired], n + 1)
  {}

  /** Nodes that are disabled or have no credentials are passed over. */
  method RepairNode(db: Database, node: Node, cache: Cache) returns (repaired: Node)
    requires cache.Valid(db)
    modifies cache
    ensures cache.Valid(db) && IsRepaired(db, node, repaired)
  {
    if node.credentials.None? || node.disabled { return node; }
    var credentials := ReplaceNodeCredentials(db, node.credentials.value, cache);
    return node.(credentials := Some(credentials));
  }

  method ReplaceNodeCredentials(db: Database, before: map<CredentialType, Reference>, cache: Cache)
      returns (credentials: map<CredentialType, Reference>)
    requires cache.Valid(db)
    modifies cache
    ensures cache.Valid(db)
    ensures CredentialsRepaired(db, before, {}, credentials)
  {
    credentials := before;
    var pending := before.Keys;
    while pending != {}
      invariant pending <= before.Keys && cache.Valid(db)
      invariant CredentialsRepaired(db, before, pending, credentials)
      decreases pending
    {
      var t :| t in pending;
      if t !in UNSAFE_PROPERTIES {
        var r := ReplaceReference(db, cache, t, before[t]);
        credentials := credentials[t := r];
      }
      pending := pending - {t};
    }
  }

  /** Two repairs in a row, with unrelated caches, end in the same references as one, up to the normal form. */
  lemma RepairIsIdempotent(db: Database, before: Node, once: Node, twice: Node)
    requires IsRepaired(db, before, once) && IsRepaired(db, once, twice)
    ensures Untouched(before) ==> twice == before
    ensures !Untouched(before) ==> !Untouched(twice) && twice.credentials.value.Keys == once.credentials.value.Keys
    ensures !Untouched(before) ==> forall t :: t in once.credentials.value ==>
      Normal(twice.credentials.value[t]) == Normal(once.credentials.value[t])
  {
    if !Untouched(before) {
      forall t | t in once.credentials.value
        ensures Normal(twice.credentials.value[t]) == Normal(once.credentials.value[t])
      {
        var c := before.credentials.value[t];
        if t !in UNSAFE_PROPERTIES {
          ReferenceIsRepairedOnce(db, t, c, once.credentials.value[t], twice.credentials.value[t]);
        }
      }
    }
  }
}
