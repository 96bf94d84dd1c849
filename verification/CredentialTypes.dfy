/** Credential type inheritance: `CredentialTypes.getParentTypes`.

    The source walks a worklist that grows while it is being iterated. Here the
    worklist is a method with that loop, and what it returns is pinned down by the
    equation every finished worklist satisfies (`WorklistEquation`) and by reachability. */
module CredentialTypes {

  type TypeName = string

  /** Known credential types with the types they extend; a type without `extends` maps to []. */
  type Hierarchy = map<TypeName, seq<TypeName>>

  function Extends(h: Hierarchy, t: TypeName): seq<TypeName> {
    if t in h then h[t] else []
  }

  // ---------- reachability over `extends` ----------

  ghost predicate IsPath(h: Hierarchy, p: seq<TypeName>) {
    |p| >= 2 && forall i :: 0 <= i < |p| - 1 ==> p[i + 1] in Extends(h, p[i])
  }

  ghost predicate PathBetween(h: Hierarchy, p: seq<TypeName>, t: TypeName, a: TypeName) {
    IsPath(h, p) && p[0] == t && p[|p| - 1] == a
  }

  /** `a` is reachable from `t` by one or more `extends` edges: `a` is a strict ancestor of `t`. */
  ghost predicate Reaches(h: Hierarchy, t: TypeName, a: TypeName) {
    exists p :: PathBetween(h, p, t, a)
  }

  ghost predicate Acyclic(h: Hierarchy) {
    forall t :: !Reaches(h, t, t)
  }

  lemma EdgeReaches(h: Hierarchy, t: TypeName, p: TypeName)
    requires p in Extends(h, t)
    ensures Reaches(h, t, p)
  {
    assert PathBetween(h, [t, p], t, p);
  }

  lemma ReachesTransitive(h: Hierarchy, a: TypeName, b: TypeName, c: TypeName)
    requires Reaches(h, a, b) && Reaches(h, b, c)
    ensures Reaches(h, a, c)
  {
    var p :| PathBetween(h, p, a, b);
    var q :| PathBetween(h, q, b, c);
    assert PathBetween(h, p + q[1..], a, c);
  }

  /** Every path starts with an edge: the ancestors are the parents and their ancestors. */
  lemma ReachesUnfold(h: Hierarchy, t: TypeName, a: TypeName)
    ensures Reaches(h, t, a) <==> exists p :: p in Extends(h, t) && (p == a || Reaches(h, p, a))
  {
    if Reaches(h, t, a) {
      var w :| PathBetween(h, w, t, a);
      assert w[1] in Extends(h, t);
      if |w| > 2 {
        assert PathBetween(h, w[1..], w[1], a);
      }
    }
    forall p | p in Extends(h, t) && (p == a || Reaches(h, p, a)) ensures Reaches(h, t, a) {
      EdgeReaches(h, t, p);
      if p != a { ReachesTransitive(h, t, p, a); }
    }
  }

  // ---------- rank: the number of strict ancestors ----------

  ghost function Parents(h: Hierarchy): set<TypeName> {
    set t, i | t in h && 0 <= i < |h[t]| :: h[t][i]
  }

  ghost function Ancestors(h: Hierarchy, t: TypeName): set<TypeName> {
    set a | a in Parents(h) && Reaches(h, t, a)
  }

  lemma AncestorsExact(h: Hierarchy, t: TypeName, a: TypeName)
    ensures a in Ancestors(h, t) <==> Reaches(h, t, a)
  {
    if Reaches(h, t, a) {
      var p :| PathBetween(h, p, t, a);
      assert a in Extends(h, p[|p| - 2]);
    }
  }

  ghost function Rank(h: Hierarchy, t: TypeName): nat { |Ancestors(h, t)| }

  lemma SubsetSmaller<T>(a: set<T>, b: set<T>, x: T)
    requires a <= b && x in b && x !in a
    ensures |a| < |b|
  {
    assert a + (b - a) == b;
    assert x in b - a;
  }

  lemma RankDecreases(h: Hierarchy, t: TypeName, a: TypeName)
    requires Acyclic(h) && Reaches(h, t, a)
    ensures Rank(h, a) < Rank(h, t)
  {
    forall x | x in Ancestors(h, a) ensures x in Ancestors(h, t) {
      ReachesTransitive(h, t, a, x);
    }
    AncestorsExact(h, t, a);
    SubsetSmaller(Ancestors(h, a), Ancestors(h, t), a);
  }

  // ---------- what the finished worklist is ----------

  ghost predicate RanksBelow(h: Hierarchy, k: nat, q: seq<TypeName>) {
    forall i :: 0 <= i < |q| ==> Rank(h, q[i]) < k
  }

  /** The list `getParentTypes` returns on an acyclic hierarchy, built one generation at a time. */
  ghost function ParentTypes(h: Hierarchy, t: TypeName): (r: seq<TypeName>)
    requires Acyclic(h)
    ensures forall x :: x in r ==> Reaches(h, t, x)
    decreases Rank(h, t), 2, 0
  {
    var q := Extends(h, t);
    assert forall i :: 0 <= i < |q| ==> Reaches(h, t, q[i]) && Rank(h, q[i]) < Rank(h, t) by {
      forall i | 0 <= i < |q| ensures Reaches(h, t, q[i]) && Rank(h, q[i]) < Rank(h, t) {
        EdgeReaches(h, t, q[i]);
        RankDecreases(h, t, q[i]);
      }
    }
    var r := Generations(h, t, Rank(h, t), q);
    r
  }

  /** A generation of pending types followed by all later generations. */
  ghost function Generations(h: Hierarchy, t: TypeName, k: nat, q: seq<TypeName>): (r: seq<TypeName>)
    requires Acyclic(h) && RanksBelow(h, k, q) && k <= Rank(h, t)
    requires forall x :: x in q ==> Reaches(h, t, x)
    ensures forall x :: x in r ==> Reaches(h, t, x)
    decreases k, 1, 0
  {
    if q == [] then [] else
      assert k > 0 by { assert Rank(h, q[0]) < k; }
      q + Generations(h, t, k - 1, NextGeneration(h, t, k, q))
  }

  /** What visiting every element of `q` pushes. */
  ghost function NextGeneration(h: Hierarchy, t: TypeName, k: nat, q: seq<TypeName>): (r: seq<TypeName>)
    requires Acyclic(h) && RanksBelow(h, k, q) && k <= Rank(h, t)
    requires forall x :: x in q ==> Reaches(h, t, x)
    ensures forall x :: x in r ==> Reaches(h, t, x)
    ensures k > 0 ==> RanksBelow(h, k - 1, r)
    decreases k, 0, |q|
  {
    if q == [] then [] else
      assert q[0] in q && Rank(h, q[0]) < k;
      var r := ParentTypes(h, q[0]);
      assert forall x :: x in r ==> Reaches(h, t, x) && Rank(h, x) < k - 1 by {
        forall x | x in r ensures Reaches(h, t, x) && Rank(h, x) < k - 1 {
          ReachesTransitive(h, t, q[0], x);
          RankDecreases(h, q[0], x);
        }
      }
      r + NextGeneration(h, t, k, q[1..])
  }

  /** Concatenation of the parent lists of a list of types. */
  ghost function ParentsOfAll(h: Hierarchy, q: seq<TypeName>): seq<TypeName>
    requires Acyclic(h)
  {
    if q == [] then [] else ParentTypes(h, q[0]) + ParentsOfAll(h, q[1..])
  }

  lemma {:induction false} ParentsOfAllConcat(h: Hierarchy, a: seq<TypeName>, b: seq<TypeName>)
    requires Acyclic(h)
    ensures ParentsOfAll(h, a + b) == ParentsOfAll(h, a) + ParentsOfAll(h, b)
  {
    if a == [] {
      assert a + b == b;
    } else {
      assert (a + b)[1..] == a[1..] + b;
      ParentsOfAllConcat(h, a[1..], b);
    }
  }

  lemma {:induction false} NextGenerationIsParentsOfAll(h: Hierarchy, t: TypeName, k: nat, q: seq<TypeName>)
    requires Acyclic(h) && RanksBelow(h, k, q) && k <= Rank(h, t)
    requires forall x :: x in q ==> Reaches(h, t, x)
    ensures NextGeneration(h, t, k, q) == ParentsOfAll(h, q)
  {
    if q != [] { NextGenerationIsParentsOfAll(h, t, k, q[1..]); }
  }

  lemma {:induction false} GenerationsEquation(h: Hierarchy, t: TypeName, k: nat, q: seq<TypeName>)
    requires Acyclic(h) && RanksBelow(h, k, q) && k <= Rank(h, t)
    requires forall x :: x in q ==> Reaches(h, t, x)
    ensures Generations(h, t, k, q) == q + ParentsOfAll(h, Generations(h, t, k, q))
    decreases k
  {
    if q != [] {
      assert Rank(h, q[0]) < k;
      var next := NextGeneration(h, t, k, q);
      NextGenerationIsParentsOfAll(h, t, k, q);
      GenerationsEquation(h, t, k - 1, next);
      ParentsOfAllConcat(h, q, Generations(h, t, k - 1, next));
    }
  }

  /** The list is exactly the direct parents followed by the parent list of each of its own elements:
      nothing pushed onto the worklist is left unvisited and nothing is visited twice. */
  lemma WorklistEquation(h: Hierarchy, t: TypeName)
    requires Acyclic(h)
    ensures ParentTypes(h, t) == Extends(h, t) + ParentsOfAll(h, ParentTypes(h, t))
  {
    var q := Extends(h, t);
    forall x | x in q ensures Reaches(h, t, x) && Rank(h, x) < Rank(h, t) {
      EdgeReaches(h, t, x);
      RankDecreases(h, t, x);
    }
    GenerationsEquation(h, t, Rank(h, t), q);
  }

  /** Equation of a results table, without assuming acyclicity. */
  ghost function Gather(results: TypeName -> seq<TypeName>, q: seq<TypeName>): seq<TypeName> {
    if q == [] then [] else results(q[0]) + Gather(results, q[1..])
  }

  ghost predicate SolvesWorklist(h: Hierarchy, results: TypeName -> seq<TypeName>) {
    forall t :: results(t) == Extends(h, t) + Gather(results, results(t))
  }

  lemma {:induction false} GatherLength(results: TypeName -> seq<TypeName>, q: seq<TypeName>, x: TypeName)
    requires x in q
    ensures |Gather(results, q)| >= |results(x)|
    ensures forall y :: y in results(x) ==> y in Gather(results, q)
  {
    if q[0] != x { GatherLength(results, q[1..], x); }
  }

  lemma {:induction false} SolutionContainsPath(h: Hierarchy, results: TypeName -> seq<TypeName>, p: seq<TypeName>)
    requires SolvesWorklist(h, results) && IsPath(h, p)
    ensures p[|p| - 1] in results(p[0])
    decreases |p|
  {
    assert p[1] in results(p[0]);
    if |p| > 2 {
      SolutionContainsPath(h, results, p[1..]);
      GatherLength(results, results(p[0]), p[1]);
    }
  }

  /** `getParentTypes` has a finite answer for every type exactly on acyclic hierarchies. */
  lemma FiniteResultIffAcyclic(h: Hierarchy)
    ensures Acyclic(h) <==> exists results :: SolvesWorklist(h, results)
  {
    if Acyclic(h) {
      var results := t => ParentTypesOrEmpty(h, t);
      forall t ensures results(t) == Extends(h, t) + Gather(results, results(t)) {
        WorklistEquation(h, t);
        GatherIsParentsOfAll(h, results, results(t));
      }
      assert SolvesWorklist(h, results);
    } else {
      var t :| Reaches(h, t, t);
      forall results ensures !SolvesWorklist(h, results) { CycleFeedsItself(h, results, t); }
    }
  }

  /** A type on a cycle is on its own worklist, so each visit pushes a list at least as long as the whole. */
  lemma CycleFeedsItself(h: Hierarchy, results: TypeName -> seq<TypeName>, t: TypeName)
    requires Reaches(h, t, t)
    ensures !SolvesWorklist(h, results)
  {
    if SolvesWorklist(h, results) {
      var p :| PathBetween(h, p, t, t);
      assert p[1] in Extends(h, p[0]);
      SolutionContainsPath(h, results, p);
      GatherLength(results, results(t), t);
    }
  }

  ghost function ParentTypesOrEmpty(h: Hierarchy, t: TypeName): seq<TypeName> {
    if Acyclic(h) then ParentTypes(h, t) else []
  }

  lemma {:induction false} GatherIsParentsOfAll(h: Hierarchy, results: TypeName -> seq<TypeName>, q: seq<TypeName>)
    requires Acyclic(h) && forall t :: results(t) == ParentTypesOrEmpty(h, t)
    ensures Gather(results, q) == ParentsOfAll(h, q)
  {
    if q != [] { GatherIsParentsOfAll(h, results, q[1..]); }
  }

  /** A non-empty list of types never equals the concatenation of its own parent lists. */
  lemma {:induction false} NoSelfFeedingSuffix(h: Hierarchy, k: nat, s: seq<TypeName>)
    requires Acyclic(h) && RanksBelow(h, k, s) && s == ParentsOfAll(h, s)
    ensures s == []
    decreases k
  {
    if s != [] {
      assert Rank(h, s[0]) < k;
      ParentsRankLower(h, k, s);
      NoSelfFeedingSuffix(h, k - 1, s);
    }
  }

  lemma {:induction false} ParentsRankLower(h: Hierarchy, k: nat, s: seq<TypeName>)
    requires Acyclic(h) && RanksBelow(h, k, s) && k > 0
    ensures RanksBelow(h, k - 1, ParentsOfAll(h, s))
  {
    if s != [] {
      assert Rank(h, s[0]) < k;
      forall x | x in ParentTypes(h, s[0]) ensures Rank(h, x) < k - 1 { RankDecreases(h, s[0], x); }
      ParentsRankLower(h, k, s[1..]);
    }
  }

  lemma BoundedRanks(h: Hierarchy, t: TypeName)
    requires Acyclic(h)
    ensures RanksBelow(h, Rank(h, t), ParentTypes(h, t))
  {
    forall x | x in ParentTypes(h, t) ensures Rank(h, x) < Rank(h, t) { RankDecreases(h, t, x); }
  }

  /** The set of names in the list is exactly the set of strict ancestors. */
  lemma ParentTypesAreAncestors(h: Hierarchy, t: TypeName, a: TypeName)
    requires Acyclic(h)
    ensures a in ParentTypes(h, t) <==> Reaches(h, t, a)
  {
    if Reaches(h, t, a) {
      var p :| PathBetween(h, p, t, a);
      var results := t => ParentTypesOrEmpty(h, t);
      forall t ensures results(t) == Extends(h, t) + Gather(results, results(t)) {
        WorklistEquation(h, t);
        GatherIsParentsOfAll(h, results, results(t));
      }
      SolutionContainsPath(h, results, p);
    }
  }

  // ---------- the worklist itself ----------

  /** The loop of the source: the list it iterates is the list it pushes onto. */
  method GetParentTypes(h: Hierarchy, typeName: TypeName) returns (parents: seq<TypeName>)
    requires Acyclic(h)
    ensures parents == ParentTypes(h, typeName)
    ensures forall a :: a in parents <==> Reaches(h, typeName, a)
    decreases Rank(h, typeName)
  {
    forall a ensures a in ParentTypes(h, typeName) <==> Reaches(h, typeName, a) {
      ParentTypesAreAncestors(h, typeName, a);
    }
    var extendsArr := Extends(h, typeName);
    if |extendsArr| == 0 {
      NothingAboveRoot(h, typeName);
      return [];
    }
    parents := extendsArr;
    WorklistStarts(h, typeName);
    var i := 0;
    while i < |parents|
      invariant 0 <= i <= |parents| && WorklistAt(h, typeName, parents, i)
      decreases |ParentTypes(h, typeName)| - i
    {
      VisitStaysWithin(h, typeName, parents, i);
      var pushed := GetParentTypes(h, parents[i]);
      parents := parents + pushed;
      i := i + 1;
    }
    WorklistEnds(h, typeName, parents);
  }

  /** The worklist after visiting its first `i` entries: the direct parents, then what those visits
      pushed, and so far a prefix of the final list. */
  ghost predicate WorklistAt(h: Hierarchy, t: TypeName, arr: seq<TypeName>, i: nat)
    requires Acyclic(h)
  {
    i <= |arr| && arr <= ParentTypes(h, t) && arr == Extends(h, t) + ParentsOfAll(h, arr[..i])
  }

  lemma WorklistStarts(h: Hierarchy, t: TypeName)
    requires Acyclic(h)
    ensures WorklistAt(h, t, Extends(h, t), 0)
  {
    WorklistEquation(h, t);
    assert Extends(h, t)[..0] == [];
  }

  /** Visiting entry `i` keeps the worklist a prefix of the final list. */
  lemma VisitStaysWithin(h: Hierarchy, t: TypeName, arr: seq<TypeName>, i: nat)
    requires Acyclic(h) && WorklistAt(h, t, arr, i) && i < |arr|
    ensures WorklistAt(h, t, arr + ParentTypes(h, arr[i]), i + 1)
    ensures Rank(h, arr[i]) < Rank(h, t)
    ensures i < |ParentTypes(h, t)|
  {
    VisitedIsAncestor(h, t, arr, i);
    VisitPushes(h, arr, i);
    WorklistSplit(h, t, i + 1);
    PrefixArithmetic(ParentTypes(h, t), arr, ParentTypes(h, arr[i]), i);
  }

  lemma VisitedIsAncestor(h: Hierarchy, t: TypeName, arr: seq<TypeName>, i: nat)
    requires Acyclic(h) && i < |arr| && arr <= ParentTypes(h, t)
    ensures Rank(h, arr[i]) < Rank(h, t)
  {
    assert arr[i] in ParentTypes(h, t);
    RankDecreases(h, t, arr[i]);
  }

  lemma PrefixArithmetic<T>(all: seq<T>, arr: seq<T>, pushed: seq<T>, i: nat)
    requires arr <= all && i < |arr|
    ensures (arr + pushed)[..i + 1] == arr[..i + 1] == all[..i + 1]
    ensures i < |all|
  {}

  lemma WorklistSplit(h: Hierarchy, t: TypeName, i: nat)
    requires Acyclic(h) && i <= |ParentTypes(h, t)|
    ensures Extends(h, t) + ParentsOfAll(h, ParentTypes(h, t)[..i]) <= ParentTypes(h, t)
  {
    var all := ParentTypes(h, t);
    WorklistEquation(h, t);
    assert all == all[..i] + all[i..];
    ParentsOfAllConcat(h, all[..i], all[i..]);
  }

  lemma VisitPushes(h: Hierarchy, arr: seq<TypeName>, i: nat)
    requires Acyclic(h) && i < |arr|
    ensures ParentsOfAll(h, arr[..i + 1]) == ParentsOfAll(h, arr[..i]) + ParentTypes(h, arr[i])
  {
    assert arr[..i + 1] == arr[..i] + [arr[i]];
    ParentsOfAllConcat(h, arr[..i], [arr[i]]);
    assert ParentsOfAll(h, [arr[i]]) == ParentTypes(h, arr[i]) + ParentsOfAll(h, []);
  }

  /** A worklist whose every entry is visited is the final list. */
  lemma WorklistEnds(h: Hierarchy, t: TypeName, arr: seq<TypeName>)
    requires Acyclic(h) && WorklistAt(h, t, arr, |arr|)
    ensures arr == ParentTypes(h, t)
  {
    var all := ParentTypes(h, t);
    assert arr[..|arr|] == arr;
    var rest := all[|arr|..];
    assert all == arr + rest;
    WorklistEquation(h, t);
    ParentsOfAllConcat(h, arr, rest);
    BoundedRanks(h, t);
    NoSelfFeedingSuffix(h, Rank(h, t), rest);
  }

  lemma NothingAboveRoot(h: Hierarchy, t: TypeName)
    requires Acyclic(h) && Extends(h, t) == []
    ensures ParentTypes(h, t) == []
  {
    WorklistEquation(h, t);
    BoundedRanks(h, t);
    NoSelfFeedingSuffix(h, Rank(h, t), ParentTypes(h, t));
  }

  // ---------- single inheritance ----------

  ghost predicate SingleInheritance(h: Hierarchy) {
    forall t :: t in h ==> |h[t]| <= 1
  }

  /** The ancestors of `t` in order of distance. */
  ghost function Chain(h: Hierarchy, t: TypeName): seq<TypeName>
    requires Acyclic(h) && SingleInheritance(h)
    decreases Rank(h, t)
  {
    if Extends(h, t) == [] then [] else
      var p := Extends(h, t)[0];
      assert Rank(h, p) < Rank(h, t) by { EdgeReaches(h, t, p); RankDecreases(h, t, p); }
      [p] + Chain(h, p)
  }

  /** Each name once, at its first occurrence. */
  ghost function FirstOccurrences(s: seq<TypeName>): seq<TypeName> {
    if s == [] then [] else
      var front := FirstOccurrences(s[..|s| - 1]);
      if s[|s| - 1] in s[..|s| - 1] then front else front + [s[|s| - 1]]
  }

  lemma {:induction false} RepeatsAddNothing(a: seq<TypeName>, b: seq<TypeName>)
    requires forall x :: x in b ==> x in a
    ensures FirstOccurrences(a + b) == FirstOccurrences(a)
    decreases |b|
  {
    if b == [] {
      assert a + b == a;
    } else {
      var n := |b| - 1;
      assert (a + b)[..|a + b| - 1] == a + b[..n];
      assert (a + b)[|a + b| - 1] == b[n] && b[n] in b;
      RepeatsAddNothing(a, b[..n]);
    }
  }

  lemma {:induction false} FirstOccurrencesCons(x: TypeName, s: seq<TypeName>)
    requires x !in s
    ensures FirstOccurrences([x] + s) == [x] + FirstOccurrences(s)
  {
    if s == [] {
      assert [x] + s == [x] && [x][..0] == [];
    } else {
      var n := |s| - 1;
      assert ([x] + s)[..|s|] == [x] + s[..n];
      FirstOccurrencesCons(x, s[..n]);
    }
  }

  /** With one parent, the list is the parent, the parent's own list, and repeats of those. */
  lemma SingleParentShape(h: Hierarchy, t: TypeName) returns (repeats: seq<TypeName>)
    requires Acyclic(h) && SingleInheritance(h) && Extends(h, t) != []
    ensures ParentTypes(h, t) == [Extends(h, t)[0]] + ParentTypes(h, Extends(h, t)[0]) + repeats
    ensures forall x :: x in repeats ==> x in ParentTypes(h, Extends(h, t)[0])
  {
    var p := Extends(h, t)[0];
    WorklistEquation(h, t);
    var all := ParentTypes(h, t);
    assert all[0] == p;
    repeats := ParentsOfAll(h, all[1..]);
    assert Extends(h, t) == [p];
    assert all == [p] + ParentTypes(h, p) + repeats;
    forall x | x in repeats ensures x in ParentTypes(h, p) {
      var y := AncestorOfListed(h, all[1..], x);
      assert y in all;
      ReachesUnfold(h, t, y);
      if y != p { ReachesTransitive(h, p, y, x); }
      ParentTypesAreAncestors(h, p, x);
    }
  }

  lemma {:induction false} AncestorOfListed(h: Hierarchy, q: seq<TypeName>, x: TypeName) returns (y: TypeName)
    requires Acyclic(h) && x in ParentsOfAll(h, q)
    ensures y in q && Reaches(h, y, x)
  {
    if x in ParentTypes(h, q[0]) {
      y := q[0];
    } else {
      y := AncestorOfListed(h, q[1..], x);
    }
  }

  /** On a single-inheritance hierarchy, first occurrences come in order of distance. */
  lemma {:induction false} FirstOccurrencesAreTheChain(h: Hierarchy, t: TypeName)
    requires Acyclic(h) && SingleInheritance(h)
    ensures FirstOccurrences(ParentTypes(h, t)) == Chain(h, t)
    decreases Rank(h, t)
  {
    if Extends(h, t) == [] {
      NothingAboveRoot(h, t);
    } else {
      var p := Extends(h, t)[0];
      EdgeReaches(h, t, p);
      RankDecreases(h, t, p);
      var repeats := SingleParentShape(h, t);
      RepeatsAddNothing([p] + ParentTypes(h, p), repeats);
      assert p !in ParentTypes(h, p);
      FirstOccurrencesCons(p, ParentTypes(h, p));
      FirstOccurrencesAreTheChain(h, p);
    }
  }
}
