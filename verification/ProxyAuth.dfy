/** `LoadNodesAndCredentials.extendsProxyAuthBaseType`: a depth-first walk over `extends`
    whose one `seen` set is shared, and mutated, by every branch. Nothing is assumed about
    the graph: it may be cyclic and may name types that are not registered. */
module ProxyAuth {
  import opened CredentialTypes

  const OAUTH_BASES: set<TypeName> := {"oAuth2Api", "googleOAuth2Api", "oAuth1Api"}

  ghost predicate ReachesBase(h: Hierarchy, t: TypeName) {
    exists base :: base in OAUTH_BASES && Reaches(h, t, base)
  }

  /** No base among the members, and no edge leaves the set. */
  ghost predicate ClosedWithoutBase(h: Hierarchy, explored: set<TypeName>, within: set<TypeName>) {
    forall t, p :: t in explored && p in Extends(h, t) ==> p in within && p !in OAUTH_BASES
  }

  class Walk {
    const types: Hierarchy
    var seen: set<TypeName>

    constructor (types: Hierarchy)
      ensures this.types == types && seen == {}
    {
      this.types := types;
      seen := {};
    }

    /** A true answer has a witness; a false one means everything first seen during the call,
        and `credType` itself, has been explored without meeting a base type. */
    method ExtendsProxyAuthBaseType(credType: TypeName) returns (found: bool)
      modifies this`seen
      ensures old(seen) <= seen
      ensures found ==> ReachesBase(types, credType)
      ensures !found ==> ClosedWithoutBase(types, (seen - old(seen)) + {credType}, seen)
      decreases |Parents(types) - seen|
    {
      var parents := Extends(types, credType);
      var i := 0;
      while i < |parents|
        invariant 0 <= i <= |parents|
        invariant old(seen) <= seen
        invariant forall j :: 0 <= j < i ==> parents[j] in seen && parents[j] !in OAUTH_BASES
        invariant ClosedWithoutBase(types, seen - old(seen), seen)
      {
        var parentName := parents[i];
        if parentName in OAUTH_BASES {
          BaseThroughParent(types, credType, parentName);
          return true;
        }
        if parentName !in seen {
          ghost var before := seen;
          FewerLeft(types, credType, parentName, old(seen), seen);
          seen := seen + {parentName};
          var viaParent := ExtendsProxyAuthBaseType(parentName);
          if viaParent {
            BaseThroughParent(types, credType, parentName);
            return true;
          }
          BranchExplored(types, old(seen), before, parentName, seen);
        }
        i := i + 1;
      }
      SelfExplored(types, old(seen), credType, seen);
      return false;
    }
  }

  lemma BaseThroughParent(h: Hierarchy, t: TypeName, parent: TypeName)
    requires parent in Extends(h, t) && (parent in OAUTH_BASES || ReachesBase(h, parent))
    ensures ReachesBase(h, t)
  {
    EdgeReaches(h, t, parent);
    if parent !in OAUTH_BASES {
      var base :| base in OAUTH_BASES && Reaches(h, parent, base);
      ReachesTransitive(h, t, parent, base);
    }
  }

  lemma FewerLeft(h: Hierarchy, t: TypeName, parent: TypeName, atEntry: set<TypeName>, now: set<TypeName>)
    requires parent in Extends(h, t) && parent !in now && atEntry <= now
    ensures |Parents(h) - (now + {parent})| < |Parents(h) - atEntry|
  {
    assert parent in Parents(h);
    SubsetSmaller(Parents(h) - (now + {parent}), Parents(h) - atEntry, parent);
  }

  /** What a branch explored joins what was explored before it, although both share one set. */
  lemma BranchExplored(h: Hierarchy, atEntry: set<TypeName>, before: set<TypeName>, parent: TypeName,
                       after: set<TypeName>)
    requires before + {parent} <= after
    requires ClosedWithoutBase(h, before - atEntry, before)
    requires ClosedWithoutBase(h, (after - (before + {parent})) + {parent}, after)
    ensures ClosedWithoutBase(h, after - atEntry, after)
  {}

  lemma SelfExplored(h: Hierarchy, atEntry: set<TypeName>, t: TypeName, after: set<TypeName>)
    requires ClosedWithoutBase(h, after - atEntry, after)
    requires forall p :: p in Extends(h, t) ==> p in after && p !in OAUTH_BASES
    ensures ClosedWithoutBase(h, (after - atEntry) + {t}, after)
  {}

  lemma {:induction false} ClosedSetTrapsPaths(h: Hierarchy, closed: set<TypeName>, p: seq<TypeName>)
    requires IsPath(h, p) && p[0] in closed && ClosedWithoutBase(h, closed, closed)
    ensures p[|p| - 1] in closed && p[|p| - 1] !in OAUTH_BASES
    decreases |p|
  {
    assert p[1] in Extends(h, p[0]);
    if |p| > 2 { ClosedSetTrapsPaths(h, closed, p[1..]); }
  }

  /** The walk decides reachability of an OAuth base type by one or more edges, on every graph. */
  method SupportsProxyAuthByInheritance(types: Hierarchy, credType: TypeName) returns (found: bool)
    ensures found <==> ReachesBase(types, credType)
  {
    var walk := new Walk(types);
    found := walk.ExtendsProxyAuthBaseType(credType);
    if !found {
      ghost var closed := walk.seen + {credType};
      assert ClosedWithoutBase(types, closed, closed) by {
        assert (walk.seen - {}) + {credType} == closed;
      }
      forall base, p | PathBetween(types, p, credType, base) ensures base !in OAUTH_BASES {
        ClosedSetTrapsPaths(types, closed, p);
      }
    }
  }
}
