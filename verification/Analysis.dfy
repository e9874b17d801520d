/** Which functions and packages get compiled, and in which order (pkg/compiler/analysis.go). */
module Analysis {

  type Name = nat

  /** Declared functions and the names that each calls. */
  type Calls = map<Name, set<Name>>

  // ----- functions in use -----

  /** A chain of calls from a root: all functions on it are declared, each calls the next. */
  predicate CallChain(calls: Calls, roots: set<Name>, path: seq<Name>) {
    && path != [] && path[0] in roots
    && (forall i :: 0 <= i < |path| ==> path[i] in calls)
    && (forall i :: 0 <= i < |path| - 1 ==> path[i + 1] in calls[path[i]])
  }

  ghost predicate Used(calls: Calls, roots: set<Name>, f: Name) {
    exists path :: CallChain(calls, roots, path) && path[|path| - 1] == f
  }

  lemma RootIsUsed(calls: Calls, roots: set<Name>, f: Name)
    requires f in roots && f in calls
    ensures Used(calls, roots, f)
  {
    assert CallChain(calls, roots, [f]);
  }

  lemma CalleeIsUsed(calls: Calls, roots: set<Name>, f: Name, g: Name)
    requires Used(calls, roots, f) && f in calls && g in calls[f] && g in calls
    ensures Used(calls, roots, g)
  {
    var path :| CallChain(calls, roots, path) && path[|path| - 1] == f;
    assert CallChain(calls, roots, path + [g]);
  }

  /** A set of declared functions that has the roots and is closed under calls has everything in use. */
  lemma {:induction false} ClosedHasUsed(calls: Calls, roots: set<Name>, usage: set<Name>, path: seq<Name>)
    requires CallChain(calls, roots, path)
    requires forall f :: f in roots && f in calls ==> f in usage
    requires forall f, g :: f in usage && f in calls && g in calls[f] && g in calls ==> g in usage
    ensures path[|path| - 1] in usage
    decreases |path|
  {
    if |path| > 1 {
      var shorter := path[..|path| - 1];
      assert CallChain(calls, roots, shorter);
      ClosedHasUsed(calls, roots, usage, shorter);
    }
  }

  /** Rounds of new names until a round brings none. */
  method AnalyzeFuncUsage(calls: Calls, roots: set<Name>) returns (usage: set<Name>)
    ensures forall f :: f in usage <==> Used(calls, roots, f)
  {
    hide Used;
    usage := {};
    var diff := roots;
    forall f | f in roots && f in calls ensures Used(calls, roots, f) { RootIsUsed(calls, roots, f); }
    while diff != {}
      invariant usage <= calls.Keys
      invariant forall f :: f in usage ==> Used(calls, roots, f)
      invariant forall f :: f in diff && f in calls ==> Used(calls, roots, f)
      invariant forall f :: f in roots && f in calls ==> f in usage || f in diff
      invariant forall f, g :: f in usage && f in calls && g in calls[f] && g in calls ==> g in usage || g in diff
      decreases calls.Keys - usage, diff != {}
    {
      ghost var was := usage;
      usage, diff := NextRound(calls, roots, usage, diff);
      assert calls.Keys - usage <= calls.Keys - was;
      if diff != {} { SmallerRest(calls.Keys, was, usage); }
    }
    forall f | Used(calls, roots, f) ensures f in usage {
      UsedHasChain(calls, roots, usage, f);
    }
  }

  lemma SmallerRest<T>(all: set<T>, was: set<T>, now: set<T>)
    requires was < now <= all
    ensures all - now < all - was
  {}

  lemma UsedHasChain(calls: Calls, roots: set<Name>, usage: set<Name>, f: Name)
    requires Used(calls, roots, f)
    requires forall f :: f in roots && f in calls ==> f in usage
    requires forall f, g :: f in usage && f in calls && g in calls[f] && g in calls ==> g in usage
    ensures f in usage
  {
    var path :| CallChain(calls, roots, path) && path[|path| - 1] == f;
    ClosedHasUsed(calls, roots, usage, path);
  }

  /** One round: the new declared functions, and everything they call. */
  method NextRound(calls: Calls, roots: set<Name>, usage: set<Name>, diff: set<Name>)
    returns (now: set<Name>, next: set<Name>)
    requires usage <= calls.Keys && diff != {}
    requires forall f :: f in usage ==> Used(calls, roots, f)
    requires forall f :: f in diff && f in calls ==> Used(calls, roots, f)
    requires forall f :: f in roots && f in calls ==> f in usage || f in diff
    requires forall f, g :: f in usage && f in calls && g in calls[f] && g in calls ==> g in usage || g in diff
    ensures usage <= now <= calls.Keys && (next != {} ==> usage < now)
    ensures forall f :: f in now ==> Used(calls, roots, f)
    ensures forall f :: f in next && f in calls ==> Used(calls, roots, f)
    ensures forall f :: f in roots && f in calls ==> f in now
    ensures forall f, g :: f in now && f in calls && g in calls[f] && g in calls ==> g in now || g in next
  {
    hide Used;
    now, next := usage, {};
    var left := diff;
    while left != {}
      invariant left <= diff && usage <= now <= calls.Keys && (next != {} ==> usage < now)
      invariant forall f :: f in now ==> Used(calls, roots, f)
      invariant forall f :: f in next && f in calls ==> Used(calls, roots, f)
      invariant forall f :: f in diff && f in calls ==> f in now || f in left
      invariant forall f, g :: f in now && f in calls && g in calls[f] && g in calls ==>
                  g in now || g in next || g in left
      decreases |left|
    {
      var f :| f in left;
      left := left - {f};
      if f in calls && f !in now {
        forall g | g in calls[f] && g in calls ensures Used(calls, roots, g) { CalleeIsUsed(calls, roots, f, g); }
        now := now + {f};
        next := next + calls[f];
      }
    }
  }

  // ----- the order of packages -----

  type Imports = map<Name, seq<Name>>

  /** Imports lead to packages of the program, and downwards in rank: there are no cycles. */
  ghost predicate Acyclic(imports: Imports, rank: map<Name, nat>) {
    forall p, i :: p in imports && 0 <= i < |imports[p]| ==>
      p in rank && imports[p][i] in imports && imports[p][i] in rank && rank[imports[p][i]] < rank[p]
  }

  /** Every package once, after all its imports. */
  predicate Sorted(imports: Imports, packages: seq<Name>) {
    && (forall i, j :: 0 <= i < j < |packages| ==> packages[i] != packages[j])
    && (forall i :: 0 <= i < |packages| ==> packages[i] in imports)
    && (forall i, k :: 0 <= i < |packages| && 0 <= k < |imports[packages[i]]| ==>
          imports[packages[i]][k] in packages[..i])
  }

  ghost predicate Imported(imports: Imports, root: Name, p: Name) {
    exists path :: ImportChain(imports, root, path) && path[|path| - 1] == p
  }

  predicate ImportChain(imports: Imports, root: Name, path: seq<Name>) {
    && path != [] && path[0] == root
    && (forall i :: 0 <= i < |path| - 1 ==> path[i] in imports && path[i + 1] in imports[path[i]])
  }

  lemma AppendSorted(imports: Imports, packages: seq<Name>, p: Name)
    requires Sorted(imports, packages) && p in imports && p !in packages
    requires forall k :: 0 <= k < |imports[p]| ==> imports[p][k] in packages
    ensures Sorted(imports, packages + [p])
  {
    var now := packages + [p];
    forall i, k | 0 <= i < |now| && 0 <= k < |imports[now[i]]| ensures imports[now[i]][k] in now[..i] {
      if i < |packages| {
        assert now[..i] == packages[..i];
      } else {
        assert now[..i] == packages;
      }
    }
  }

  class Orderer {
    var seen: set<Name>
    var packages: seq<Name>

    ghost predicate Valid(imports: Imports)
      reads this
    {
      Sorted(imports, packages) && forall p :: p in seen <==> p in packages
    }

    constructor ()
      ensures seen == {} && packages == []
    {
      seen, packages := {}, [];
    }

    /** A package after its imports, unless it has been listed already. */
    method VisitPkg(imports: Imports, p: Name, ghost rank: map<Name, nat>, ghost root: Name)
      requires Valid(imports) && Acyclic(imports, rank) && p in imports
      requires Imported(imports, root, p) && forall q :: q in packages ==> Imported(imports, root, q)
      modifies this
      ensures Valid(imports) && p in packages && old(packages) <= packages
      ensures forall q :: q in packages ==> Imported(imports, root, q)
      ensures forall q :: q in packages && q !in old(packages) ==>
                q == p || (q in rank && p in rank && rank[q] < rank[p])
      decreases if p in rank then rank[p] else 0
    {
      hide Imported, Sorted;
      if p in seen {
        return;
      }
      for i := 0 to |imports[p]|
        invariant Valid(imports) && old(packages) <= packages && p !in packages
        invariant forall k :: 0 <= k < i ==> imports[p][k] in packages
        invariant forall q :: q in packages ==> Imported(imports, root, q)
        invariant forall q :: q in packages && q !in old(packages) ==> q in rank && p in rank && rank[q] < rank[p]
      {
        ImportIsImported(imports, root, p, i);
        VisitPkg(imports, imports[p][i], rank, root);
      }
      AppendSorted(imports, packages, p);
      seen := seen + {p};
      packages := packages + [p];
    }
  }

  lemma ImportIsImported(imports: Imports, root: Name, p: Name, i: nat)
    requires p in imports && i < |imports[p]| && Imported(imports, root, p)
    ensures Imported(imports, root, imports[p][i])
  {
    var path :| ImportChain(imports, root, path) && path[|path| - 1] == p;
    assert ImportChain(imports, root, path + [imports[p][i]]);
  }

  /** A sorted list has, with any package, everything that it imports. */
  lemma {:induction false} SortedHasImported(imports: Imports, packages: seq<Name>, root: Name, path: seq<Name>)
    requires Sorted(imports, packages) && root in packages && ImportChain(imports, root, path)
    ensures path[|path| - 1] in packages
    decreases |path|
  {
    if |path| > 1 {
      var shorter := path[..|path| - 1];
      SortedHasImported(imports, packages, root, shorter);
      var p, q := shorter[|shorter| - 1], path[|path| - 1];
      var i :| 0 <= i < |packages| && packages[i] == p;
      var k :| 0 <= k < |imports[p]| && imports[p][k] == q;
      assert imports[packages[i]][k] in packages[..i];
    }
  }

  /** All packages that the initial one needs, each once, after its imports. */
  method AnalyzePkgOrder(imports: Imports, root: Name, ghost rank: map<Name, nat>) returns (packages: seq<Name>)
    requires Acyclic(imports, rank) && root in imports
    ensures Sorted(imports, packages)
    ensures forall p :: p in packages <==> Imported(imports, root, p)
  {
    hide Sorted;
    var o := new Orderer();
    NothingSorted(imports);
    assert ImportChain(imports, root, [root]);
    o.VisitPkg(imports, root, rank, root);
    packages := o.packages;
    forall p | Imported(imports, root, p) ensures p in packages {
      var path :| ImportChain(imports, root, path) && path[|path| - 1] == p;
      SortedHasImported(imports, packages, root, path);
    }
  }

  lemma NothingSorted(imports: Imports)
    ensures Sorted(imports, [])
  {}
}
