/** The reference counter over item graphs that may share parts and contain cycles (pkg/vm/ref_counter.go). */
module RefCounter {

  /** A stack item: a value without parts, or an array, structure or map with its element items in order. */
  datatype Item = Plain | Container(children: seq<nat>)

  /** Items are numbered; children refer to items of the same graph. */
  type Graph = g: seq<Item> | Closed(g) witness []

  predicate Closed(g: seq<Item>) {
    forall i :: 0 <= i < |g| && g[i].Container? ==> forall k :: 0 <= k < |g[i].children| ==> g[i].children[k] < |g|
  }

  // ----- counting references -----

  /** How often x occurs in lists that are counted. */
  function Refs(counted: seq<seq<nat>>, x: nat): nat {
    if counted == [] then 0 else Refs(counted[..|counted| - 1], x) + multiset(counted[|counted| - 1])[x]
  }

  function Size(counted: seq<seq<nat>>): nat {
    if counted == [] then 0 else Size(counted[..|counted| - 1]) + |counted[|counted| - 1]|
  }

  lemma {:induction false} RefsUpdate(counted: seq<seq<nat>>, y: nat, l: seq<nat>, x: nat)
    requires y < |counted|
    ensures Refs(counted[y := l], x) == Refs(counted, x) - multiset(counted[y])[x] + multiset(l)[x]
    ensures Size(counted[y := l]) == Size(counted) - |counted[y]| + |l|
  {
    var n := |counted| - 1;
    if y == n {
      assert counted[y := l][..n] == counted[..n];
    } else {
      RefsUpdate(counted[..n], y, l, x);
      assert counted[y := l][..n] == counted[..n][y := l];
    }
  }

  lemma CountMoves(l: seq<nat>, c: nat, x: nat)
    ensures multiset(l + [c])[x] == multiset(l)[x] + (if x == c then 1 else 0)
    ensures multiset([c] + l)[x] == multiset(l)[x] + (if x == c then 1 else 0)
  {}

  /** References held from outside the graph, plus counted child lists, explain every count. */
  ghost predicate Explained(g: Graph, total: int, rc: seq<int>, ext: multiset<nat>, counted: seq<seq<nat>>) {
    && |rc| == |counted| == |g|
    && (forall x :: x in ext ==> x < |g|)
    && (forall x :: 0 <= x < |g| ==> rc[x] == if g[x].Container? then ext[x] + Refs(counted, x) else 0)
    && total == |ext| + Size(counted)
  }

  /** One more outside reference to x, with its count. */
  lemma ExplainedAdd(g: Graph, total: int, rc: seq<int>, ext: multiset<nat>, counted: seq<seq<nat>>, x: nat)
    requires Explained(g, total, rc, ext, counted) && x < |g|
    ensures Explained(g, total + 1, if g[x].Container? then rc[x := rc[x] + 1] else rc, ext + multiset{x}, counted)
  {}

  /** One outside reference less. */
  lemma ExplainedRemove(g: Graph, total: int, rc: seq<int>, ext: multiset<nat>, counted: seq<seq<nat>>, x: nat)
    requires Explained(g, total, rc, ext, counted) && x in ext
    ensures Explained(g, total - 1, if g[x].Container? then rc[x := rc[x] - 1] else rc, ext - multiset{x}, counted)
  {}

  /** An outside reference to c becomes a counted child of y, appended or prepended; counts do not change. */
  lemma ExplainedMove(g: Graph, total: int, rc: seq<int>, ext: multiset<nat>, counted: seq<seq<nat>>, y: nat, c: nat,
                      l: seq<nat>)
    requires Explained(g, total, rc, ext + multiset{c}, counted) && y < |g| && c < |g|
    requires l == counted[y] + [c] || l == [c] + counted[y]
    ensures Explained(g, total, rc, ext, counted[y := l])
  {
    assert forall x :: x in ext ==> x in ext + multiset{c};
    forall x | 0 <= x < |g|
      ensures rc[x] == if g[x].Container? then ext[x] + Refs(counted[y := l], x) else 0
    {
      RefsUpdate(counted, y, l, x);
      CountMoves(counted[y], c, x);
    }
    RefsUpdate(counted, y, l, c);
  }

  /** The reverse: a counted first child of y becomes an outside reference. */
  lemma ExplainedUnmove(g: Graph, total: int, rc: seq<int>, ext: multiset<nat>, counted: seq<seq<nat>>, y: nat, c: nat,
                        l: seq<nat>)
    requires Explained(g, total, rc, ext, counted) && y < |g| && c < |g| && counted[y] == [c] + l
    ensures Explained(g, total, rc, ext + multiset{c}, counted[y := l])
  {
    forall x | 0 <= x < |g|
      ensures rc[x] == if g[x].Container? then (ext + multiset{c})[x] + Refs(counted[y := l], x) else 0
    {
      RefsUpdate(counted, y, l, x);
      CountMoves(l, c, x);
    }
    RefsUpdate(counted, y, l, c);
  }

  function Children(g: Graph, x: nat): seq<nat>
    requires x < |g|
  {
    if g[x].Container? then g[x].children else []
  }

  // ----- how one operation changes counts and lists -----

  /** Idle containers have nothing counted. */
  ghost predicate IdleEmpty(g: Graph, rc: seq<int>, counted: seq<seq<nat>>)
    requires |rc| == |counted| == |g|
  {
    forall y :: 0 <= y < |g| && rc[y] <= 0 ==> counted[y] == []
  }

  /** Referenced containers have all their children counted. */
  ghost predicate ActiveFull(g: Graph, rc: seq<int>, counted: seq<seq<nat>>)
    requires |rc| == |counted| == |g|
  {
    forall y :: 0 <= y < |g| && rc[y] > 0 ==> counted[y] == Children(g, y)
  }

  ghost function Idle(g: Graph, rc: seq<int>): set<nat>
    requires |rc| == |g|
  {
    set y | 0 <= y < |g| && rc[y] <= 0
  }

  ghost function Active(g: Graph, rc: seq<int>): set<nat>
    requires |rc| == |g|
  {
    set y | 0 <= y < |g| && rc[y] > 0
  }

  /** Counts only rose; lists changed only where an idle container became active, and there they are complete. */
  ghost predicate Grew(g: Graph, rc0: seq<int>, c0: seq<seq<nat>>, rc: seq<int>, c: seq<seq<nat>>, except: nat)
    requires |rc0| == |rc| == |c0| == |c| == |g|
  {
    forall y :: 0 <= y < |g| ==>
      && rc0[y] <= rc[y]
      && (y != except ==> c[y] == if rc0[y] > 0 || rc[y] <= 0 then c0[y] else Children(g, y))
  }

  /** Counts only fell; lists changed only where an active container became idle, and there they are empty. */
  ghost predicate Shrank(g: Graph, rc0: seq<int>, c0: seq<seq<nat>>, rc: seq<int>, c: seq<seq<nat>>, except: nat)
    requires |rc0| == |rc| == |c0| == |c| == |g|
  {
    forall y :: 0 <= y < |g| ==>
      && rc[y] <= rc0[y]
      && (y != except ==> c[y] == if rc0[y] > 0 && rc[y] <= 0 then [] else c0[y])
  }

  lemma GrewOn(g: Graph, rc0: seq<int>, c0: seq<seq<nat>>, rc: seq<int>, c: seq<seq<nat>>,
               rc': seq<int>, c': seq<seq<nat>>, item: nat, l: seq<nat>)
    requires |rc0| == |rc| == |rc'| == |c0| == |c| == |c'| == |g| && item < |g|
    requires IdleEmpty(g, rc0, c0) && Grew(g, rc0, c0, rc, c, item) && rc[item] > 0
    requires Grew(g, rc, c, rc', c', |g|)
    ensures c'[item] == c[item] && rc'[item] > 0
    ensures Grew(g, rc0, c0, rc', c'[item := l], item) && IdleEmpty(g, rc', c'[item := l])
  {}

  lemma GrewWhole(g: Graph, rc0: seq<int>, c0: seq<seq<nat>>, rc: seq<int>, c: seq<seq<nat>>, item: nat)
    requires |rc0| == |rc| == |c0| == |c| == |g| && item < |g|
    requires Grew(g, rc0, c0, rc, c, item) && rc0[item] <= 0 < rc[item] && c[item] == Children(g, item)
    ensures Grew(g, rc0, c0, rc, c, |g|)
  {}

  lemma ShrankOn(g: Graph, rc0: seq<int>, c0: seq<seq<nat>>, rc: seq<int>, c: seq<seq<nat>>,
                 rc': seq<int>, c': seq<seq<nat>>, item: nat)
    requires |rc0| == |rc| == |rc'| == |c0| == |c| == |c'| == |g| && item < |g|
    requires ActiveFull(g, rc0, c0) && Shrank(g, rc0, c0, rc, c, item) && rc[item] <= 0
    requires Shrank(g, rc, c, rc', c', |g|)
    ensures c'[item] == c[item] && rc'[item] <= 0
    ensures Shrank(g, rc0, c0, rc', c', item) && ActiveFull(g, rc', c')
  {}

  lemma ShrankWhole(g: Graph, rc0: seq<int>, c0: seq<seq<nat>>, rc: seq<int>, c: seq<seq<nat>>, item: nat)
    requires |rc0| == |rc| == |c0| == |c| == |g| && item < |g|
    requires Shrank(g, rc0, c0, rc, c, item) && rc[item] <= 0 < rc0[item] && c[item] == []
    ensures Shrank(g, rc0, c0, rc, c, |g|)
  {}

  lemma FewerIdle(g: Graph, rc0: seq<int>, rc: seq<int>, item: nat)
    requires |rc0| == |rc| == |g| && item < |g| && rc0[item] <= 0 < rc[item]
    requires forall y :: 0 <= y < |g| ==> rc0[y] <= rc[y]
    ensures Idle(g, rc) < Idle(g, rc0)
  {
    assert item in Idle(g, rc0) && item !in Idle(g, rc);
  }

  lemma FewerActive(g: Graph, rc0: seq<int>, rc: seq<int>, item: nat)
    requires |rc0| == |rc| == |g| && item < |g| && rc[item] <= 0 < rc0[item]
    requires forall y :: 0 <= y < |g| ==> rc[y] <= rc0[y]
    ensures Active(g, rc) < Active(g, rc0)
  {
    assert item in Active(g, rc0) && item !in Active(g, rc);
  }

  class Counter {
    const g: Graph
    /** The number of references that the machine limits. */
    var total: int
    /** The count kept inside each container. */
    var rc: seq<int>
    /** References from stacks and slots. */
    ghost var ext: multiset<nat>
    /** For each container, the children whose references are counted. */
    ghost var counted: seq<seq<nat>>

    ghost predicate Consistent()
      reads this
    {
      Explained(g, total, rc, ext, counted)
    }

    /** Between operations a container counts all of its children exactly while it is itself referenced. */
    ghost predicate Valid()
      reads this
    {
      Consistent() && IdleEmpty(g, rc, counted) && ActiveFull(g, rc, counted)
    }

    constructor (graph: Graph)
      ensures Valid() && g == graph && ext == multiset{} && total == 0
    {
      g := graph;
      total := 0;
      rc := seq(|graph|, _ => 0);
      ext := multiset{};
      counted := seq(|graph|, _ => []);
      new;
      NothingCounted(|g|);
    }

    /** Adds a reference; termination on cycles rests on the set of idle containers. */
    method Add(item: nat)
      requires Consistent() && item < |g| && IdleEmpty(g, rc, counted)
      modifies this
      ensures Consistent() && ext == old(ext) + multiset{item} && IdleEmpty(g, rc, counted)
      ensures Grew(g, old(rc), old(counted), rc, counted, |g|)
      decreases Idle(g, rc)
    {
      hide Explained, IdleEmpty, Grew, Idle;
      ExplainedSizes(g, total, rc, ext, counted);
      ghost var rc0, c0 := rc, counted;
      FirstAdd(g, total, rc, ext, counted, item);
      total := total + 1;
      ext := ext + multiset{item};
      if g[item].Plain? { return; }
      rc := rc[item := rc[item] + 1];
      if rc[item] > 1 { return; }
      var i := 0;
      while i < |g[item].children|
        invariant 0 <= i <= |g[item].children|
        invariant Consistent() && ext == old(ext) + multiset{item} && |rc| == |counted| == |g|
        invariant IdleEmpty(g, rc, counted) && Grew(g, rc0, c0, rc, counted, item)
        invariant rc[item] > 0 && counted[item] == g[item].children[..i]
      {
        var child := g[item].children[i];
        ghost var outside, rcA, cA := ext, rc, counted;
        RoseSince(g, rc0, c0, rc, counted, item);
        FewerIdle(g, rc0, rc, item);
        Add(child);
        ExplainedSizes(g, total, rc, ext, counted);
        GrewOn(g, rc0, c0, rcA, cA, rc, counted, item, cA[item] + [child]);
        ExplainedMove(g, total, rc, outside, counted, item, child, counted[item] + [child]);
        counted := counted[item := counted[item] + [child]];
        ext := outside;
        i := i + 1;
      }
      assert g[item].children[..i] == g[item].children;
      GrewWhole(g, rc0, c0, rc, counted, item);
    }

    /** Removes a reference; a container that loses its last one gives up its children. */
    method Remove(item: nat)
      requires Consistent() && item in ext && ActiveFull(g, rc, counted)
      modifies this
      ensures Consistent() && ext == old(ext) - multiset{item} && ActiveFull(g, rc, counted)
      ensures Shrank(g, old(rc), old(counted), rc, counted, |g|)
      ensures g[item].Container? && old(rc)[item] > 1 ==> rc == old(rc)[item := old(rc)[item] - 1]
      decreases Active(g, rc)
    {
      hide Explained, ActiveFull, Shrank, Active;
      ExplainedSizes(g, total, rc, ext, counted);
      ghost var rc0, c0 := rc, counted;
      FirstRemove(g, total, rc, ext, counted, item);
      total := total - 1;
      ext := ext - multiset{item};
      if g[item].Plain? { return; }
      rc := rc[item := rc[item] - 1];
      if rc[item] > 0 { return; }
      var i := 0;
      assert g[item].children[i..] == g[item].children;
      while i < |g[item].children|
        invariant 0 <= i <= |g[item].children|
        invariant Consistent() && ext == old(ext) - multiset{item} && |rc| == |counted| == |g|
        invariant ActiveFull(g, rc, counted) && Shrank(g, rc0, c0, rc, counted, item)
        invariant rc[item] <= 0 && counted[item] == g[item].children[i..]
      {
        var child := g[item].children[i];
        ghost var outside, rcA, l := ext, rc, g[item].children[i + 1..];
        BeforeChild(g, total, rc0, c0, rc, ext, counted, item, child, l);
        counted := counted[item := l];
        ext := ext + multiset{child};
        ghost var cA := counted;
        Remove(child);
        ExplainedSizes(g, total, rc, ext, counted);
        ShrankOn(g, rc0, c0, rcA, cA, rc, counted, item);
        i := i + 1;
      }
      ShrankWhole(g, rc0, c0, rc, counted, item);
    }
  }

  lemma ExplainedSizes(g: Graph, total: int, rc: seq<int>, ext: multiset<nat>, counted: seq<seq<nat>>)
    requires Explained(g, total, rc, ext, counted)
    ensures |rc| == |counted| == |g| && forall x :: x in ext ==> x < |g|
  {}

  /** The first step of Add: either it is all there is to do, or the container is about to be filled. */
  lemma FirstAdd(g: Graph, total: int, rc: seq<int>, ext: multiset<nat>, counted: seq<seq<nat>>, item: nat)
    requires Explained(g, total, rc, ext, counted) && item < |g| && IdleEmpty(g, rc, counted)
    ensures g[item].Plain? ==>
              Explained(g, total + 1, rc, ext + multiset{item}, counted) && Grew(g, rc, counted, rc, counted, |g|)
    ensures g[item].Container? ==>
              var rc' := rc[item := rc[item] + 1];
              && Explained(g, total + 1, rc', ext + multiset{item}, counted)
              && IdleEmpty(g, rc', counted)
              && (rc'[item] > 1 ==> Grew(g, rc, counted, rc', counted, |g|))
              && (rc'[item] <= 1 ==> Grew(g, rc, counted, rc', counted, item) && rc[item] == 0 && counted[item] == [])
  {
    ExplainedAdd(g, total, rc, ext, counted, item);
    NeverNegative(g, total, rc, ext, counted, item);
  }

  lemma FirstRemove(g: Graph, total: int, rc: seq<int>, ext: multiset<nat>, counted: seq<seq<nat>>, item: nat)
    requires Explained(g, total, rc, ext, counted) && item in ext && ActiveFull(g, rc, counted)
    ensures g[item].Plain? ==>
              Explained(g, total - 1, rc, ext - multiset{item}, counted) && Shrank(g, rc, counted, rc, counted, |g|)
    ensures g[item].Container? ==>
              var rc' := rc[item := rc[item] - 1];
              && Explained(g, total - 1, rc', ext - multiset{item}, counted)
              && ActiveFull(g, rc', counted) && rc[item] > 0
              && (rc'[item] > 0 ==> Shrank(g, rc, counted, rc', counted, |g|))
              && (rc'[item] <= 0 ==> Shrank(g, rc, counted, rc', counted, item) && counted[item] == g[item].children)
  {
    ExplainedRemove(g, total, rc, ext, counted, item);
    NeverNegative(g, total, rc, ext, counted, item);
  }

  lemma RoseSince(g: Graph, rc0: seq<int>, c0: seq<seq<nat>>, rc: seq<int>, c: seq<seq<nat>>, item: nat)
    requires |rc0| == |rc| == |c0| == |c| == |g| && Grew(g, rc0, c0, rc, c, item)
    ensures forall y :: 0 <= y < |g| ==> rc0[y] <= rc[y]
  {}

  /** The next counted child becomes an outside reference, ready to be given up. */
  lemma BeforeChild(g: Graph, total: int, rc0: seq<int>, c0: seq<seq<nat>>, rc: seq<int>, ext: multiset<nat>,
                    c: seq<seq<nat>>, item: nat, child: nat, l: seq<nat>)
    requires |rc0| == |rc| == |c0| == |c| == |g| && item < |g| && child < |g| && c[item] == [child] + l
    requires Explained(g, total, rc, ext, c) && ActiveFull(g, rc, c)
    requires Shrank(g, rc0, c0, rc, c, item) && rc[item] <= 0 < rc0[item]
    ensures Explained(g, total, rc, ext + multiset{child}, c[item := l]) && ActiveFull(g, rc, c[item := l])
    ensures Shrank(g, rc0, c0, rc, c[item := l], item) && Active(g, rc) < Active(g, rc0)
    ensures ext + multiset{child} - multiset{child} == ext
  {
    ExplainedUnmove(g, total, rc, ext, c, item, child, l);
    FewerActive(g, rc0, rc, item);
  }

  lemma {:induction false} NothingCounted(n: nat)
    ensures var c: seq<seq<nat>> := seq(n, _ => []);
            Size(c) == 0 && forall x :: Refs(c, x) == 0
  {
    if n > 0 {
      NothingCounted(n - 1);
      var c: seq<seq<nat>> := seq(n, _ => []);
      var d: seq<seq<nat>> := seq(n - 1, _ => []);
      assert c[..n - 1] == d && c[n - 1] == [];
      assert forall x :: Refs(c, x) == Refs(d, x) + multiset(c[n - 1])[x];
    }
  }

  /** A container is referenced as soon as something outside refers to it, and counts are never negative. */
  lemma NeverNegative(g: Graph, total: int, rc: seq<int>, ext: multiset<nat>, counted: seq<seq<nat>>, x: nat)
    requires Explained(g, total, rc, ext, counted) && x < |g|
    ensures rc[x] >= 0 && (x in ext && g[x].Container? ==> rc[x] > 0)
  {}

  // ----- what the counts mean between operations -----

  /** References to x from the children of containers that are themselves referenced. */
  function InnerRefs(g: Graph, rc: seq<int>, n: nat, x: nat): nat
    requires |rc| == |g| && n <= |g|
  {
    if n == 0 then 0
    else InnerRefs(g, rc, n - 1, x) + if rc[n - 1] > 0 then multiset(Children(g, n - 1))[x] else 0
  }

  /** Number of children of referenced containers. */
  function InnerSize(g: Graph, rc: seq<int>, n: nat): nat
    requires |rc| == |g| && n <= |g|
  {
    if n == 0 then 0 else InnerSize(g, rc, n - 1) + if rc[n - 1] > 0 then |Children(g, n - 1)| else 0
  }

  lemma {:induction false} CountedIsInner(g: Graph, rc: seq<int>, counted: seq<seq<nat>>, n: nat)
    requires |rc| == |counted| == |g| && n <= |g| && IdleEmpty(g, rc, counted) && ActiveFull(g, rc, counted)
    ensures Size(counted[..n]) == InnerSize(g, rc, n)
    ensures forall x :: Refs(counted[..n], x) == InnerRefs(g, rc, n, x)
  {
    if n > 0 {
      CountedIsInner(g, rc, counted, n - 1);
      assert counted[..n][..n - 1] == counted[..n - 1];
    }
  }

  /** A quiescent counter in terms of the graph alone. */
  ghost predicate Exact(g: Graph, total: int, rc: seq<int>, ext: multiset<nat>) {
    && |rc| == |g|
    && (forall x :: 0 <= x < |g| && g[x].Container? ==> rc[x] == ext[x] + InnerRefs(g, rc, |g|, x))
    && total == |ext| + InnerSize(g, rc, |g|)
  }

  /**
   * Each container's count is the number of references to it from stacks plus those from referenced containers, and
   * the global counter is the number of stack references plus the children of referenced containers.
   */
  lemma CountsAreExact(c: Counter)
    requires c.Valid()
    ensures Exact(c.g, c.total, c.rc, c.ext)
  {
    CountedIsInner(c.g, c.rc, c.counted, |c.g|);
    assert c.counted[..|c.g|] == c.counted;
  }

  lemma AddStaysFull(g: Graph, rc0: seq<int>, c0: seq<seq<nat>>, rc: seq<int>, c: seq<seq<nat>>)
    requires |rc0| == |rc| == |c0| == |c| == |g| && ActiveFull(g, rc0, c0) && Grew(g, rc0, c0, rc, c, |g|)
    ensures ActiveFull(g, rc, c)
  {}

  lemma RemoveStaysEmpty(g: Graph, rc0: seq<int>, c0: seq<seq<nat>>, rc: seq<int>, c: seq<seq<nat>>)
    requires |rc0| == |rc| == |c0| == |c| == |g| && IdleEmpty(g, rc0, c0) && Shrank(g, rc0, c0, rc, c, |g|)
    ensures IdleEmpty(g, rc, c)
  {}

  lemma Inserted(s: seq<nat>, e: nat, k: nat)
    requires k <= |s|
    ensures ((s + [e])[..k + 1] + s[k..])[k := e] == s[..k] + [e] + s[k..]
    ensures multiset(s[..k] + [e] + s[k..]) == multiset(s) + multiset{e}
  {
    assert s == s[..k] + s[k..];
  }

  /** The element at k brought to the end. */
  function RolledTo(s: seq<nat>, k: nat): seq<nat>
    requires k < |s|
  {
    s[..k] + s[k + 1..] + [s[k]]
  }

  lemma Rolled(s: seq<nat>, k: nat)
    requires k < |s|
    ensures RolledTo(s, k) == s[..k] + s[k + 1..] + [s[k]] && multiset(RolledTo(s, k)) == multiset(s)
    ensures k == |s| - 1 ==> RolledTo(s, k) == s
  {
    assert s == s[..k] + [s[k]] + s[k + 1..];
  }

  lemma ClearStep(s: seq<nat>, i: nat, ext0: multiset<nat>, ext: multiset<nat>)
    requires i < |s| && multiset(s) <= ext0 && ext == ext0 - multiset(s[..i])
    ensures s[i] in ext && ext - multiset{s[i]} == ext0 - multiset(s[..i + 1])
  {
    var a, b := multiset(s[..i]), multiset(s[i..]);
    assert s == s[..i] + s[i..];
    assert multiset(s) == a + b;
    assert s[i..][0] == s[i] && s[i] in s[i..] && s[i] in b;
    assert ext0[s[i]] >= a[s[i]] + b[s[i]];
    assert s[..i + 1] == s[..i] + [s[i]];
    assert multiset(s[..i + 1]) == a + multiset{s[i]};
  }

  // ----- evaluation stacks over a shared counter (pkg/vm/stack.go) -----

  class Stack {
    /** The top is last. */
    var elems: seq<nat>
    const refs: Counter

    ghost predicate Valid()
      reads this, refs
    {
      refs.Valid() && multiset(elems) <= refs.ext
    }

    constructor (counter: Counter)
      requires counter.Valid()
      ensures Valid() && refs == counter && elems == []
    {
      elems := [];
      refs := counter;
    }

    method AddReference(e: nat)
      requires refs.Valid() && e < |refs.g|
      modifies refs
      ensures refs.Valid() && refs.ext == old(refs.ext) + multiset{e}
    {
      refs.Add(e);
      AddStaysFull(refs.g, old(refs.rc), old(refs.counted), refs.rc, refs.counted);
    }

    method RemoveReference(e: nat)
      requires refs.Valid() && e in refs.ext
      modifies refs
      ensures refs.Valid() && refs.ext == old(refs.ext) - multiset{e}
    {
      refs.Remove(e);
      RemoveStaysEmpty(refs.g, old(refs.rc), old(refs.counted), refs.rc, refs.counted);
    }

    method Push(e: nat)
      requires Valid() && e < |refs.g|
      modifies this, refs
      ensures Valid() && elems == old(elems) + [e] && refs.ext == old(refs.ext) + multiset{e}
    {
      hide Counter.Valid, Counter.Consistent;
      elems := elems + [e];
      AddReference(e);
    }

    method Pop() returns (e: nat)
      requires Valid() && elems != []
      modifies this, refs
      ensures Valid() && elems + [e] == old(elems) && refs.ext == old(refs.ext) - multiset{e}
    {
      hide Counter.Valid, Counter.Consistent;
      ghost var was := elems;
      var l := |elems|;
      e := elems[l - 1];
      assert elems == elems[..l - 1] + [e];
      elems := elems[..l - 1];
      RemoveReference(e);
    }

    /** Inserts e with n elements above it. */
    method InsertAt(e: nat, n: nat)
      requires Valid() && e < |refs.g| && n <= |elems|
      modifies this, refs
      ensures var k := |old(elems)| - n;
              Valid() && elems == old(elems)[..k] + [e] + old(elems)[k..] && refs.ext == old(refs.ext) + multiset{e}
    {
      hide Counter.Valid, Counter.Consistent, RolledTo;
      var l := |elems|;
      var s := elems;
      elems := elems + [e];
      elems := elems[..l - n + 1] + s[l - n..];
      elems := elems[l - n := e];
      Inserted(s, e, l - n);
      AddReference(e);
    }

    /** Removes the element n below the top. */
    method RemoveAt(n: nat) returns (e: nat)
      requires Valid() && n < |elems|
      modifies this, refs
      ensures var k := |old(elems)| - 1 - n;
              && Valid() && e == old(elems)[k] && elems == old(elems)[..k] + old(elems)[k + 1..]
              && refs.ext == old(refs.ext) - multiset{e}
    {
      hide Counter.Valid, Counter.Consistent;
      var l := |elems|;
      e := elems[l - 1 - n];
      ghost var s := elems;
      elems := elems[..l - 1 - n] + elems[l - n..];
      assert s == s[..l - 1 - n] + [e] + s[l - n..];
      RemoveReference(e);
    }

    /** Drops everything; other holders of the counter keep their references. */
    method Clear()
      requires Valid()
      modifies this, refs
      ensures Valid() && elems == [] && refs.ext == old(refs.ext) - multiset(old(elems))
    {
      hide Counter.Valid, Counter.Consistent;
      var i := 0;
      while i < |elems|
        invariant 0 <= i <= |elems| && elems == old(elems)
        invariant refs.Valid() && multiset(elems) <= old(refs.ext)
        invariant refs.ext == old(refs.ext) - multiset(elems[..i])
      {
        ClearStep(elems, i, old(refs.ext), refs.ext);
        RemoveReference(elems[i]);
        i := i + 1;
      }
      assert elems[..i] == elems;
      elems := [];
    }

    /** Brings the element n below the top up; no references change. False is an error that leaves the stack alone. */
    method Roll(n: int) returns (ok: bool)
      requires Valid()
      modifies this
      ensures Valid() && ok == (0 <= n < |old(elems)|)
      ensures elems == if ok then RolledTo(old(elems), |old(elems)| - 1 - n) else old(elems)
    {
      hide Counter.Valid, Counter.Consistent;
      var l := |elems|;
      ok := 0 <= n < l;
      if ok {
        Rolled(elems, l - 1 - n);
        if n != 0 {
          var e := elems[l - 1 - n];
          elems := elems[..l - 1 - n] + elems[l - n..] + [e];
        }
      }
    }
  }

  // ----- counts and reachability -----

  /** A path from an outside reference down to x. */
  ghost predicate PathTo(g: Graph, ext: multiset<nat>, path: seq<nat>, x: nat) {
    && path != [] && path[0] in ext && path[|path| - 1] == x
    && (forall i :: 0 <= i < |path| ==> path[i] < |g|)
    && (forall i :: 0 < i < |path| ==> path[i] in Children(g, path[i - 1]))
  }

  ghost predicate Reachable(g: Graph, ext: multiset<nat>, x: nat) {
    exists path: seq<nat> :: PathTo(g, ext, path, x)
  }

  lemma {:induction false} InnerRefsPositive(g: Graph, rc: seq<int>, n: nat, x: nat)
    requires |rc| == |g| && n <= |g|
    ensures InnerRefs(g, rc, n, x) > 0 <==> exists y :: 0 <= y < n && rc[y] > 0 && x in Children(g, y)
  {
    if n > 0 {
      InnerRefsPositive(g, rc, n - 1, x);
      assert x in Children(g, n - 1) <==> multiset(Children(g, n - 1))[x] > 0;
    }
  }

  /** Everything a program can still get at has a positive count, cycles or not. */
  lemma {:induction false} ReachableIsCounted(g: Graph, total: int, rc: seq<int>, ext: multiset<nat>, path: seq<nat>,
                                              x: nat)
    requires Exact(g, total, rc, ext) && PathTo(g, ext, path, x) && g[x].Container?
    ensures rc[x] > 0
    decreases |path|
  {
    if |path| > 1 {
      var y := path[|path| - 2];
      assert x in Children(g, y);
      ReachableIsCounted(g, total, rc, ext, path[..|path| - 1], y);
      InnerRefsPositive(g, rc, |g|, x);
    }
  }

  /** Each container holds the next one, and the last holds the first. */
  predicate Cycle(g: Graph, cy: seq<nat>) {
    && cy != [] && (forall i :: 0 <= i < |cy| ==> cy[i] < |g|)
    && (forall i :: 0 < i < |cy| ==> cy[i] in Children(g, cy[i - 1]))
    && cy[0] in Children(g, cy[|cy| - 1])
  }

  ghost predicate Acyclic(g: Graph) {
    forall cy: seq<nat> :: !Cycle(g, cy)
  }

  lemma PathOfOne(g: Graph, ext: multiset<nat>, x: nat)
    requires x < |g| && x in ext
    ensures Reachable(g, ext, x)
  {
    assert PathTo(g, ext, [x], x);
  }

  lemma ExtendPath(g: Graph, ext: multiset<nat>, path: seq<nat>, y: nat, x: nat)
    requires PathTo(g, ext, path, y) && x < |g| && x in Children(g, y)
    ensures Reachable(g, ext, x)
  {
    assert PathTo(g, ext, path + [x], x);
  }

  /** Counted, and lost to the program. */
  ghost predicate Leaked(g: Graph, rc: seq<int>, ext: multiset<nat>, x: nat)
    requires |rc| == |g|
  {
    x < |g| && g[x].Container? && rc[x] > 0 && !Reachable(g, ext, x)
  }

  /** What is leaked is held by something that is leaked as well. */
  lemma LeakedHolder(g: Graph, total: int, rc: seq<int>, ext: multiset<nat>, x: nat) returns (y: nat)
    requires Exact(g, total, rc, ext) && Leaked(g, rc, ext, x)
    ensures Leaked(g, rc, ext, y) && x in Children(g, y)
  {
    hide InnerRefs, InnerSize, PathTo;
    if x in ext { PathOfOne(g, ext, x); }
    InnerRefsPositive(g, rc, |g|, x);
    y :| 0 <= y < |g| && rc[y] > 0 && x in Children(g, y);
    if Reachable(g, ext, y) {
      var path :| PathTo(g, ext, path, y);
      ExtendPath(g, ext, path, y, x);
    }
  }

  /** Different leaked containers, each holding the next. */
  ghost predicate LeakedWalk(g: Graph, rc: seq<int>, ext: multiset<nat>, w: seq<nat>)
    requires |rc| == |g|
  {
    && w != [] && (forall i :: 0 <= i < |w| ==> Leaked(g, rc, ext, w[i]))
    && (forall i :: 0 < i < |w| ==> w[i] in Children(g, w[i - 1]))
    && (forall i, j :: 0 <= i < j < |w| ==> w[i] != w[j])
  }

  lemma {:induction false} DistinctBelow(w: seq<nat>, n: nat)
    requires forall i :: 0 <= i < |w| ==> w[i] < n
    requires forall i, j :: 0 <= i < j < |w| ==> w[i] != w[j]
    ensures |w| <= n
    decreases n
  {
    if w != [] {
      assert w[0] < n;
      if j :| 0 <= j < |w| && w[j] == n - 1 {
        DistinctBelow(w[..j] + w[j + 1..], n - 1);
      } else {
        DistinctBelow(w, n - 1);
      }
    }
  }

  /** Going from holder to holder leads round a cycle of leaked containers. */
  lemma {:induction false} LeakedCycle(g: Graph, total: int, rc: seq<int>, ext: multiset<nat>, w: seq<nat>)
    returns (cy: seq<nat>)
    requires Exact(g, total, rc, ext) && LeakedWalk(g, rc, ext, w)
    ensures Cycle(g, cy) && forall i :: 0 <= i < |cy| ==> Leaked(g, rc, ext, cy[i])
    decreases |g| - |w|
  {
    hide Exact, Reachable;
    ExactSizes(g, total, rc, ext);
    var y := LeakedHolder(g, total, rc, ext, w[0]);
    if j :| 0 <= j < |w| && w[j] == y {
      cy := w[..j + 1];
    } else {
      var v := [y] + w;
      DistinctBelow(v, |g|);
      cy := LeakedCycle(g, total, rc, ext, v);
    }
  }

  lemma ExactSizes(g: Graph, total: int, rc: seq<int>, ext: multiset<nat>)
    requires Exact(g, total, rc, ext)
    ensures |rc| == |g|
  {}

  /** On acyclic items the count is positive exactly for what is reachable, so nothing is leaked. */
  lemma CountsDecideReachability(g: Graph, total: int, rc: seq<int>, ext: multiset<nat>, x: nat)
    requires Exact(g, total, rc, ext) && Acyclic(g) && x < |g| && g[x].Container?
    ensures rc[x] > 0 <==> Reachable(g, ext, x)
  {
    hide PathTo, InnerRefs, InnerSize;
    if Leaked(g, rc, ext, x) {
      var cy := LeakedCycle(g, total, rc, ext, [x]);
      assert false;
    }
    if Reachable(g, ext, x) {
      var path :| PathTo(g, ext, path, x);
      ReachableIsCounted(g, total, rc, ext, path, x);
    }
  }

  /** While the first member of a cycle is referenced from outside, the last one holds another reference to it. */
  lemma CycleHeldTwice(g: Graph, total: int, rc: seq<int>, ext: multiset<nat>, cy: seq<nat>)
    requires Exact(g, total, rc, ext) && Cycle(g, cy) && cy[0] in ext
    ensures g[cy[0]].Container? && rc[cy[0]] > 1
  {
    hide InnerRefs, InnerSize;
    var x, y := cy[0], cy[|cy| - 1];
    assert PathTo(g, ext, cy, y);
    assert |cy| > 1 ==> cy[1] in Children(g, cy[0]);
    ReachableIsCounted(g, total, rc, ext, cy, y);
    InnerRefsPositive(g, rc, |g|, x);
  }

  /**
   * On every graph with a cycle the counts fail to decide reachability: referenced and released again, the first member
   * of the cycle is counted for ever although nothing outside refers to anything.
   */
  method LeaksOnCycle(g: Graph, cy: seq<nat>) returns (c: Counter)
    requires Cycle(g, cy)
    ensures c.Valid() && c.g == g && c.ext == multiset{}
    ensures Leaked(g, c.rc, c.ext, cy[0])
  {
    c := new Counter(g);
    ghost var rc0, c0 := c.rc, c.counted;
    c.Add(cy[0]);
    AddStaysFull(g, rc0, c0, c.rc, c.counted);
    CountsAreExact(c);
    CycleHeldTwice(g, c.total, c.rc, c.ext, cy);
    ghost var rc1, c1 := c.rc, c.counted;
    c.Remove(cy[0]);
    RemoveStaysEmpty(g, rc1, c1, c.rc, c.counted);
  }

  /** An array that contains itself: once referenced and released again, it is unreachable and still counted. */
  method SelfContaining() returns (c: Counter)
    ensures c.Valid() && c.ext == multiset{} && c.g == [Container([0])]
    ensures c.total == 1 && c.rc == [1]
  {
    var g: Graph := [Container([0])];
    c := new Counter(g);
    c.Add(0);
    AddStaysFull(c.g, [0], [[]], c.rc, c.counted);
    CountsAreExact(c);
    SelfCount(g, c.rc);
    NeverNegative(g, c.total, c.rc, c.ext, c.counted, 0);
    ghost var rc0, c0 := c.rc, c.counted;
    c.Remove(0);
    RemoveStaysEmpty(c.g, rc0, c0, c.rc, c.counted);
    CountsAreExact(c);
    SelfCount(g, c.rc);
  }

  lemma SelfCount(g: Graph, rc: seq<int>)
    requires g == [Container([0])] && |rc| == 1
    ensures InnerRefs(g, rc, 1, 0) == InnerSize(g, rc, 1) == if rc[0] > 0 then 1 else 0
  {}
}
