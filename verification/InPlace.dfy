/** A pass over a script that rewrites parameters where they stand, one instruction at a time. */
module InPlace {
  import opened Bytes
  import opened Opcodes
  import opened Context
  import opened Instructions

  lemma SpliceMiddle(l: seq<Byte>, op: Byte, a: seq<Byte>, x: seq<Byte>, r: seq<Byte>)
    requires |a| == |x|
    ensures var s := l + ([op] + a) + r;
            l + ([op] + x) + r == s[..|l| + 1] + x + s[|l| + 1 + |a|..]
  {}

  /** Overwriting the parameter bytes of instruction i. */
  lemma ReplaceArgument(q: seq<Ins>, i: nat, x: Ins)
    requires i < |q| && x.op == q[i].op && |x.arg| == |q[i].arg|
    ensures Addr(q, i) + 1 + |x.arg| <= |Encode(q)|
    ensures Encode(q[i := x]) == Encode(q)[..Addr(q, i) + 1] + x.arg + Encode(q)[Addr(q, i) + 1 + |x.arg|..]
  {
    EncodeSplit(q, i);
    var r := q[i := x];
    EncodeSplit(r, i);
    assert r[..i] == q[..i] && r[i + 1..] == q[i + 1..];
    SpliceMiddle(Encode(q[..i]), x.op, q[i].arg, x.arg, Encode(q[i + 1..]));
  }

  /** Two programs that differ in parameter values only. */
  predicate SameShape(p: seq<Ins>, g: seq<Ins>) {
    && |p| == |g|
    && forall i :: 0 <= i < |p| ==> p[i].op == g[i].op && |p[i].arg| == |g[i].arg|
  }

  /** Program p on its way to g, with the first i instructions rewritten. */
  function Half(p: seq<Ins>, g: seq<Ins>, i: nat): (q: seq<Ins>)
    requires i <= |p| == |g|
    ensures |q| == |p|
  {
    g[..i] + p[i..]
  }

  lemma HalfBounds(p: seq<Ins>, g: seq<Ins>)
    requires |p| == |g|
    ensures Half(p, g, 0) == p && Half(p, g, |p|) == g
  {}

  lemma HalfFetch(p: seq<Ins>, g: seq<Ins>, i: nat)
    requires SameShape(p, g) && i < |p| && WellFormed(p[i])
    ensures Addr(Half(p, g, i), i) == Addr(p, i)
    ensures Addr(p, i + 1) == Addr(p, i) + 1 + |p[i].arg| <= |Encode(Half(p, g, i))|
    ensures var f := FetchAt(Encode(Half(p, g, i)), Addr(p, i));
            f.Fetched? && f.op == p[i].op && f.hi == Addr(p, i + 1)
    ensures Encode(Half(p, g, i))[Addr(p, i) + 1..Addr(p, i + 1)] == p[i].arg
    ensures Half(p, g, i + 1) == Half(p, g, i)[i := g[i]]
  {
    hide FetchAt, Encode;
    var q := Half(p, g, i);
    AddrDependsOnSizes(p, q, i);
    AddrDependsOnSizes(p, q, i + 1);
    FetchInstruction(q, i);
  }

  lemma HalfStep(p: seq<Ins>, g: seq<Ins>, i: nat)
    requires SameShape(p, g) && i < |p| && WellFormed(p[i])
    ensures Addr(p, i + 1) == Addr(p, i) + 1 + |p[i].arg| <= |Encode(Half(p, g, i))|
    ensures var s := Encode(Half(p, g, i));
            Encode(Half(p, g, i + 1)) == s[..Addr(p, i) + 1] + g[i].arg + s[Addr(p, i + 1)..]
  {
    hide FetchAt, Encode, Addr;
    HalfFetch(p, g, i);
    ReplaceArgument(Half(p, g, i), i, g[i]);
  }

  lemma HalfEnd(p: seq<Ins>, g: seq<Ins>)
    requires SameShape(p, g)
    ensures |Encode(Half(p, g, |p|))| == Addr(p, |p|)
  {
    HalfBounds(p, g);
    AddrDependsOnSizes(p, g, |p|);
    EncodedLength(g, |g|);
    assert g[..|g|] == g;
  }

  /** What the cursor reports next while the pass stands before instruction i. */
  lemma NextIsInstruction(s: seq<Byte>, p: seq<Ins>, g: seq<Ins>, i: nat)
    requires WellFormedProgram(p) && SameShape(p, g) && i <= |p| && s == Encode(Half(p, g, i))
    ensures var f := FetchAt(s, Addr(p, i));
            && (f.Fetched? <==> i < |p|)
            && (i < |p| ==> f.op == p[i].op && f.hi == Addr(p, i + 1) && s[Addr(p, i) + 1..f.hi] == p[i].arg)
  {
    if i < |p| {
      hide FetchAt;
      HalfFetch(p, g, i);
    } else {
      HalfEnd(p, g);
    }
  }

  /** The instructions before i are rewritten, and the cursor has just fetched instruction i. */
  ghost predicate Standing(s: seq<Byte>, ip: nat, nextip: nat, f: Fetch, p: seq<Ins>, g: seq<Ins>, i: nat)
    requires i <= |p| == |g|
  {
    && s == Encode(Half(p, g, i))
    && ip == Addr(p, i)
    && (f.Fetched? <==> i < |p|)
    && (i < |p| ==> f.op == p[i].op && nextip == Addr(p, i + 1) <= |s| && ip < nextip && s[ip + 1..nextip] == p[i].arg)
  }
}
