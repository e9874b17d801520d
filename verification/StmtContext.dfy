/** Names and temporaries of the open constructs: exits find their targets and drop exactly what lies between. */
module StmtContext {
  import opened Common
  import opened StackCode
  import opened ExprLowering
  import opened Statements
  import opened StmtLowering

  function Frames(scopes: seq<Scope>): (fs: seq<Frame>)
    ensures |fs| == |scopes|
    ensures forall i :: 0 <= i < |scopes| ==> fs[i] == scopes[i].frame
  {
    seq(|scopes|, i requires 0 <= i < |scopes| => scopes[i].frame)
  }

  /**
   * What holds of the context after n labels: distinct names, existing labels, and the two current names up to date.
   */
  ghost predicate ContextOk(x: Context, n: nat) {
    && (forall i :: 0 <= i < |x.scopes| ==> ScopeOk(x.scopes[i], n))
    && Distinct(x.scopes)
    && (x.scopes != [] ==> x.currentSwitch == x.scopes[|x.scopes| - 1].name)
    && var t := Target(Frames(x.scopes), None, false);
       t >= 0 ==> x.currentFor == x.scopes[t].name
  }

  predicate ScopeOk(sc: Scope, n: nat) {
    && sc.end < n && (sc.frame.loop ==> sc.post < n)
    && (if sc.frame.lbl.Some? then sc.name == User(sc.frame.lbl.value) else sc.name.Auto? && sc.name.count < n)
  }

  predicate Distinct(scopes: seq<Scope>) {
    forall i, j :: 0 <= i < j < |scopes| ==> scopes[i].name != scopes[j].name
  }

  lemma ContextGrows(x: Context, n: nat, n': nat)
    requires ContextOk(x, n) && n <= n'
    ensures ContextOk(x, n')
  {}

  lemma FramesInside(scopes: seq<Scope>, sc: Scope)
    ensures Frames(scopes + [sc]) == Frames(scopes) + [sc.frame]
  {}

  /** A construct just entered. */
  lemma InsideOk(x: Context, sc: Scope, n: nat, n': nat)
    requires ContextOk(x, n) && n < n' && ScopeOk(sc, n') && FreshLabel(sc.frame.lbl, Frames(x.scopes))
    requires sc.name.Auto? ==> sc.name.count == n
    ensures ContextOk(Inside(x, sc), n')
  {
    var fs, y := Frames(x.scopes), Inside(x, sc);
    FramesInside(x.scopes, sc);
    assert (fs + [sc.frame])[..|fs|] == fs;
    forall i | 0 <= i < |x.scopes|
      ensures x.scopes[i].name != sc.name
    {
      assert ScopeOk(x.scopes[i], n);
      assert fs[i] == x.scopes[i].frame;
    }
    forall i | 0 <= i < |y.scopes| ensures ScopeOk(y.scopes[i], n') {
      if i < |x.scopes| { assert ScopeOk(x.scopes[i], n); }
    }
    assert Distinct(y.scopes);
  }

  lemma LoopInside(x: Context, lbl: Option<nat>, size: nat, c: Code, n: nat)
    requires ContextOk(x, |c.l|) && FreshLabel(lbl, Frames(x.scopes)) && |c.l| + 3 <= n
    ensures ContextOk(Inside(x, LoopScope(lbl, size, c)), n)
    ensures Frames(Inside(x, LoopScope(lbl, size, c)).scopes) == Frames(x.scopes) + [Frame(lbl, true)]
  {
    hide ContextOk, Frames;
    InsideOk(x, LoopScope(lbl, size, c), |c.l|, n);
    FramesInside(x.scopes, LoopScope(lbl, size, c));
  }

  lemma SwitchInside(x: Context, lbl: Option<nat>, c: Code, c1: Code, n: nat)
    requires ContextOk(x, |c.l|) && |c.l| <= |c1.l| < n && FreshLabel(lbl, Frames(x.scopes))
    ensures ContextOk(Inside(x, SwitchScope(lbl, c1)), n)
    ensures Frames(Inside(x, SwitchScope(lbl, c1)).scopes) == Frames(x.scopes) + [Frame(lbl, false)]
  {
    hide ContextOk, Frames;
    ContextGrows(x, |c.l|, |c1.l|);
    InsideOk(x, SwitchScope(lbl, c1), |c1.l|, n);
    FramesInside(x.scopes, SwitchScope(lbl, c1));
  }

  lemma {:induction false} NamedAt(scopes: seq<Scope>, t: nat)
    requires t < |scopes| && Distinct(scopes)
    ensures Named(scopes, scopes[t].name) == t
  {
    if t < |scopes| - 1 { NamedAt(scopes[..|scopes| - 1], t); }
  }

  /** Looking up by name finds the construct that the language means. */
  lemma TargetIsNamed(x: Context, n: nat, name: Option<nat>, brk: bool)
    requires ContextOk(x, n) && Target(Frames(x.scopes), name, brk) >= 0
    ensures Named(x.scopes, if name.Some? then User(name.value) else if brk then x.currentSwitch else x.currentFor)
         == Target(Frames(x.scopes), name, brk)
  {
    var t := Target(Frames(x.scopes), name, brk);
    assert ScopeOk(x.scopes[t], n);
    NamedAt(x.scopes, t);
  }

  lemma AboveInside(scopes: seq<Scope>, sc: Scope, t: int)
    requires -1 <= t < |scopes|
    ensures Above(scopes + [sc], t) == sc.size + Above(scopes, t)
    ensures Above(scopes + [sc], |scopes|) == 0
  {}

  lemma {:induction false} AboveBound(scopes: seq<Scope>, t: int)
    requires -1 <= t < |scopes|
    ensures Above(scopes, t) <= Above(scopes, -1)
  {
    if t < |scopes| - 1 { AboveBound(scopes[..|scopes| - 1], t); }
  }

  lemma TargetInside(scopes: seq<Scope>, sc: Scope, name: Option<nat>, brk: bool)
    ensures Target(Frames(scopes + [sc]), name, brk) ==
            if (brk || sc.frame.loop) && Concerns(name, sc.frame.lbl) then |scopes|
            else Target(Frames(scopes), name, brk)
  {
    FramesInside(scopes, sc);
    assert (Frames(scopes) + [sc.frame])[..|scopes|] == Frames(scopes);
  }

  // ----- how a piece of code ends -----

  /** The stack once everything kept inside construct t is gone. */
  function Exit(stack: seq<Value>, scopes: seq<Scope>, t: int): seq<Value>
    requires -1 <= t < |scopes| || t == -1
    requires Above(scopes, -1) <= |stack|
  {
    if t == -1 then stack[..|stack| - Above(scopes, -1)]
    else AboveBound(scopes, t); stack[..|stack| - Above(scopes, t)]
  }

  function Results(v: Option<Value>): seq<Value> { if v.Some? then [v.value] else [] }

  /**
   * The machine, started in k, does what the outcome says: it goes on at pc with the stack unchanged, or arrives at the
   * exit label of the construct concerned with exactly that construct's temporaries on top, or returns.
   */
  ghost predicate Ends(w: World, p: seq<Instr>, l: seq<int>, scopes: seq<Scope>, k: Conf, pc: int, stack: seq<Value>,
                       out: Outcome) {
    Above(scopes, -1) <= |stack| &&
    match out
    case Normal(env, tr) => Reaches(w, p, l, k, At(pc, stack, env, tr))
    case Broke(name, env, tr) =>
      var t := Target(Frames(scopes), name, true);
      t >= 0 && scopes[t].end < |l| && Reaches(w, p, l, k, At(l[scopes[t].end], Exit(stack, scopes, t), env, tr))
    case Continued(name, env, tr) =>
      var t := Target(Frames(scopes), name, false);
      t >= 0 && scopes[t].post < |l| && Reaches(w, p, l, k, At(l[scopes[t].post], Exit(stack, scopes, t), env, tr))
    case Gave(v, env, tr) => Reaches(w, p, l, k, Conf.Returned(Exit(stack, scopes, -1) + Results(v), env, tr))
    case _ => true
  }

  lemma EndsAfter(w: World, p: seq<Instr>, l: seq<int>, scopes: seq<Scope>, j: Conf, k: Conf, pc: int,
                  stack: seq<Value>, out: Outcome)
    requires Reaches(w, p, l, j, k) && Ends(w, p, l, scopes, k, pc, stack, out)
    ensures Ends(w, p, l, scopes, j, pc, stack, out)
  {
    hide Reaches, Exit, Target, Above, Frames;
    match out
    case Normal(env, tr) => ReachesThrough(w, p, l, j, k, At(pc, stack, env, tr));
    case Broke(name, env, tr) =>
      var t := Target(Frames(scopes), name, true);
      ReachesThrough(w, p, l, j, k, At(l[scopes[t].end], Exit(stack, scopes, t), env, tr));
    case Continued(name, env, tr) =>
      var t := Target(Frames(scopes), name, false);
      ReachesThrough(w, p, l, j, k, At(l[scopes[t].post], Exit(stack, scopes, t), env, tr));
    case Gave(v, env, tr) =>
      ReachesThrough(w, p, l, j, k, Conf.Returned(Exit(stack, scopes, -1) + Results(v), env, tr));
    case _ =>
  }

  /** The stack left by an exit that leaves a construct for good. */
  lemma {:induction false} ExitInside(stack: seq<Value>, temps: seq<Value>, scopes: seq<Scope>, sc: Scope, t: int)
    requires -1 <= t < |scopes| && |temps| == sc.size && Above(scopes, -1) <= |stack|
    ensures Above(scopes + [sc], -1) <= |stack + temps|
    ensures Exit(stack + temps, scopes + [sc], t) == Exit(stack, scopes, t)
  {
    hide Above;
    AboveInside(scopes, sc, -1);
    AboveInside(scopes, sc, t);
    AboveBound(scopes, t);
    TakeOfAppend(stack, temps, |stack| - Above(scopes, t));
  }

  lemma TakeOfAppend<T>(s: seq<T>, t: seq<T>, n: nat)
    requires n <= |s|
    ensures (s + t)[..n] == s[..n]
  {}

  lemma ExitOwn(stack: seq<Value>, scopes: seq<Scope>, sc: Scope)
    requires Above(scopes + [sc], -1) <= |stack|
    ensures Exit(stack, scopes + [sc], |scopes|) == stack
  {}

  /** An outcome that does not concern the innermost construct passes through it. */
  lemma EndsOutside(w: World, p: seq<Instr>, l: seq<int>, scopes: seq<Scope>, sc: Scope, k: Conf, pc: int, pc': int,
                    stack: seq<Value>, temps: seq<Value>, out: Outcome)
    requires |temps| == sc.size && Above(scopes, -1) <= |stack|
    requires Ends(w, p, l, scopes + [sc], k, pc, stack + temps, out)
    requires !out.Normal? && !(out.Broke? && Concerns(out.name, sc.frame.lbl))
    requires !(out.Continued? && sc.frame.loop && Concerns(out.name, sc.frame.lbl))
    ensures Ends(w, p, l, scopes, k, pc', stack, out)
  {
    hide Reaches, Exit, Target, Above, Frames;
    match out
    case Broke(name, env, tr) =>
      TargetInside(scopes, sc, name, true);
      ExitInside(stack, temps, scopes, sc, Target(Frames(scopes), name, true));
    case Continued(name, env, tr) =>
      TargetInside(scopes, sc, name, false);
      ExitInside(stack, temps, scopes, sc, Target(Frames(scopes), name, false));
    case Gave(v, env, tr) => ExitInside(stack, temps, scopes, sc, -1);
    case _ =>
  }

  /** A break that concerns the innermost construct arrives at its end, a continue at its post label. */
  lemma EndsOwn(w: World, p: seq<Instr>, l: seq<int>, scopes: seq<Scope>, sc: Scope, k: Conf, pc: int,
                stack: seq<Value>, out: Outcome)
    requires Ends(w, p, l, scopes + [sc], k, pc, stack, out)
    ensures out.Broke? && Concerns(out.name, sc.frame.lbl) ==>
              sc.end < |l| && Reaches(w, p, l, k, At(l[sc.end], stack, out.env, out.trace))
    ensures out.Continued? && sc.frame.loop && Concerns(out.name, sc.frame.lbl) ==>
              sc.post < |l| && Reaches(w, p, l, k, At(l[sc.post], stack, out.env, out.trace))
  {
    hide Reaches, Exit, Target, Above, Frames;
    ExitOwn(stack, scopes, sc);
    if out.Broke? { TargetInside(scopes, sc, out.name, true); }
    if out.Continued? { TargetInside(scopes, sc, out.name, false); }
  }
}
