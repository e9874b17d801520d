/** The emitted code of every legal statement does what the statement means. */
module StmtRuns {
  import opened Common
  import opened StackCode
  import opened ExprLowering
  import opened Statements
  import opened StmtLowering
  import opened StmtContext

  // ----- runs of straight code -----

  /** Executing instruction n of a straight piece of code. */
  lemma ThenNth(w: World, p: seq<Instr>, l: seq<int>, start: Conf, c: Code, code: seq<Instr>, n: nat, k: Conf)
    requires Reaches(w, p, l, start, k) && k.At? && n < |code| && k.pc == |c.prog| + n && Ops(c, code).prog <= p
    ensures Reaches(w, p, l, start, Exec1(w, code[n], l, k))
  {
    hide Exec1, Reaches;
    assert Op(Ops(c, code[..n]), code[n]).prog <= p by {
      assert (c.prog + code)[..|c.prog| + n + 1] == c.prog + code[..n] + [code[n]];
    }
    ThenOp(w, p, l, start, Ops(c, code[..n]), code[n], k);
  }

  lemma {:induction false} DropsRun(w: World, p: seq<Instr>, l: seq<int>, c: Code, n: nat, stack: seq<Value>,
                                    env: Locals, tr: seq<nat>)
    requires Ops(c, Repeat(Drop, n)).prog <= p && n <= |stack|
    ensures Reaches(w, p, l, At(|c.prog|, stack, env, tr), At(|c.prog| + n, stack[..|stack| - n], env, tr))
  {
    var start := At(|c.prog|, stack, env, tr);
    if n == 0 {
      assert stack[..|stack| - 0] == stack;
      ReachesItself(w, p, l, start);
    } else {
      assert Ops(c, Repeat(Drop, n - 1)).prog <= Ops(c, Repeat(Drop, n)).prog;
      DropsRun(w, p, l, c, n - 1, stack, env, tr);
      var k := At(|c.prog| + n - 1, stack[..|stack| - (n - 1)], env, tr);
      ThenNth(w, p, l, start, c, Repeat(Drop, n), n - 1, k);
      assert k.stack[..|k.stack| - 1] + [] == stack[..|stack| - n];
    }
  }

  /** Dropping n temporaries, one by one or packed together. */
  lemma DropItemsRuns(w: World, p: seq<Instr>, l: seq<int>, c: Code, n: nat, stack: seq<Value>, env: Locals,
                      tr: seq<nat>)
    requires DropItems(n, c).prog <= p && n <= |stack|
    ensures Reaches(w, p, l, At(|c.prog|, stack, env, tr), At(|DropItems(n, c).prog|, stack[..|stack| - n], env, tr))
  {
    if n < 4 {
      DropsRun(w, p, l, c, n, stack, env, tr);
    } else {
      PackDropRuns(w, p, l, c, n, stack, env, tr);
    }
  }

  lemma PackDropRuns(w: World, p: seq<Instr>, l: seq<int>, c: Code, n: nat, stack: seq<Value>, env: Locals,
                     tr: seq<nat>)
    requires Ops(c, [Push(n), Pack, Drop]).prog <= p && n <= |stack|
    ensures Reaches(w, p, l, At(|c.prog|, stack, env, tr), At(|c.prog| + 3, stack[..|stack| - n], env, tr))
  {
    hide Reaches, Packed, Exec1;
    var code := [Push(n), Pack, Drop];
    var k0 := At(|c.prog|, stack, env, tr);
    var k1 := At(|c.prog| + 1, stack + [Int(n)], env, tr);
    var k2 := At(|c.prog| + 2, stack[..|stack| - n] + [Arr(Packed(stack, n))], env, tr);
    ReachesItself(w, p, l, k0);
    PushEffect(w, l, n, k0);
    PackEffect(w, l, n, k0, k1);
    DropEffect(w, l, k2, stack[..|stack| - n]);
    ThenNth(w, p, l, k0, c, code, 0, k0);
    ThenNth(w, p, l, k0, c, code, 1, k1);
    ThenNth(w, p, l, k0, c, code, 2, k2);
  }

  lemma PushEffect(w: World, l: seq<int>, n: int, k: Conf)
    requires k.At?
    ensures Exec1(w, Push(n), l, k) == k.(pc := k.pc + 1, stack := k.stack + [Int(n)])
  {}

  lemma PackEffect(w: World, l: seq<int>, n: nat, k: Conf, k1: Conf)
    requires k.At? && n <= |k.stack| && k1 == k.(pc := k.pc + 1, stack := k.stack + [Int(n)])
    ensures Exec1(w, Pack, l, k1) == k.(pc := k.pc + 2, stack := k.stack[..|k.stack| - n] + [Arr(Packed(k.stack, n))])
  {
    hide Packed;
    assert k1.stack[..|k1.stack| - 1] == k.stack;
    assert k1.stack[..|k1.stack| - (1 + n)] == k.stack[..|k.stack| - n];
  }

  lemma DropEffect(w: World, l: seq<int>, k: Conf, rest: seq<Value>)
    requires k.At? && |k.stack| > 0 && rest == k.stack[..|k.stack| - 1]
    ensures Exec1(w, Drop, l, k) == k.(pc := k.pc + 1, stack := rest)
  {}

  // ----- statements -----

  /**
   * What the theorem asks of a statement's place: its code is in the program, exits have targets, the stack holds the
   * temporaries.
   */
  ghost predicate Ready(p: seq<Instr>, l: seq<int>, s: Stmt, x: Context, c: Code, stack: seq<Value>) {
    && Within(p, l, c, EmitStmt(s, x, c))
    && ContextOk(x, |c.l|) && Legal(s, Frames(x.scopes)) && Above(x.scopes, -1) <= |stack|
  }

  /** Statement lowering is correct. */
  lemma {:induction false} StmtRunsTo(w: World, p: seq<Instr>, l: seq<int>, s: Stmt, x: Context, c: Code,
                                      stack: seq<Value>, env: Locals, tr: seq<nat>, fuel: nat)
    requires Ready(p, l, s, x, c, stack)
    ensures Ends(w, p, l, x.scopes, At(|c.prog|, stack, env, tr), |EmitStmt(s, x, c).prog|, stack,
                 Exec(w, Emitted, s, env, tr, fuel))
    decreases fuel, s, 3
  {
    hide *;
    match s
    case Skip => SkipRuns(w, p, l, s, x, c, stack, env, tr, fuel);
    case Assign(_, _) => AssignRuns(w, p, l, s, x, c, stack, env, tr, fuel);
    case IncDec(_, _) => IncDecRuns(w, p, l, s, x, c, stack, env, tr, fuel);
    case Invoke(_) => InvokeRuns(w, p, l, s, x, c, stack, env, tr, fuel);
    case Seq(_, _) => SeqRuns(w, p, l, s, x, c, stack, env, tr, fuel);
    case If(_, _, _, _) => IfRuns(w, p, l, s, x, c, stack, env, tr, fuel);
    case For(_, _, _, _, _) => ForRuns(w, p, l, s, x, c, stack, env, tr, fuel);
    case Range(_, _, _, _, _) => RangeRuns(w, p, l, s, x, c, stack, env, tr, fuel);
    case Switch(_, _, _, _) => SwitchRuns(w, p, l, s, x, c, stack, env, tr, fuel);
    case Break(_) => BranchRuns(w, p, l, s, x, c, stack, env, tr, fuel);
    case Continue(_) => BranchRuns(w, p, l, s, x, c, stack, env, tr, fuel);
    case Return(_) => ReturnRuns(w, p, l, s, x, c, stack, env, tr, fuel);
  }

  lemma SkipRuns(w: World, p: seq<Instr>, l: seq<int>, s: Stmt, x: Context, c: Code,
                 stack: seq<Value>, env: Locals, tr: seq<nat>, fuel: nat)
    requires Ready(p, l, s, x, c, stack) && s.Skip?
    ensures Ends(w, p, l, x.scopes, At(|c.prog|, stack, env, tr), |EmitStmt(s, x, c).prog|, stack,
                 Exec(w, Emitted, s, env, tr, fuel))
  {
    ReachesItself(w, p, l, At(|c.prog|, stack, env, tr));
  }

  lemma AssignRuns(w: World, p: seq<Instr>, l: seq<int>, s: Stmt, x: Context, c: Code,
                   stack: seq<Value>, env: Locals, tr: seq<nat>, fuel: nat)
    requires Ready(p, l, s, x, c, stack) && s.Assign?
    ensures Ends(w, p, l, x.scopes, At(|c.prog|, stack, env, tr), |EmitStmt(s, x, c).prog|, stack,
                 Exec(w, Emitted, s, env, tr, fuel))
  {
    hide Reaches, Walk, Eval, Target, Legal, ContextOk;
    var r := Eval(w, s.e, env, tr);
    if r.Fine? {
      var m := Walk(s.e, c);
      PlacedParts(p, l, c, m, EmitStmt(s, x, c));
      WalkRuns(w, p, l, s.e, c, stack, env, tr);
      var k := At(|m.prog|, stack + [r.v], env, r.trace);
      ThenOp(w, p, l, At(|c.prog|, stack, env, tr), m, Store(s.x), k);
      assert k.stack[..|k.stack| - 1] == stack;
    }
  }

  lemma IncDecRuns(w: World, p: seq<Instr>, l: seq<int>, s: Stmt, x: Context, c: Code,
                   stack: seq<Value>, env: Locals, tr: seq<nat>, fuel: nat)
    requires Ready(p, l, s, x, c, stack) && s.IncDec?
    ensures Ends(w, p, l, x.scopes, At(|c.prog|, stack, env, tr), |EmitStmt(s, x, c).prog|, stack,
                 Exec(w, Emitted, s, env, tr, fuel))
  {
    hide Reaches, Target, Legal, ContextOk;
    var v := Get(env, s.x);
    if v.Int? && IsInt256(v.n + if s.up then 1 else -1) {
      var code := [Load(s.x), if s.up then Inc else Dec, Store(s.x)];
      var k0 := At(|c.prog|, stack, env, tr);
      ReachesItself(w, p, l, k0);
      ThenNth(w, p, l, k0, c, code, 0, k0);
      assert stack[..|stack| - 0] == stack;
      var k1 := At(|c.prog| + 1, stack + [v], env, tr);
      ThenNth(w, p, l, k0, c, code, 1, k1);
      assert k1.stack[..|k1.stack| - 1] == stack;
      var k2 := At(|c.prog| + 2, stack + [Int(v.n + if s.up then 1 else -1)], env, tr);
      ThenNth(w, p, l, k0, c, code, 2, k2);
      assert k2.stack[..|k2.stack| - 1] == stack;
    }
  }

  lemma InvokeRuns(w: World, p: seq<Instr>, l: seq<int>, s: Stmt, x: Context, c: Code,
                   stack: seq<Value>, env: Locals, tr: seq<nat>, fuel: nat)
    requires Ready(p, l, s, x, c, stack) && s.Invoke?
    ensures Ends(w, p, l, x.scopes, At(|c.prog|, stack, env, tr), |EmitStmt(s, x, c).prog|, stack,
                 Exec(w, Emitted, s, env, tr, fuel))
  {
    hide Reaches, Target, Legal, ContextOk;
    var code := [Perform(s.f), Drop];
    var k0 := At(|c.prog|, stack, env, tr);
    ReachesItself(w, p, l, k0);
    ThenNth(w, p, l, k0, c, code, 0, k0);
    var k1 := At(|c.prog| + 1, stack + [w(s.f, tr)], env, tr + [s.f]);
    ThenNth(w, p, l, k0, c, code, 1, k1);
    assert k1.stack[..|k1.stack| - 1] + [] == stack;
  }

  /** A break or continue drops exactly the temporaries of the constructs it leaves. */
  lemma BranchRuns(w: World, p: seq<Instr>, l: seq<int>, s: Stmt, x: Context, c: Code,
                   stack: seq<Value>, env: Locals, tr: seq<nat>, fuel: nat)
    requires Ready(p, l, s, x, c, stack) && (s.Break? || s.Continue?)
    ensures Ends(w, p, l, x.scopes, At(|c.prog|, stack, env, tr), |EmitStmt(s, x, c).prog|, stack,
                 Exec(w, Emitted, s, env, tr, fuel))
  {
    hide Reaches, Target, Named, Above, Frames, Distinct, DropItems;
    TargetIsNamed(x, |c.l|, s.name, s.Break?);
    var t := Target(Frames(x.scopes), s.name, s.Break?);
    AboveBound(x.scopes, t);
    assert ScopeOk(x.scopes[t], |c.l|);
    var lab := if s.Break? then x.scopes[t].end else x.scopes[t].post;
    assert EmitStmt(s, x, c) == EmitBranch(s.name, s.Break?, x, c);
    var m := DropItems(Above(x.scopes, t), c);
    assert EmitStmt(s, x, c) == Op(m, Jump(Always, lab));
    assert Op(m, Jump(Always, lab)).prog <= p;
    DropItemsRuns(w, p, l, c, Above(x.scopes, t), stack, env, tr);
    JumpAlways(w, p, l, At(|c.prog|, stack, env, tr), m, lab, At(|m.prog|, Exit(stack, x.scopes, t), env, tr));
  }

  /** A return drops all temporaries of the function. */
  lemma ReturnRuns(w: World, p: seq<Instr>, l: seq<int>, s: Stmt, x: Context, c: Code,
                   stack: seq<Value>, env: Locals, tr: seq<nat>, fuel: nat)
    requires Ready(p, l, s, x, c, stack) && s.Return?
    ensures Ends(w, p, l, x.scopes, At(|c.prog|, stack, env, tr), |EmitStmt(s, x, c).prog|, stack,
                 Exec(w, Emitted, s, env, tr, fuel))
  {
    hide Reaches, Target, Above, Frames, ContextOk, DropItems, Eval, Walk;
    var c0 := SetLabel(NewLabel(c), |c.l|);
    var c1 := DropItems(Above(x.scopes, -1), c0);
    var c2 := if s.result.None? then c1 else Walk(s.result.value, c1);
    assert EmitStmt(s, x, c) == Op(c2, Ret);
    var start := At(|c.prog|, stack, env, tr);
    DropItemsRuns(w, p, l, c0, Above(x.scopes, -1), stack, env, tr);
    var base := Exit(stack, x.scopes, -1);
    var k := At(|c1.prog|, base, env, tr);
    if s.result.None? {
      ThenOp(w, p, l, start, c1, Ret, k);
      assert base + [] == base;
    } else {
      var r := Eval(w, s.result.value, env, tr);
      if r.Fine? {
        PartWithin(p, l, c, c1, c2, EmitStmt(s, x, c));
        WalkRuns(w, p, l, s.result.value, c1, base, env, tr);
        var j := At(|c2.prog|, base + [r.v], env, r.trace);
        ReachesThrough(w, p, l, start, k, j);
        ThenOp(w, p, l, start, c2, Ret, j);
      }
    }
  }

  lemma ElsewhereEnds(w: World, p: seq<Instr>, l: seq<int>, scopes: seq<Scope>, k: Conf, pc: int, pc': int,
                      stack: seq<Value>, out: Outcome)
    requires Ends(w, p, l, scopes, k, pc, stack, out) && !out.Normal?
    ensures Ends(w, p, l, scopes, k, pc', stack, out)
  {}

  lemma {:induction false} SeqRuns(w: World, p: seq<Instr>, l: seq<int>, s: Stmt, x: Context, c: Code,
                                   stack: seq<Value>, env: Locals, tr: seq<nat>, fuel: nat)
    requires Ready(p, l, s, x, c, stack) && s.Seq?
    ensures Ends(w, p, l, x.scopes, At(|c.prog|, stack, env, tr), |EmitStmt(s, x, c).prog|, stack,
                 Exec(w, Emitted, s, env, tr, fuel))
    decreases fuel, s, 2
  {
    hide Reaches, Target, Above, Frames, Within, ContextOk;
    var m, d := EmitStmt(s.first, x, c), EmitStmt(s, x, c);
    PlacedParts(p, l, c, m, d);
    ContextGrows(x, |c.l|, |m.l|);
    var o := Exec(w, Emitted, s.first, env, tr, fuel);
    var start := At(|c.prog|, stack, env, tr);
    StmtRunsTo(w, p, l, s.first, x, c, stack, env, tr, fuel);
    if o.Normal? {
      StmtRunsTo(w, p, l, s.second, x, m, stack, o.env, o.trace, fuel);
      EndsAfter(w, p, l, x.scopes, start, At(|m.prog|, stack, o.env, o.trace), |d.prog|, stack,
                Exec(w, Emitted, s, env, tr, fuel));
    } else {
      ElsewhereEnds(w, p, l, x.scopes, start, |m.prog|, |d.prog|, stack, o);
    }
  }

  // ----- if -----

  lemma {:induction false} IfPlaced(p: seq<Instr>, l: seq<int>, c: Code, c0: Code, c1: Code, c2: Code, c3: Code)
    requires c0.prog == c.prog && |c0.l| == |c.l| + 3 && Extends(c0, c1) && Extends(c1, c2) &&
             Extends(SetLabel(c2, |c.l|), c3)
    requires Within(p, l, c, SetLabel(SetLabel(c3, |c.l| + 1), |c.l| + 2))
    ensures Within(p, l, c0, c1) && Within(p, l, c1, c2) && Within(p, l, SetLabel(c2, |c.l|), c3)
    ensures |c.l| + 1 < |l| && l[|c.l| + 1] == |c3.prog|
  {}

  lemma {:induction false} IfElsePlaced(p: seq<Instr>, l: seq<int>, c: Code, c0: Code, c1: Code, c2: Code, c3: Code,
                                        c4: Code, c5: Code)
    requires c0.prog == c.prog && |c0.l| == |c.l| + 3 && Extends(c0, c1) && Extends(c1, c2) &&
             Extends(SetLabel(c2, |c.l|), c3)
    requires c4 == SetLabel(Op(c3, Jump(Always, |c.l| + 2)), |c.l| + 1) && Extends(c4, c5)
    requires Within(p, l, c, SetLabel(c5, |c.l| + 2))
    ensures Within(p, l, c0, c1) && Within(p, l, c1, c2) && Within(p, l, SetLabel(c2, |c.l|), c3) &&
            Within(p, l, c4, c5)
    ensures |c.l| + 2 < |l| && l[|c.l| + 1] == |c4.prog| && l[|c.l| + 2] == |c5.prog| && c4.prog <= p
  {}

  lemma SimpleOutcome(w: World, s: Stmt, env: Locals, tr: seq<nat>, fuel: nat)
    requires Simple(s)
    ensures Exec(w, Emitted, s, env, tr, fuel).Normal? || Exec(w, Emitted, s, env, tr, fuel).Stuck?
  {}

  /** The initialiser and the condition. */
  lemma {:induction false} ConditionRuns(w: World, p: seq<Instr>, l: seq<int>, s: Stmt, x: Context, c: Code, lab: nat,
                                         stack: seq<Value>, env: Locals, tr: seq<nat>, fuel: nat)
    requires s.If? && Simple(s.init) && lab < |l|
    requires Within(p, l, c, EmitStmt(s.init, x, c)) && ContextOk(x, |c.l|) && Above(x.scopes, -1) <= |stack|
    requires Within(p, l, EmitStmt(s.init, x, c), EmitBoolExpr(s.cond, true, false, lab, EmitStmt(s.init, x, c)))
    ensures var o := Exec(w, Emitted, s.init, env, tr, fuel);
            o.Normal? ==>
              var r := Eval(w, s.cond, o.env, o.trace);
              r.Fine? && r.v.Bool? ==>
                Reaches(w, p, l, At(|c.prog|, stack, env, tr),
                        At(if r.v.b then |EmitBoolExpr(s.cond, true, false, lab, EmitStmt(s.init, x, c)).prog|
                           else l[lab], stack, o.env, r.trace))
    decreases fuel, s, 1
  {
    hide Reaches, Target, Above, Frames, Within, ContextOk, EmitStmt, EmitBoolExpr, Eval, Exec;
    var o := Exec(w, Emitted, s.init, env, tr, fuel);
    var c1 := EmitStmt(s.init, x, c);
    StmtRunsTo(w, p, l, s.init, x, c, stack, env, tr, fuel);
    if o.Normal? {
      var r := Eval(w, s.cond, o.env, o.trace);
      if r.Fine? && r.v.Bool? {
        BoolJumps(w, p, l, s.cond, false, lab, c1, stack, o.env, o.trace);
        ReachesThrough(w, p, l, At(|c.prog|, stack, env, tr), At(|c1.prog|, stack, o.env, o.trace),
                       At(if r.v.b then |EmitBoolExpr(s.cond, true, false, lab, c1).prog| else l[lab], stack, o.env,
                          r.trace));
      }
    }
  }

  lemma {:induction false} IfRuns(w: World, p: seq<Instr>, l: seq<int>, s: Stmt, x: Context, c: Code,
                                  stack: seq<Value>, env: Locals, tr: seq<nat>, fuel: nat)
    requires Ready(p, l, s, x, c, stack) && s.If?
    ensures Ends(w, p, l, x.scopes, At(|c.prog|, stack, env, tr), |EmitStmt(s, x, c).prog|, stack,
                 Exec(w, Emitted, s, env, tr, fuel))
    decreases fuel, s, 2
  {
    hide Reaches, Target, Above, Frames, Within, ContextOk, NewLabels, EmitBoolExpr, Eval, Ends;
    var d := EmitIf(s, x, c);
    var c0 := NewLabels(c, 3);
    var c1 := EmitStmt(s.init, x, c0);
    var c2 := EmitBoolExpr(s.cond, true, false, |c.l| + 1, c1);
    var c2' := SetLabel(c2, |c.l|);
    var c3 := EmitStmt(s.body, x, c2');
    var start := At(|c.prog|, stack, env, tr);
    ContextGrows(x, |c.l|, |c0.l|);
    ContextGrows(x, |c.l|, |c2'.l|);
    SimpleOutcome(w, s.init, env, tr, fuel);
    var o := Exec(w, Emitted, s.init, env, tr, fuel);
    if s.otherwise.None? {
      IfPlaced(p, l, c, c0, c1, c2, c3);
    } else {
      var c4 := SetLabel(Op(c3, Jump(Always, |c.l| + 2)), |c.l| + 1);
      IfElsePlaced(p, l, c, c0, c1, c2, c3, c4, EmitStmt(s.otherwise.value, x, c4));
    }
    ConditionRuns(w, p, l, s, x, c0, |c.l| + 1, stack, env, tr, fuel);
    if o.Stuck? {
      NothingToShow(w, p, l, x.scopes, start, |d.prog|, stack, o);
    } else {
      var r := Eval(w, s.cond, o.env, o.trace);
      if !(r.Fine? && r.v.Bool?) {
        NothingToShow(w, p, l, x.scopes, start, |d.prog|, stack, Stuck);
      } else if r.v.b {
        var q := Exec(w, Emitted, s.body, o.env, r.trace, fuel);
        StmtRunsTo(w, p, l, s.body, x, c2', stack, o.env, r.trace, fuel);
        EndsAfter(w, p, l, x.scopes, start, At(|c2'.prog|, stack, o.env, r.trace), |c3.prog|, stack, q);
        if s.otherwise.Some? { EndsSkipping(w, p, l, x.scopes, start, c3, |c.l| + 2, stack, q); }
      } else if s.otherwise.None? {
        NormalEnd(w, p, l, x.scopes, start, |d.prog|, stack, Normal(o.env, r.trace));
      } else {
        var c4 := SetLabel(Op(c3, Jump(Always, |c.l| + 2)), |c.l| + 1);
        ContextGrows(x, |c.l|, |c4.l|);
        StmtRunsTo(w, p, l, s.otherwise.value, x, c4, stack, o.env, r.trace, fuel);
        EndsAfter(w, p, l, x.scopes, start, At(|c4.prog|, stack, o.env, r.trace), |d.prog|, stack,
                  Exec(w, Emitted, s.otherwise.value, o.env, r.trace, fuel));
      }
    }
  }

  lemma NothingToShow(w: World, p: seq<Instr>, l: seq<int>, scopes: seq<Scope>, k: Conf, pc: int, stack: seq<Value>,
                      out: Outcome)
    requires Above(scopes, -1) <= |stack| && (out.Stuck? || out.OutOfFuel?)
    ensures Ends(w, p, l, scopes, k, pc, stack, out)
  {}

  lemma NormalEnd(w: World, p: seq<Instr>, l: seq<int>, scopes: seq<Scope>, k: Conf, pc: int, stack: seq<Value>,
                  out: Outcome)
    requires Above(scopes, -1) <= |stack| && out.Normal? && Reaches(w, p, l, k, At(pc, stack, out.env, out.trace))
    ensures Ends(w, p, l, scopes, k, pc, stack, out)
  {}

  /** A jump after a statement: only its normal end takes it. */
  lemma EndsSkipping(w: World, p: seq<Instr>, l: seq<int>, scopes: seq<Scope>, k: Conf, c: Code, lab: nat,
                     stack: seq<Value>, out: Outcome)
    requires Ends(w, p, l, scopes, k, |c.prog|, stack, out) && Op(c, Jump(Always, lab)).prog <= p && lab < |l|
    ensures Ends(w, p, l, scopes, k, l[lab], stack, out)
  {
    hide Reaches, Target, Above, Frames;
    if out.Normal? {
      JumpAlways(w, p, l, k, c, lab, At(|c.prog|, stack, out.env, out.trace));
    } else {
      ElsewhereEnds(w, p, l, scopes, k, |c.prog|, l[lab], stack, out);
    }
  }

  // ----- for -----

  lemma DropNothing(c: Code)
    ensures DropItems(0, c) == c
  {}

  /** Initialisers do not depend on the open constructs. */
  lemma {:induction false} SimpleEmission(s: Stmt, x: Context, y: Context, c: Code)
    requires Simple(s)
    ensures EmitStmt(s, x, c) == EmitStmt(s, y, c)
  {}

  /** The labels of a loop: its head, its post part and its end. */
  lemma {:induction false} LoopLabels(p: seq<Instr>, l: seq<int>, c: Code, h: Code, b: Code, q: Code, t: Code)
    requires |c.l| + 3 <= |h.l| && Extends(SetLabel(h, |c.l|), b) && |h.l| <= |b.l|
    requires Extends(SetLabel(b, |c.l| + 2), q) && |b.l| <= |q.l| && t.l == q.l
    requires Within(p, l, c, SetLabel(t, |c.l| + 1))
    ensures |c.l| + 2 < |l| && l[|c.l|] == |h.prog| && l[|c.l| + 1] == |t.prog| && l[|c.l| + 2] == |b.prog|
  {}

  lemma {:induction false} ForPlaced(p: seq<Instr>, l: seq<int>, c: Code, c0: Code, i: Code, g: Code, b: Code, q: Code)
    requires c0.prog == c.prog && |c0.l| == |c.l| + 3 && Extends(c0, i) && Extends(SetLabel(i, |c.l|), g) &&
             Extends(g, b)
    requires Extends(SetLabel(b, |c.l| + 2), q)
    requires Within(p, l, c, SetLabel(Op(q, Jump(Always, |c.l|)), |c.l| + 1))
    ensures Within(p, l, c0, i) && Within(p, l, SetLabel(i, |c.l|), g) && Within(p, l, g, b)
    ensures Within(p, l, SetLabel(b, |c.l| + 2), q) && Op(q, Jump(Always, |c.l|)).prog <= p
  {}

  /** Where the parts of a for loop are. */
  ghost predicate ForParts(p: seq<Instr>, l: seq<int>, s: Stmt, x: Context, c: Code, h: Code, g: Code, b: Code, q: Code,
                           d: Code) {
    && s.For? && |c.l| + 2 < |l|
    && var sc := LoopScope(s.lbl, 0, c);
    && g == EmitGuard(s.guard, sc.end, h) && b == EmitStmt(s.body, Inside(x, sc), g)
    && sc.post < |b.l| && q == EmitStmt(s.post, Inside(x, sc), SetLabel(b, sc.post))
    && |c.l| + 3 <= |g.l|
    && Within(p, l, h, g) && Within(p, l, g, b) && Within(p, l, SetLabel(b, sc.post), q)
    && Op(q, Jump(Always, |c.l|)).prog <= p
    && l[|c.l|] == |h.prog| && l[sc.end] == |d.prog| && l[sc.post] == |b.prog|
  }

  lemma {:induction false} ForRuns(w: World, p: seq<Instr>, l: seq<int>, s: Stmt, x: Context, c: Code,
                                   stack: seq<Value>, env: Locals, tr: seq<nat>, fuel: nat)
    requires Ready(p, l, s, x, c, stack) && s.For?
    ensures Ends(w, p, l, x.scopes, At(|c.prog|, stack, env, tr), |EmitStmt(s, x, c).prog|, stack,
                 Exec(w, Emitted, s, env, tr, fuel))
    decreases fuel, s, 2
  {
    hide Reaches, Target, Above, Frames, Within, ContextOk, NewLabels, DropItems, EmitGuard, Ends;
    var sc := LoopScope(s.lbl, 0, c);
    var c0 := NewLabels(c, 3);
    var i := EmitStmt(s.init, x, c0);
    SimpleEmission(s.init, x, x.(currentFor := sc.name, currentSwitch := sc.name), c0);
    var h := SetLabel(i, |c.l|);
    var g := EmitGuard(s.guard, sc.end, h);
    var b := EmitStmt(s.body, Inside(x, sc), g);
    var q := EmitStmt(s.post, Inside(x, sc), SetLabel(b, sc.post));
    var t := Op(q, Jump(Always, |c.l|));
    var d := SetLabel(t, sc.end);
    DropNothing(d);
    assert EmitStmt(s, x, c) == d;
    ForPlaced(p, l, c, c0, i, g, b, q);
    LoopLabels(p, l, c, i, b, q, t);
    ContextGrows(x, |c.l|, |c0.l|);
    var start := At(|c.prog|, stack, env, tr);
    StmtRunsTo(w, p, l, s.init, x, c0, stack, env, tr, fuel);
    SimpleOutcome(w, s.init, env, tr, fuel);
    var o := Exec(w, Emitted, s.init, env, tr, fuel);
    if o.Normal? {
      ForLoops(w, p, l, s, x, c, h, g, b, q, d, stack, o.env, o.trace, fuel);
      EndsNormally(w, p, l, x.scopes, start, |i.prog|, stack, o);
      EndsAfter(w, p, l, x.scopes, start, At(|h.prog|, stack, o.env, o.trace), |d.prog|, stack,
                ExecFor(w, Emitted, s, o.env, o.trace, fuel));
    } else {
      NothingToShow(w, p, l, x.scopes, start, |d.prog|, stack, o);
    }
  }

  lemma EndsNormally(w: World, p: seq<Instr>, l: seq<int>, scopes: seq<Scope>, k: Conf, pc: int, stack: seq<Value>,
                     out: Outcome)
    requires Ends(w, p, l, scopes, k, pc, stack, out) && out.Normal?
    ensures Reaches(w, p, l, k, At(pc, stack, out.env, out.trace))
  {}

  /** The condition of a for loop. */
  lemma GuardRuns(w: World, p: seq<Instr>, l: seq<int>, guard: Option<Expr>, end: nat, h: Code,
                  stack: seq<Value>, env: Locals, tr: seq<nat>)
    requires Within(p, l, h, EmitGuard(guard, end, h)) && end < |l|
    requires GuardValue(w, guard, env, tr).Fine? && GuardValue(w, guard, env, tr).v.Bool?
    ensures var r := GuardValue(w, guard, env, tr);
            Reaches(w, p, l, At(|h.prog|, stack, env, tr),
                    At(if r.v.b then |EmitGuard(guard, end, h).prog| else l[end], stack, env, r.trace))
  {
    hide Reaches, Walk, Eval, Within;
    if guard.None? {
      ReachesItself(w, p, l, At(|h.prog|, stack, env, tr));
    } else {
      var m := Walk(guard.value, h);
      PeelOp(p, l, h, m, Jump(IfFalse, end));
      WalkRuns(w, p, l, guard.value, h, stack, env, tr);
      JumpRuns(w, p, l, h, m, Eval(w, guard.value, env, tr), false, end, stack, env, tr);
    }
  }

  /** The loop from its condition on, by induction on the fuel. */
  lemma {:induction false} ForLoops(w: World, p: seq<Instr>, l: seq<int>, s: Stmt, x: Context, c: Code,
                                    h: Code, g: Code, b: Code, q: Code, d: Code,
                                    stack: seq<Value>, env: Locals, tr: seq<nat>, fuel: nat)
    requires ForParts(p, l, s, x, c, h, g, b, q, d)
    requires ContextOk(x, |c.l|) && Legal(s, Frames(x.scopes)) && Above(x.scopes, -1) <= |stack|
    ensures Ends(w, p, l, x.scopes, At(|h.prog|, stack, env, tr), |d.prog|, stack,
                 ExecFor(w, Emitted, s, env, tr, fuel))
    decreases fuel, s, 1
  {
    hide Reaches, Target, Above, Frames, Within, ContextOk, EmitStmt, EmitGuard, Ends, Exec, Eval;
    var k := At(|h.prog|, stack, env, tr);
    var sc := LoopScope(s.lbl, 0, c);
    var r := GuardValue(w, s.guard, env, tr);
    if fuel == 0 || !(r.Fine? && r.v.Bool?) {
      NothingToShow(w, p, l, x.scopes, k, |d.prog|, stack, ExecFor(w, Emitted, s, env, tr, fuel));
    } else {
      GuardRuns(w, p, l, s.guard, sc.end, h, stack, env, tr);
      if !r.v.b {
        NormalEnd(w, p, l, x.scopes, k, |d.prog|, stack, ExecFor(w, Emitted, s, env, tr, fuel));
      } else {
        var o := Exec(w, Emitted, s.body, env, r.trace, fuel - 1);
        ForBody(w, p, l, s, x, c, h, g, b, q, d, stack, env, r.trace, fuel);
        EndsAfter(w, p, l, x.scopes + [sc], k, At(|g.prog|, stack, env, r.trace), |b.prog|, stack, o);
        EndsOwn(w, p, l, x.scopes, sc, k, |b.prog|, stack, o);
        if GoesOn(o, s.lbl) {
          if o.Normal? { EndsNormally(w, p, l, x.scopes + [sc], k, |b.prog|, stack, o); }
          ForPost(w, p, l, s, x, c, h, g, b, q, d, stack, o.env, o.trace, fuel);
          var z := Exec(w, Emitted, s.post, o.env, o.trace, fuel - 1);
          if z.Normal? {
            ForLoops(w, p, l, s, x, c, h, g, b, q, d, stack, z.env, z.trace, fuel - 1);
            ReachesThrough(w, p, l, k, At(|b.prog|, stack, o.env, o.trace), At(|h.prog|, stack, z.env, z.trace));
            EndsAfter(w, p, l, x.scopes, k, At(|h.prog|, stack, z.env, z.trace), |d.prog|, stack,
                      ExecFor(w, Emitted, s, env, tr, fuel));
          } else {
            NothingToShow(w, p, l, x.scopes, k, |d.prog|, stack, z);
          }
        } else if o.Broke? && Concerns(o.name, s.lbl) {
          NormalEnd(w, p, l, x.scopes, k, |d.prog|, stack, Caught(o, s.lbl));
        } else {
          assert stack + [] == stack;
          EndsOutside(w, p, l, x.scopes, sc, k, |b.prog|, |d.prog|, stack, [], o);
        }
      }
    }
  }

  lemma {:induction false} ForBody(w: World, p: seq<Instr>, l: seq<int>, s: Stmt, x: Context, c: Code,
                                   h: Code, g: Code, b: Code, q: Code, d: Code,
                                   stack: seq<Value>, env: Locals, tr: seq<nat>, fuel: nat)
    requires ForParts(p, l, s, x, c, h, g, b, q, d) && fuel > 0
    requires ContextOk(x, |c.l|) && Legal(s, Frames(x.scopes)) && Above(x.scopes, -1) <= |stack|
    ensures Ends(w, p, l, x.scopes + [LoopScope(s.lbl, 0, c)], At(|g.prog|, stack, env, tr), |b.prog|, stack,
                 Exec(w, Emitted, s.body, env, tr, fuel - 1))
    decreases fuel, s, 0
  {
    hide Reaches, Target, Above, Frames, Within, ContextOk, EmitStmt, EmitGuard, Ends, Exec;
    var sc := LoopScope(s.lbl, 0, c);
    LoopInside(x, s.lbl, 0, c, |g.l|);
    AboveInside(x.scopes, sc, -1);
    StmtRunsTo(w, p, l, s.body, Inside(x, sc), g, stack, env, tr, fuel - 1);
  }

  /** The post statement and the jump back to the condition. */
  lemma {:induction false} ForPost(w: World, p: seq<Instr>, l: seq<int>, s: Stmt, x: Context, c: Code,
                                   h: Code, g: Code, b: Code, q: Code, d: Code,
                                   stack: seq<Value>, env: Locals, tr: seq<nat>, fuel: nat)
    requires ForParts(p, l, s, x, c, h, g, b, q, d) && fuel > 0
    requires ContextOk(x, |c.l|) && Legal(s, Frames(x.scopes)) && Above(x.scopes, -1) <= |stack|
    ensures var z := Exec(w, Emitted, s.post, env, tr, fuel - 1);
            z.Stuck? || (z.Normal? && Reaches(w, p, l, At(|b.prog|, stack, env, tr),
                                              At(|h.prog|, stack, z.env, z.trace)))
    decreases fuel, s, 0
  {
    hide Reaches, Target, Above, Frames, Within, ContextOk, EmitGuard, Ends, Exec;
    var sc := LoopScope(s.lbl, 0, c);
    var b' := SetLabel(b, sc.post);
    var z := Exec(w, Emitted, s.post, env, tr, fuel - 1);
    SimpleOutcome(w, s.post, env, tr, fuel - 1);
    SimpleEmission(s.post, x, Inside(x, sc), b');
    Sizes(g, b);
    ContextGrows(x, |c.l|, |b'.l|);
    StmtRunsTo(w, p, l, s.post, x, b', stack, env, tr, fuel - 1);
    if z.Normal? {
      EndsNormally(w, p, l, x.scopes, At(|b.prog|, stack, env, tr), |q.prog|, stack, z);
      JumpAlways(w, p, l, At(|b.prog|, stack, env, tr), q, |c.l|, At(|q.prog|, stack, z.env, z.trace));
    }
  }

  // ----- range -----

  /** What a range loop keeps on the stack. */
  function Temps(elems: seq<Value>, i: int): seq<Value> { [Arr(elems), Int(|elems|), Int(i)] }

  lemma RangeSetup(w: World, p: seq<Instr>, l: seq<int>, c: Code, elems: seq<Value>, stack: seq<Value>, env: Locals,
                   tr: seq<nat>)
    requires Ops(c, [Dup, Size, Push(0)]).prog <= p
    ensures Reaches(w, p, l, At(|c.prog|, stack + [Arr(elems)], env, tr),
                    At(|c.prog| + 3, stack + Temps(elems, 0), env, tr))
  {
    hide Reaches;
    var code := [Dup, Size, Push(0)];
    var a := Arr(elems);
    var k0 := At(|c.prog|, stack + [a], env, tr);
    ReachesItself(w, p, l, k0);
    ThenNth(w, p, l, k0, c, code, 0, k0);
    assert k0.stack[..|k0.stack| - 0] + [a] == stack + [a, a];
    var k1 := At(|c.prog| + 1, stack + [a, a], env, tr);
    ThenNth(w, p, l, k0, c, code, 1, k1);
    assert k1.stack[..|k1.stack| - 1] + [Int(|elems|)] == stack + [a, Int(|elems|)];
    var k2 := At(|c.prog| + 2, stack + [a, Int(|elems|)], env, tr);
    ThenNth(w, p, l, k0, c, code, 2, k2);
    assert k2.stack[..|k2.stack| - 0] + [Int(0)] == stack + Temps(elems, 0);
  }

  lemma RangeHead(w: World, p: seq<Instr>, l: seq<int>, c: Code, end: nat, elems: seq<Value>, i: nat,
                  stack: seq<Value>, env: Locals, tr: seq<nat>)
    requires Ops(c, [Over, Over, Jump(Compared(Le), end)]).prog <= p && end < |l|
    ensures Reaches(w, p, l, At(|c.prog|, stack + Temps(elems, i), env, tr),
                    At(if |elems| <= i then l[end] else |c.prog| + 3, stack + Temps(elems, i), env, tr))
  {
    hide Reaches;
    var code := [Over, Over, Jump(Compared(Le), end)];
    var base := stack + Temps(elems, i);
    var k0 := At(|c.prog|, base, env, tr);
    ReachesItself(w, p, l, k0);
    ThenNth(w, p, l, k0, c, code, 0, k0);
    assert k0.stack[..|k0.stack| - 0] + [Int(|elems|)] == base + [Int(|elems|)];
    var k1 := At(|c.prog| + 1, base + [Int(|elems|)], env, tr);
    ThenNth(w, p, l, k0, c, code, 1, k1);
    assert k1.stack[..|k1.stack| - 0] + [Int(i)] == base + [Int(|elems|), Int(i)];
    var k2 := At(|c.prog| + 2, base + [Int(|elems|), Int(i)], env, tr);
    ThenNth(w, p, l, k0, c, code, 2, k2);
    assert k2.stack[..|k2.stack| - 2] == base;
  }

  lemma KeyRuns(w: World, p: seq<Instr>, l: seq<int>, key: Option<nat>, c: Code, elems: seq<Value>, i: nat,
                stack: seq<Value>, env: Locals, tr: seq<nat>)
    requires EmitKey(key, c).prog <= p
    ensures Reaches(w, p, l, At(|c.prog|, stack + Temps(elems, i), env, tr),
                    At(|EmitKey(key, c).prog|, stack + Temps(elems, i), Bind(key, Int(i), env), tr))
  {
    hide Reaches;
    var base := stack + Temps(elems, i);
    var k0 := At(|c.prog|, base, env, tr);
    ReachesItself(w, p, l, k0);
    if key.Some? {
      var code := [Dup, Store(key.value)];
      ThenNth(w, p, l, k0, c, code, 0, k0);
      assert k0.stack[..|k0.stack| - 0] + [Int(i)] == base + [Int(i)];
      var k1 := At(|c.prog| + 1, base + [Int(i)], env, tr);
      ThenNth(w, p, l, k0, c, code, 1, k1);
      assert k1.stack[..|k1.stack| - 1] == base;
    }
  }

  lemma ValueRuns(w: World, p: seq<Instr>, l: seq<int>, val: Option<nat>, c: Code, elems: seq<Value>, i: nat,
                  stack: seq<Value>, env: Locals, tr: seq<nat>)
    requires EmitValue(val, c).prog <= p && i < |elems|
    ensures Reaches(w, p, l, At(|c.prog|, stack + Temps(elems, i), env, tr),
                    At(|EmitValue(val, c).prog|, stack + Temps(elems, i), Bind(val, elems[i], env), tr))
  {
    hide Reaches;
    var base := stack + Temps(elems, i);
    var k0 := At(|c.prog|, base, env, tr);
    ReachesItself(w, p, l, k0);
    if val.Some? {
      var code := [Push(2), Pick, Over, PickItem, Store(val.value)];
      PickElement(w, p, l, c, code, k0, elems, i, stack);
      var k3 := At(|c.prog| + 3, base + [Arr(elems), Int(i)], env, tr);
      ThenNth(w, p, l, k0, c, code, 3, k3);
      assert k3.stack[..|k3.stack| - 2] + [elems[i]] == base + [elems[i]];
      var k4 := At(|c.prog| + 4, base + [elems[i]], env, tr);
      ThenNth(w, p, l, k0, c, code, 4, k4);
      assert k4.stack[..|k4.stack| - 1] == base;
    }
  }

  lemma PickElement(w: World, p: seq<Instr>, l: seq<int>, c: Code, code: seq<Instr>, k0: Conf,
                    elems: seq<Value>, i: nat, stack: seq<Value>)
    requires |code| == 5 && code[..3] == [Push(2), Pick, Over] && Ops(c, code).prog <= p
    requires k0.At? && k0.pc == |c.prog| && k0.stack == stack + Temps(elems, i)
    ensures Reaches(w, p, l, k0, k0.(pc := |c.prog| + 3, stack := stack + Temps(elems, i) + [Arr(elems), Int(i)]))
  {
    hide Reaches;
    var base := stack + Temps(elems, i);
    assert code[0] == code[..3][0] == Push(2) && code[1] == code[..3][1] == Pick && code[2] == code[..3][2] == Over;
    ReachesItself(w, p, l, k0);
    ThenNth(w, p, l, k0, c, code, 0, k0);
    assert k0.stack[..|k0.stack| - 0] + [Int(2)] == base + [Int(2)];
    var k1 := k0.(pc := |c.prog| + 1, stack := base + [Int(2)]);
    ThenNth(w, p, l, k0, c, code, 1, k1);
    assert k1.stack[..|k1.stack| - 1] + [Arr(elems)] == base + [Arr(elems)];
    var k2 := k0.(pc := |c.prog| + 2, stack := base + [Arr(elems)]);
    ThenNth(w, p, l, k0, c, code, 2, k2);
    assert k2.stack[..|k2.stack| - 0] + [Int(i)] == base + [Arr(elems), Int(i)];
  }

  lemma RangeNext(w: World, p: seq<Instr>, l: seq<int>, c: Code, start: nat, elems: seq<Value>, i: nat,
                  stack: seq<Value>, env: Locals, tr: seq<nat>)
    requires Ops(c, [Inc, Jump(Always, start)]).prog <= p && start < |l| && IsInt256(i + 1)
    ensures Reaches(w, p, l, At(|c.prog|, stack + Temps(elems, i), env, tr),
                    At(l[start], stack + Temps(elems, i + 1), env, tr))
  {
    hide Reaches;
    var code := [Inc, Jump(Always, start)];
    var k0 := At(|c.prog|, stack + Temps(elems, i), env, tr);
    ReachesItself(w, p, l, k0);
    ThenNth(w, p, l, k0, c, code, 0, k0);
    assert k0.stack[..|k0.stack| - 1] + [Int(i + 1)] == stack + Temps(elems, i + 1);
    var k1 := At(|c.prog| + 1, stack + Temps(elems, i + 1), env, tr);
    ThenNth(w, p, l, k0, c, code, 1, k1);
    assert k1.stack[..|k1.stack| - 0] == k1.stack;
  }

  /** Leaving the loop drops its three temporaries. */
  lemma RangeEnd(w: World, p: seq<Instr>, l: seq<int>, scopes: seq<Scope>, k: Conf, e: Code, elems: seq<Value>, i: int,
                 stack: seq<Value>, out: Outcome)
    requires DropItems(3, e).prog <= p && out.Normal? && Above(scopes, -1) <= |stack|
    requires Reaches(w, p, l, k, At(|e.prog|, stack + Temps(elems, i), out.env, out.trace))
    ensures Ends(w, p, l, scopes, k, |DropItems(3, e).prog|, stack, out)
  {
    hide Reaches, DropItems;
    var temps := stack + Temps(elems, i);
    DropItemsRuns(w, p, l, e, 3, temps, out.env, out.trace);
    assert temps[..|temps| - 3] == stack;
    ReachesThrough(w, p, l, k, At(|e.prog|, temps, out.env, out.trace),
                   At(|DropItems(3, e).prog|, stack, out.env, out.trace));
  }

  /** Where the parts of a range loop are. */
  ghost predicate RangeParts(p: seq<Instr>, l: seq<int>, s: Stmt, x: Context, c: Code, h: Code, t: Code, g: Code,
                             b: Code, q: Code) {
    && s.Range? && |c.l| + 3 <= |g.l| && |c.l| + 3 <= |b.l| && |b.l| <= |q.l| && |c.l| + 2 < |l|
    && var sc := LoopScope(s.lbl, 3, c);
    && t == Ops(h, [Over, Over, Jump(Compared(Le), sc.end)]) && t.prog <= p
    && EmitKey(s.key, t).prog <= p && g == EmitValue(s.val, EmitKey(s.key, t)) && g.prog <= p
    && b == EmitStmt(s.body, Inside(x, sc), g) && Within(p, l, g, b)
    && q == Ops(SetLabel(b, sc.post), [Inc, Jump(Always, |c.l|)]) && q.prog <= p
    && DropItems(3, SetLabel(q, sc.end)).prog <= p
    && l[|c.l|] == |h.prog| && l[sc.end] == |q.prog| && l[sc.post] == |b.prog|
  }

  /** One pass up to the body: the test and the assignments of key and value. */
  lemma RangeEnters(w: World, p: seq<Instr>, l: seq<int>, s: Stmt, x: Context, c: Code, h: Code, t: Code, g: Code,
                    b: Code, q: Code, elems: seq<Value>, i: nat, stack: seq<Value>, env: Locals, tr: seq<nat>)
    requires RangeParts(p, l, s, x, c, h, t, g, b, q) && i < |elems|
    ensures Reaches(w, p, l, At(|h.prog|, stack + Temps(elems, i), env, tr),
                    At(|g.prog|, stack + Temps(elems, i), Bind(s.val, elems[i], Bind(s.key, Int(i), env)), tr))
  {
    hide Reaches, EmitKey, EmitValue, EmitStmt, Within, DropItems, Temps, Bind;
    var k0 := At(|h.prog|, stack + Temps(elems, i), env, tr);
    RangeHead(w, p, l, h, |c.l| + 1, elems, i, stack, env, tr);
    KeyRuns(w, p, l, s.key, t, elems, i, stack, env, tr);
    ValueRuns(w, p, l, s.val, EmitKey(s.key, t), elems, i, stack, Bind(s.key, Int(i), env), tr);
    ReachesThrough(w, p, l, k0, At(|t.prog|, stack + Temps(elems, i), env, tr),
                   At(|EmitKey(s.key, t).prog|, stack + Temps(elems, i), Bind(s.key, Int(i), env), tr));
    ReachesThrough(w, p, l, k0, At(|EmitKey(s.key, t).prog|, stack + Temps(elems, i), Bind(s.key, Int(i), env), tr),
                   At(|g.prog|, stack + Temps(elems, i), Bind(s.val, elems[i], Bind(s.key, Int(i), env)), tr));
  }

  lemma {:induction false} RangeBody(w: World, p: seq<Instr>, l: seq<int>, s: Stmt, x: Context, c: Code,
                                     h: Code, t: Code, g: Code, b: Code, q: Code,
                                     temps: seq<Value>, stack: seq<Value>, env: Locals, tr: seq<nat>, fuel: nat)
    requires RangeParts(p, l, s, x, c, h, t, g, b, q) && |temps| == 3
    requires ContextOk(x, |c.l|) && Legal(s, Frames(x.scopes)) && Above(x.scopes, -1) <= |stack|
    ensures Ends(w, p, l, x.scopes + [LoopScope(s.lbl, 3, c)], At(|g.prog|, stack + temps, env, tr), |b.prog|,
                 stack + temps, Exec(w, Emitted, s.body, env, tr, fuel))
    decreases fuel, s, 0, 0
  {
    hide Reaches, Target, Above, Frames, Within, ContextOk, EmitStmt, EmitKey, EmitValue, Ends, Exec, DropItems;
    var sc := LoopScope(s.lbl, 3, c);
    LoopInside(x, s.lbl, 3, c, |g.l|);
    AboveInside(x.scopes, sc, -1);
    StmtRunsTo(w, p, l, s.body, Inside(x, sc), g, stack + temps, env, tr, fuel);
  }

  /** The loop from element i on. */
  lemma {:induction false} RangeLoops(w: World, p: seq<Instr>, l: seq<int>, s: Stmt, x: Context, c: Code,
                                      h: Code, t: Code, g: Code, b: Code, q: Code, elems: seq<Value>, i: nat,
                                      stack: seq<Value>, env: Locals, tr: seq<nat>, fuel: nat)
    requires RangeParts(p, l, s, x, c, h, t, g, b, q) && i <= |elems| && IsInt256(|elems|)
    requires ContextOk(x, |c.l|) && Legal(s, Frames(x.scopes)) && Above(x.scopes, -1) <= |stack|
    ensures Ends(w, p, l, x.scopes, At(|h.prog|, stack + Temps(elems, i), env, tr),
                 |DropItems(3, SetLabel(q, |c.l| + 1)).prog|, stack, ExecRange(w, Emitted, s, elems, i, env, tr, fuel))
    decreases fuel, s, 1, |elems| - i
  {
    hide Reaches, Target, Above, Frames, Within, ContextOk, EmitStmt, EmitKey, EmitValue, Ends, Exec, DropItems, Legal,
         Bind;
    var k := At(|h.prog|, stack + Temps(elems, i), env, tr);
    var sc := LoopScope(s.lbl, 3, c);
    var e := SetLabel(q, |c.l| + 1);
    var d := DropItems(3, e);
    if i == |elems| {
      RangeHead(w, p, l, h, |c.l| + 1, elems, i, stack, env, tr);
      RangeEnd(w, p, l, x.scopes, k, e, elems, i, stack, Normal(env, tr));
    } else {
      var env' := Bind(s.val, elems[i], Bind(s.key, Int(i), env));
      var o := Exec(w, Emitted, s.body, env', tr, fuel);
      RangeEnters(w, p, l, s, x, c, h, t, g, b, q, elems, i, stack, env, tr);
      RangeBody(w, p, l, s, x, c, h, t, g, b, q, Temps(elems, i), stack, env', tr, fuel);
      EndsAfter(w, p, l, x.scopes + [sc], k, At(|g.prog|, stack + Temps(elems, i), env', tr), |b.prog|,
                stack + Temps(elems, i), o);
      EndsOwn(w, p, l, x.scopes, sc, k, |b.prog|, stack + Temps(elems, i), o);
      if GoesOn(o, s.lbl) {
        if o.Normal? { EndsNormally(w, p, l, x.scopes + [sc], k, |b.prog|, stack + Temps(elems, i), o); }
        RangeNext(w, p, l, SetLabel(b, sc.post), |c.l|, elems, i, stack, o.env, o.trace);
        ReachesThrough(w, p, l, k, At(|b.prog|, stack + Temps(elems, i), o.env, o.trace),
                       At(|h.prog|, stack + Temps(elems, i + 1), o.env, o.trace));
        RangeLoops(w, p, l, s, x, c, h, t, g, b, q, elems, i + 1, stack, o.env, o.trace, fuel);
        EndsAfter(w, p, l, x.scopes, k, At(|h.prog|, stack + Temps(elems, i + 1), o.env, o.trace), |d.prog|, stack,
                  ExecRange(w, Emitted, s, elems, i + 1, o.env, o.trace, fuel));
      } else if o.Broke? && Concerns(o.name, s.lbl) {
        RangeEnd(w, p, l, x.scopes, k, e, elems, i, stack, Caught(o, s.lbl));
      } else {
        EndsOutside(w, p, l, x.scopes, sc, k, |b.prog|, |d.prog|, stack, Temps(elems, i), o);
      }
    }
  }

  lemma {:induction false} RangePlaced(p: seq<Instr>, l: seq<int>, c: Code, c0: Code, v: Code, t: Code, g: Code,
                                       b: Code, q: Code, d: Code)
    requires c0.prog == c.prog && |c0.l| == |c.l| + 3 && Extends(c0, v)
    requires t == Ops(SetLabel(Ops(v, [Dup, Size, Push(0)]), |c.l|), [Over, Over, Jump(Compared(Le), |c.l| + 1)])
    requires Extends(t, g) && Extends(g, b)
    requires q == Ops(SetLabel(b, |c.l| + 2), [Inc, Jump(Always, |c.l|)])
    requires Extends(SetLabel(q, |c.l| + 1), d) && Within(p, l, c, d)
    ensures Within(p, l, c0, v) && Ops(v, [Dup, Size, Push(0)]).prog <= p
    ensures t.prog <= p && g.prog <= p && Within(p, l, g, b) && q.prog <= p && d.prog <= p
    ensures Within(p, l, c, SetLabel(q, |c.l| + 1))
  {}

  lemma {:induction false} RangeRuns(w: World, p: seq<Instr>, l: seq<int>, s: Stmt, x: Context, c: Code,
                                     stack: seq<Value>, env: Locals, tr: seq<nat>, fuel: nat)
    requires Ready(p, l, s, x, c, stack) && s.Range?
    ensures Ends(w, p, l, x.scopes, At(|c.prog|, stack, env, tr), |EmitStmt(s, x, c).prog|, stack,
                 Exec(w, Emitted, s, env, tr, fuel))
    decreases fuel, s, 2
  {
    hide Reaches, Target, Above, Frames, Within, ContextOk, NewLabels, DropItems, EmitKey, EmitValue, Ends, Walk, Eval,
         Temps;
    var sc := LoopScope(s.lbl, 3, c);
    var c0 := NewLabels(c, 3);
    var v := Walk(s.over, c0);
    var i := Ops(v, [Dup, Size, Push(0)]);
    var h := SetLabel(i, |c.l|);
    var t := Ops(h, [Over, Over, Jump(Compared(Le), sc.end)]);
    BindingsExtend(s.key, s.val, t);
    var g := EmitValue(s.val, EmitKey(s.key, t));
    var b := EmitStmt(s.body, Inside(x, sc), g);
    var q := Ops(SetLabel(b, sc.post), [Inc, Jump(Always, |c.l|)]);
    var d := DropItems(3, SetLabel(q, sc.end));
    assert EmitStmt(s, x, c) == d;
    RangePlaced(p, l, c, c0, v, t, g, b, q, d);
    LoopLabels(p, l, c, i, b, q, q);
    var start := At(|c.prog|, stack, env, tr);
    var r := Eval(w, s.over, env, tr);
    if r.Fine? && r.v.Arr? && IsInt256(|r.v.elems|) {
      WalkRuns(w, p, l, s.over, c0, stack, env, tr);
      RangeSetup(w, p, l, v, r.v.elems, stack, env, r.trace);
      ReachesThrough(w, p, l, start, At(|v.prog|, stack + [r.v], env, r.trace),
                     At(|h.prog|, stack + Temps(r.v.elems, 0), env, r.trace));
      RangeLoops(w, p, l, s, x, c, h, t, g, b, q, r.v.elems, 0, stack, env, r.trace, fuel);
      EndsAfter(w, p, l, x.scopes, start, At(|h.prog|, stack + Temps(r.v.elems, 0), env, r.trace), |d.prog|, stack,
                ExecRange(w, Emitted, s, r.v.elems, 0, env, r.trace, fuel));
    } else {
      NothingToShow(w, p, l, x.scopes, start, |d.prog|, stack, Stuck);
    }
  }

  // ----- switch -----

  /** Whether a case value equals the tag; -1 if the two cannot be compared. */
  function CaseEqual(numeric: bool, v: Value, r: Value): int {
    if numeric && v.Int? && r.Int? then if v.n == r.n then 1 else 0
    else if !numeric && v.Bool? && r.Bool? then if v.b == r.b then 1 else 0
    else -1
  }

  /** The comparison of one case with the tag, which stays on the stack. */
  lemma CaseRuns(w: World, p: seq<Instr>, l: seq<int>, e: Expr, numeric: bool, cond: bool, lab: nat, c: Code,
                 stack: seq<Value>, v: Value, env: Locals, tr: seq<nat>)
    requires Within(p, l, c, Op(Op(Walk(e, Op(c, Dup)), EqualOp(numeric)),
                                Jump(if cond then IfTrue else IfFalse, lab))) && lab < |l|
    requires Eval(w, e, env, tr).Fine? && CaseEqual(numeric, v, Eval(w, e, env, tr).v) >= 0
    ensures var r := Eval(w, e, env, tr);
            var d := Op(Op(Walk(e, Op(c, Dup)), EqualOp(numeric)), Jump(if cond then IfTrue else IfFalse, lab));
            Reaches(w, p, l, At(|c.prog|, stack + [v], env, tr),
                    At(if (CaseEqual(numeric, v, r.v) == 1) == cond then l[lab] else |d.prog|, stack + [v], env,
                       r.trace))
  {
    hide Reaches, Walk, Eval, Within;
    var base := stack + [v];
    var k := At(|c.prog|, base, env, tr);
    var c1 := Op(c, Dup);
    var m := Walk(e, c1);
    var q := Op(m, EqualOp(numeric));
    var r := Eval(w, e, env, tr);
    PeelOp(p, l, c, q, Jump(if cond then IfTrue else IfFalse, lab));
    PeelOp(p, l, c, m, EqualOp(numeric));
    Split(p, l, c, c1, m);
    PeelOp(p, l, c, c, Dup);
    DupRuns(w, p, l, c, base, env, tr);
    WalkRuns(w, p, l, e, c1, base + [v], env, tr);
    assert base + [v] + [r.v] == base + [v, r.v];
    ReachesThrough(w, p, l, k, At(|c1.prog|, base + [v], env, tr), At(|m.prog|, base + [v, r.v], env, r.trace));
    var equal := Bool(CaseEqual(numeric, v, r.v) == 1);
    BinaryRuns(w, p, l, c, m, v, r.v, EqualOp(numeric), equal, base, env, tr, r.trace);
    JumpRuns(w, p, l, c, q, Fine(equal, r.trace), cond, lab, base, env, tr);
  }

  lemma DupRuns(w: World, p: seq<Instr>, l: seq<int>, c: Code, stack: seq<Value>, env: Locals, tr: seq<nat>)
    requires Op(c, Dup).prog <= p && |stack| > 0
    ensures Reaches(w, p, l, At(|c.prog|, stack, env, tr), At(|c.prog| + 1, stack + [stack[|stack| - 1]], env, tr))
  {
    RunOp(w, p, l, c, Dup, At(|c.prog|, stack, env, tr));
    assert stack[..|stack| - 0] == stack;
  }

  /** The comparisons of one clause lead to its body if one of them succeeds, past it otherwise. */
  lemma {:induction false} CasesRun(w: World, p: seq<Instr>, l: seq<int>, cases: seq<Expr>, numeric: bool, lStart: nat,
                                    lEnd: nat, c: Code, stack: seq<Value>, v: Value, env: Locals, tr: seq<nat>)
    requires cases != [] && lStart < |l| && lEnd < |l|
    requires Within(p, l, c, EmitCases(cases, lStart, lEnd, EqualOp(numeric), c))
    requires l[lStart] == |EmitCases(cases, lStart, lEnd, EqualOp(numeric), c).prog|
    ensures var sel := SelectCase(w, cases, numeric, v, env, tr);
            !sel.BadCase? ==>
              Reaches(w, p, l, At(|c.prog|, stack + [v], env, tr),
                      At(if sel.Hit? then l[lStart] else l[lEnd], stack + [v], env, sel.trace))
    decreases |cases|
  {
    hide Reaches, Walk, Eval, Within;
    var r := Eval(w, cases[0], env, tr);
    var q := Op(Walk(cases[0], Op(c, Dup)), EqualOp(numeric));
    if r.Fine? && CaseEqual(numeric, v, r.v) >= 0 {
      if |cases| == 1 {
        CaseRuns(w, p, l, cases[0], numeric, false, lEnd, c, stack, v, env, tr);
      } else {
        var m := Op(q, Jump(IfTrue, lStart));
        Split(p, l, c, m, EmitCases(cases, lStart, lEnd, EqualOp(numeric), c));
        CaseRuns(w, p, l, cases[0], numeric, true, lStart, c, stack, v, env, tr);
        if CaseEqual(numeric, v, r.v) == 0 {
          CasesRun(w, p, l, cases[1..], numeric, lStart, lEnd, m, stack, v, env, r.trace);
          var sel := SelectCase(w, cases, numeric, v, env, tr);
          if !sel.BadCase? {
            ReachesThrough(w, p, l, At(|c.prog|, stack + [v], env, tr), At(|m.prog|, stack + [v], env, r.trace),
                           At(if sel.Hit? then l[lStart] else l[lEnd], stack + [v], env, sel.trace));
          }
        }
      }
    }
  }

  /** The program and labels agree with the emission of clauses, their start labels included. */
  ghost predicate ClausesIn(p: seq<Instr>, l: seq<int>, c: Code, d: Code, lo: nat, hi: nat) {
    && Places(c, d, lo, hi) && d.prog <= p && |d.l| <= |l|
    && forall i :: 0 <= i < |d.l| && (|c.l| <= i || lo <= i < hi) ==> l[i] == d.l[i]
  }

  /** The code of the first clause, before the others. */
  lemma ClauseFirst(p: seq<Instr>, l: seq<int>, c: Code, z: Code, d: Code, lo: nat, hi: nat)
    requires ClausesIn(p, l, c, d, lo, hi) && lo < hi <= |c.l| <= |z.l| && Places(z, d, lo + 1, hi)
    ensures Within(p, l, c, z) && ClausesIn(p, l, z, d, lo + 1, hi) && lo < |l| && l[lo] == z.l[lo]
  {}

  lemma {:induction false} ClausePlaced(p: seq<Instr>, l: seq<int>, c: Code, a: Code, b: Code, f: Code, z: Code,
                                        lStart: nat)
    requires lStart < |c.l| && Extends(NewLabel(c), a) && Extends(SetLabel(a, lStart), b) && Extends(b, f) &&
             Extends(f, z)
    requires Within(p, l, c, SetLabel(z, |c.l|))
    ensures Within(p, l, NewLabel(c), a) && Within(p, l, SetLabel(a, lStart), b) && f.prog <= p && z.prog <= p
    ensures |c.l| < |l| && l[|c.l|] == |z.prog| && z.l[lStart] == |a.prog|
  {}

  /** What the theorem asks of a list of clauses. */
  ghost predicate ClausesReady(p: seq<Instr>, l: seq<int>, cs: Clauses, lStart: nat, end: nat, numeric: bool,
                               y: Context, c: Code, stack: seq<Value>) {
    && lStart + Count(cs) <= |c.l| && end < |l|
    && ContextOk(y, |c.l|) && LegalClauses(cs, Frames(y.scopes)) && Above(y.scopes, -1) <= |stack|
    && var d := EmitClauses(cs, lStart, end, EqualOp(numeric), y, c);
    && ClausesIn(p, l, c, d, lStart, lStart + Count(cs)) && |d.prog| == l[end]
  }

  /** The parts of the first clause and the rest. */
  ghost predicate ClauseParts(p: seq<Instr>, l: seq<int>, cs: Clauses, lStart: nat, end: nat, numeric: bool, y: Context,
                              c: Code, stack: seq<Value>, a: Code, b: Code, f: Code, z: Code) {
    && cs.Clause? && lStart < |c.l| < |a.l| && lStart < |l| && |c.l| < |l| && end < |l|
    && a == EmitCases(cs.cases, lStart, |c.l|, EqualOp(numeric), NewLabel(c)) && Within(p, l, NewLabel(c), a)
    && b == EmitStmt(cs.body, y, SetLabel(a, lStart)) && Within(p, l, SetLabel(a, lStart), b)
    && f == (if cs.falls then Op(b, Jump(Always, lStart + 1)) else b) && f.prog <= p
    && z == Op(f, Jump(Always, end)) && z.prog <= p && |c.l| < |z.l|
    && l[lStart] == |a.prog| && l[|c.l|] == |z.prog|
    && ContextOk(y, |c.l|) && Legal(cs.body, Frames(y.scopes)) && Above(y.scopes, -1) <= |stack|
    && ClausesReady(p, l, cs.next, lStart + 1, end, numeric, y, SetLabel(z, |c.l|), stack)
  }

  lemma ClauseTaken(p: seq<Instr>, l: seq<int>, cs: Clauses, lStart: nat, end: nat, numeric: bool, y: Context, c: Code,
                    stack: seq<Value>)
    returns (a: Code, b: Code, f: Code, z: Code)
    requires ClausesReady(p, l, cs, lStart, end, numeric, y, c, stack) && cs.Clause?
    ensures ClauseParts(p, l, cs, lStart, end, numeric, y, c, stack, a, b, f, z)
  {
    hide Within, ContextOk, Frames, Above, EmitCases, EmitStmt, ClausesIn, Places;
    var eq := EqualOp(numeric);
    a := EmitCases(cs.cases, lStart, |c.l|, eq, NewLabel(c));
    b := EmitStmt(cs.body, y, SetLabel(a, lStart));
    f := if cs.falls then Op(b, Jump(Always, lStart + 1)) else b;
    z := Op(f, Jump(Always, end));
    var z' := SetLabel(z, |c.l|);
    var d := EmitClauses(cs, lStart, end, eq, y, c);
    assert d == EmitClauses(cs.next, lStart + 1, end, eq, y, z');
    ClauseFirst(p, l, c, z', d, lStart, lStart + Count(cs));
    ClausePlaced(p, l, c, a, b, f, z, lStart);
    ContextGrows(y, |c.l|, |z'.l|);
  }

  /** A clause's body, falling through to the next one's where the source says so. */
  lemma {:induction false} BodiesRun(w: World, p: seq<Instr>, l: seq<int>, cs: Clauses, lStart: nat, end: nat,
                                     numeric: bool, y: Context, c: Code,
                                     stack: seq<Value>, env: Locals, tr: seq<nat>, fuel: nat)
    requires ClausesReady(p, l, cs, lStart, end, numeric, y, c, stack) && cs.Clause?
    ensures lStart < |l| && Ends(w, p, l, y.scopes, At(l[lStart], stack, env, tr), l[end], stack,
                                 RunClause(w, Emitted, cs, env, tr, fuel))
    decreases fuel, cs, 1
  {
    hide Within, ContextOk, Frames, Above, EmitCases, EmitStmt, Ends, Reaches, Exec, ClausesIn, EmitClauses, Count;
    var a, b, f, z := ClauseTaken(p, l, cs, lStart, end, numeric, y, c, stack);
    var a' := SetLabel(a, lStart);
    var k := At(l[lStart], stack, env, tr);
    var o := Exec(w, Emitted, cs.body, env, tr, fuel);
    ContextGrows(y, |c.l|, |a'.l|);
    StmtRunsTo(w, p, l, cs.body, y, a', stack, env, tr, fuel);
    if cs.falls && o.Normal? {
      LegalNext(cs, Frames(y.scopes));
      BodiesRun(w, p, l, cs.next, lStart + 1, end, numeric, y, SetLabel(z, |c.l|), stack, o.env, o.trace, fuel);
      EndsNormally(w, p, l, y.scopes, k, |b.prog|, stack, o);
      JumpAlways(w, p, l, k, b, lStart + 1, At(|b.prog|, stack, o.env, o.trace));
      EndsAfter(w, p, l, y.scopes, k, At(l[lStart + 1], stack, o.env, o.trace), l[end], stack,
                RunClause(w, Emitted, cs.next, o.env, o.trace, fuel));
    } else if o.Normal? {
      EndsSkipping(w, p, l, y.scopes, k, b, end, stack, o);
    } else {
      ElsewhereEnds(w, p, l, y.scopes, k, |b.prog|, l[end], stack, o);
    }
  }

  lemma LegalNext(cs: Clauses, fs: seq<Frame>)
    requires LegalClauses(cs, fs) && cs.Clause? && cs.falls
    ensures cs.next.Clause?
  {}

  /** The emitted search for the clause to run, clause by clause. */
  lemma {:induction false} ClausesStep(w: World, cs: Clauses, numeric: bool, v: Value, env: Locals, tr: seq<nat>,
                                       fuel: nat)
    ensures cs.NoClauses? ==> ExecClauses(w, Emitted, cs, numeric, v, env, tr, fuel) == Normal(env, tr)
    ensures cs.Clause? && cs.cases == [] ==>
              ExecClauses(w, Emitted, cs, numeric, v, env, tr, fuel) == RunClause(w, Emitted, cs, env, tr, fuel)
    ensures cs.Clause? && cs.cases != [] ==>
              ExecClauses(w, Emitted, cs, numeric, v, env, tr, fuel) ==
                match SelectCase(w, cs.cases, numeric, v, env, tr)
                case BadCase => Stuck
                case Hit(tr') => RunClause(w, Emitted, cs, env, tr', fuel)
                case Miss(tr') => ExecClauses(w, Emitted, cs.next, numeric, v, env, tr', fuel)
  {
    hide Eval, Exec;
  }

  /** The comparisons and the bodies run the clause that the emitted code chooses, defaults in any place included. */
  lemma {:induction false} ClausesRun(w: World, p: seq<Instr>, l: seq<int>, cs: Clauses, lStart: nat, end: nat,
                                      numeric: bool, y: Context, c: Code,
                                      stack: seq<Value>, v: Value, env: Locals, tr: seq<nat>, fuel: nat)
    requires ClausesReady(p, l, cs, lStart, end, numeric, y, c, stack + [v])
    ensures Ends(w, p, l, y.scopes, At(|c.prog|, stack + [v], env, tr), l[end], stack + [v],
                 ExecClauses(w, Emitted, cs, numeric, v, env, tr, fuel))
    decreases fuel, cs, 2
  {
    hide Within, ContextOk, Frames, Above, EmitStmt, Ends, Reaches, Exec, ClausesIn, Count, Eval, SelectCase, RunClause,
         ExecClauses;
    var k := At(|c.prog|, stack + [v], env, tr);
    ClausesStep(w, cs, numeric, v, env, tr, fuel);
    if cs.NoClauses? {
      ReachesItself(w, p, l, k);
      NormalEnd(w, p, l, y.scopes, k, l[end], stack + [v], Normal(env, tr));
    } else {
      var a, b, f, z := ClauseTaken(p, l, cs, lStart, end, numeric, y, c, stack + [v]);
      if cs.cases == [] {
        BodiesRun(w, p, l, cs, lStart, end, numeric, y, c, stack + [v], env, tr, fuel);
      } else {
        CasesRun(w, p, l, cs.cases, numeric, lStart, |c.l|, NewLabel(c), stack, v, env, tr);
        var out := ExecClauses(w, Emitted, cs, numeric, v, env, tr, fuel);
        match SelectCase(w, cs.cases, numeric, v, env, tr)
        case BadCase => NothingToShow(w, p, l, y.scopes, k, l[end], stack + [v], Stuck);
        case Hit(tr') =>
          BodiesRun(w, p, l, cs, lStart, end, numeric, y, c, stack + [v], env, tr', fuel);
          EndsAfter(w, p, l, y.scopes, k, At(l[lStart], stack + [v], env, tr'), l[end], stack + [v], out);
        case Miss(tr') =>
          ClausesRun(w, p, l, cs.next, lStart + 1, end, numeric, y, SetLabel(z, |c.l|), stack, v, env, tr', fuel);
          EndsAfter(w, p, l, y.scopes, k, At(|z.prog|, stack + [v], env, tr'), l[end], stack + [v], out);
      }
    }
  }

  lemma TagRuns(w: World, p: seq<Instr>, l: seq<int>, tag: Option<Expr>, c: Code, stack: seq<Value>, env: Locals,
                tr: seq<nat>)
    requires Within(p, l, c, EmitTag(tag, c)) && TagValue(w, tag, env, tr).Fine?
    ensures var r := TagValue(w, tag, env, tr);
            Reaches(w, p, l, At(|c.prog|, stack, env, tr), At(|EmitTag(tag, c).prog|, stack + [r.v], env, r.trace))
  {
    hide Reaches, Walk, Eval;
    if tag.None? {
      PushBoolRuns(w, p, l, c, true, stack, env, tr);
    } else {
      WalkRuns(w, p, l, tag.value, c, stack, env, tr);
    }
  }

  lemma SwitchPlaced(p: seq<Instr>, l: seq<int>, c: Code, c1: Code, n: nat, f: Code, d: Code)
    requires Extends(c, c1) && Places(NewLabels(NewLabel(c1), n), f, |c1.l| + 1, |c1.l| + 1 + n)
    requires Extends(SetLabel(f, |c1.l|), d) && Within(p, l, c, d)
    ensures Within(p, l, c, c1) && d.prog <= p && |c1.l| < |l| && l[|c1.l|] == |f.prog|
    ensures ClausesIn(p, l, NewLabels(NewLabel(c1), n), f, |c1.l| + 1, |c1.l| + 1 + n)
  {}

  lemma {:induction false} SwitchRuns(w: World, p: seq<Instr>, l: seq<int>, s: Stmt, x: Context, c: Code,
                                      stack: seq<Value>, env: Locals, tr: seq<nat>, fuel: nat)
    requires Ready(p, l, s, x, c, stack) && s.Switch?
    ensures Ends(w, p, l, x.scopes, At(|c.prog|, stack, env, tr), |EmitStmt(s, x, c).prog|, stack,
                 Exec(w, Emitted, s, env, tr, fuel))
    decreases fuel, s, 2
  {
    hide Reaches, Target, Above, Frames, Within, ContextOk, NewLabels, DropItems, Ends, Walk, Eval, ClausesIn, Places,
         EmitClauses, ExecClauses, EmitTag;
    var c1 := EmitTag(s.tag, c);
    var sc := SwitchScope(s.lbl, c1);
    var n := Count(s.clauses);
    var c2 := NewLabels(NewLabel(c1), n);
    var y := Inside(x, sc);
    var f := EmitClauses(s.clauses, |c1.l| + 1, sc.end, EqualOp(s.numeric), y, c2);
    PlacesSizes(c2, f, |c1.l| + 1, |c1.l| + 1 + n);
    var e := SetLabel(f, sc.end);
    var d := DropItems(1, e);
    assert EmitStmt(s, x, c) == d;
    SwitchPlaced(p, l, c, c1, n, f, d);
    SwitchInside(x, s.lbl, c, c1, |c2.l|);
    AboveInside(x.scopes, sc, -1);
    var k := At(|c.prog|, stack, env, tr);
    var r := TagValue(w, s.tag, env, tr);
    if r.Fine? {
      TagRuns(w, p, l, s.tag, c, stack, env, tr);
      ClausesRun(w, p, l, s.clauses, |c1.l| + 1, sc.end, s.numeric, y, c2, stack, r.v, env, r.trace, fuel);
      var o := ExecClauses(w, Emitted, s.clauses, s.numeric, r.v, env, r.trace, fuel);
      EndsAfter(w, p, l, y.scopes, k, At(|c1.prog|, stack + [r.v], env, r.trace), l[sc.end], stack + [r.v], o);
      SwitchEnd(w, p, l, x.scopes, sc, k, e, stack, r.v, o);
    } else {
      NothingToShow(w, p, l, x.scopes, k, |d.prog|, stack, Stuck);
    }
  }

  /** Leaving the switch drops the tag. */
  lemma {:induction false} SwitchEnd(w: World, p: seq<Instr>, l: seq<int>, scopes: seq<Scope>, sc: Scope, k: Conf,
                                     e: Code,
                  stack: seq<Value>, v: Value, o: Outcome)
    requires sc.size == 1 && !sc.frame.loop && sc.end < |l| && l[sc.end] == |e.prog| && DropItems(1, e).prog <= p &&
             Above(scopes, -1) <= |stack|
    requires Ends(w, p, l, scopes + [sc], k, l[sc.end], stack + [v], o)
    ensures Ends(w, p, l, scopes, k, |DropItems(1, e).prog|, stack, Caught(o, sc.frame.lbl))
  {
    hide Reaches, DropItems, Ends, Above;
    EndsOwn(w, p, l, scopes, sc, k, l[sc.end], stack + [v], o);
    var out := Caught(o, sc.frame.lbl);
    if out.Normal? {
      if o.Normal? { EndsNormally(w, p, l, scopes + [sc], k, l[sc.end], stack + [v], o); }
      DropItemsRuns(w, p, l, e, 1, stack + [v], out.env, out.trace);
      assert (stack + [v])[..|stack + [v]| - 1] == stack;
      ReachesThrough(w, p, l, k, At(|e.prog|, stack + [v], out.env, out.trace),
                     At(|DropItems(1, e).prog|, stack, out.env, out.trace));
      NormalEnd(w, p, l, scopes, k, |DropItems(1, e).prog|, stack, out);
    } else {
      EndsOutside(w, p, l, scopes, sc, k, l[sc.end], |DropItems(1, e).prog|, stack, [v], o);
    }
  }

  // ----- whole functions -----

  lemma {:induction false} ReturnIsNotNormal(w: World, s: Stmt, env: Locals, tr: seq<nat>, fuel: nat)
    requires LastIsReturn(s)
    ensures !Exec(w, Emitted, s, env, tr, fuel).Normal?
    decreases s
  {
    hide Eval;
    if s.Seq? {
      var o := Exec(w, Emitted, s.first, env, tr, fuel);
      if o.Normal? { ReturnIsNotNormal(w, s.second, o.env, o.trace, fuel); }
    }
  }

  /** The result of a function body: falling off its end is a return without a value. */
  function BodyResult(out: Outcome): Outcome {
    if out.Normal? then Gave(None, out.env, out.trace) else out
  }

  /**
   * A compiled function returns exactly what its body gives when switches choose as the emitted code does, after
   * exactly the same calls, with nothing else left on the stack: all temporaries of the constructs that a return leaves
   * are gone.
   */
  lemma FunctionRuns(w: World, s: Stmt, env: Locals, fuel: nat)
    requires Legal(s, [])
    ensures var out := BodyResult(Exec(w, Emitted, s, env, [], fuel));
            var d := EmitBody(s);
            out.Gave? ==> Reaches(w, d.prog, d.l, At(0, [], env, []),
                                  Conf.Returned(Results(out.result), out.env, out.trace))
    ensures !Exec(w, Emitted, s, env, [], fuel).Broke? && !Exec(w, Emitted, s, env, [], fuel).Continued?
  {
    hide Reaches, Exec, Target;
    var x := Context([], Unnamed, Unnamed);
    var c := Code([], []);
    var m := EmitStmt(s, x, c);
    var d := EmitBody(s);
    assert Within(d.prog, d.l, c, m);
    assert Frames(x.scopes) == [];
    assert Target([], None, false) == -1;
    StmtRunsTo(w, d.prog, d.l, s, x, c, [], env, [], fuel);
    var out := Exec(w, Emitted, s, env, [], fuel);
    if out.Normal? {
      if LastIsReturn(s) { ReturnIsNotNormal(w, s, env, [], fuel); }
      ThenOp(w, d.prog, d.l, At(0, [], env, []), m, Ret, At(|m.prog|, [], out.env, out.trace));
    } else if out.Gave? {
      assert [] + Results(out.result) == Results(out.result);
    }
  }

  /** The machine's result is the only one: whatever a run of the compiled function returns is what its body gives. */
  lemma FunctionReturnsOnly(w: World, s: Stmt, env: Locals, fuel: nat, end: Conf)
    requires Legal(s, []) && BodyResult(Exec(w, Emitted, s, env, [], fuel)).Gave?
    requires Reaches(w, EmitBody(s).prog, EmitBody(s).l, At(0, [], env, []), end) && !end.At?
    ensures var out := BodyResult(Exec(w, Emitted, s, env, [], fuel));
            end == Conf.Returned(Results(out.result), out.env, out.trace)
  {
    hide Exec, EmitBody;
    var out := BodyResult(Exec(w, Emitted, s, env, [], fuel));
    FunctionRuns(w, s, env, fuel);
    ReachesOneEnd(w, EmitBody(s).prog, EmitBody(s).l, At(0, [], env, []), end,
                  Conf.Returned(Results(out.result), out.env, out.trace));
  }
}
