/** Every label that emission creates is placed in the program, and every jump names one of them. */
module LabelPlacement {
  import opened Common
  import opened StackCode
  import opened ExprLowering
  import opened Statements
  import opened StmtLowering
  import opened StmtContext

  /** All labels but the open ones are placed in the program, and jumps name labels that exist. */
  ghost predicate AllPlaced(c: Code, open: set<nat>) {
    && (forall i :: i in open ==> i < |c.l|)
    && (forall i :: 0 <= i < |c.l| && i !in open ==> 0 <= c.l[i] <= |c.prog|)
    && Known(c.prog, |c.l|)
  }

  predicate Known(code: seq<Instr>, n: nat) {
    forall k :: 0 <= k < |code| && code[k].Jump? ==> code[k].lab < n
  }

  function Range(lo: nat, n: nat): (r: set<nat>)
    ensures forall i :: i in r <==> lo <= i < lo + n
    decreases n
  {
    if n == 0 then {} else {lo} + Range(lo + 1, n - 1)
  }

  // ----- single steps of emission -----

  lemma OpsPlaced(c: Code, code: seq<Instr>, open: set<nat>)
    requires AllPlaced(c, open) && Known(code, |c.l|)
    ensures AllPlaced(Ops(c, code), open)
  {}

  lemma OpPlaced(c: Code, i: Instr, open: set<nat>)
    requires AllPlaced(c, open) && (i.Jump? ==> i.lab < |c.l|)
    ensures AllPlaced(Op(c, i), open)
  {}

  lemma LabelPlaced(c: Code, lab: nat, open: set<nat>)
    requires AllPlaced(c, open) && lab < |c.l|
    ensures AllPlaced(SetLabel(c, lab), open - {lab})
  {}

  lemma {:induction false} NewLabelsPlaced(c: Code, n: nat, open: set<nat>)
    requires AllPlaced(c, open)
    ensures AllPlaced(NewLabels(c, n), open + Range(|c.l|, n))
    decreases n
  {
    if n == 0 {
      assert open + Range(|c.l|, 0) == open;
    } else {
      NewLabelsPlaced(NewLabel(c), n - 1, open + {|c.l|});
      assert open + {|c.l|} + Range(|c.l| + 1, n - 1) == open + Range(|c.l|, n);
    }
  }

  lemma OneLabelPlaced(c: Code, open: set<nat>)
    requires AllPlaced(c, open)
    ensures AllPlaced(NewLabel(c), open + {|c.l|})
  {}

  lemma OpenExist(c: Code, open: set<nat>)
    requires AllPlaced(c, open)
    ensures forall i :: i in open ==> i < |c.l|
  {}

  lemma {:induction false} RepeatKnown(i: Instr, k: nat, n: nat)
    requires !i.Jump?
    ensures Known(Repeat(i, k), n)
  {
    if k > 0 { RepeatKnown(i, k - 1, n); }
  }

  lemma DropsPlaced(n: nat, c: Code, open: set<nat>)
    requires AllPlaced(c, open)
    ensures AllPlaced(DropItems(n, c), open)
  {
    RepeatKnown(Drop, n, |c.l|);
    OpsPlaced(c, if n < 4 then Repeat(Drop, n) else [Push(n), Pack, Drop], open);
  }

  lemma BoolPushPlaced(c: Code, b: bool, open: set<nat>)
    requires AllPlaced(c, open)
    ensures AllPlaced(PushBool(c, b), open)
  {}

  // ----- expressions -----

  lemma {:induction false} WalkPlaced(e: Expr, c: Code, open: set<nat>)
    requires AllPlaced(c, open)
    ensures AllPlaced(Walk(e, c), open)
    decreases e, 1
  {
    hide AllPlaced, EmitBinaryExpr;
    match e
    case Nil => OpPlaced(c, PushNull, open);
    case IntLit(n) => OpPlaced(c, Push(n), open);
    case BoolLit(b) => BoolPushPlaced(c, b, open);
    case Var(x) => OpPlaced(c, Load(x), open);
    case Call(f) => OpPlaced(c, Perform(f), open);
    case Negated(e') =>
      WalkPlaced(e', c, open);
      OpPlaced(Walk(e', c), Not, open);
    case Parens(e') => WalkPlaced(e', c, open);
    case _ => BinaryPlaced(e, false, false, 0, c, open);
  }

  lemma {:induction false} BoolPlaced(e: Expr, needJump: bool, cond: bool, lab: nat, c: Code, open: set<nat>)
    requires AllPlaced(c, open) && (needJump ==> lab < |c.l|)
    ensures AllPlaced(EmitBoolExpr(e, needJump, cond, lab, c), open)
    decreases e, 2
  {
    hide AllPlaced, EmitBinaryExpr, Walk;
    if IsBinary(e) {
      BinaryPlaced(e, needJump, cond, lab, c, open);
    } else {
      WalkPlaced(e, c, open);
      if needJump { OpPlaced(Walk(e, c), Jump(if cond then IfTrue else IfFalse, lab), open); }
    }
  }

  /** Two operands and what follows them. */
  lemma {:induction false} OperandsPlaced(e: Expr, x: Expr, y: Expr, i: Instr, c: Code, open: set<nat>)
    requires AllPlaced(c, open) && x < e && y < e && (i.Jump? ==> i.lab < |c.l|)
    ensures AllPlaced(Op(Walk(y, Walk(x, c)), i), open)
    decreases e, 0, 0
  {
    hide AllPlaced, Walk;
    WalkPlaced(x, c, open);
    WalkPlaced(y, Walk(x, c), open);
    OpPlaced(Walk(y, Walk(x, c)), i, open);
  }

  lemma {:induction false} BinaryPlaced(e: Expr, needJump: bool, cond: bool, lab: nat, c: Code, open: set<nat>)
    requires AllPlaced(c, open) && IsBinary(e) && (needJump ==> lab < |c.l|)
    ensures AllPlaced(EmitBinaryExpr(e, needJump, cond, lab, c), open)
    decreases e, 0, 1
  {
    hide AllPlaced, Walk, EmitShortCircuit;
    match e
    case NilTest(equal, e') =>
      var d := Op(Walk(e', c), IsNull);
      WalkPlaced(e', c, open);
      OpPlaced(Walk(e', c), IsNull, open);
      if needJump {
        OpPlaced(d, Jump(if cond == equal then IfTrue else IfFalse, lab), open);
      } else {
        OpPlaced(d, Not, open);
      }
    case And(x, y) => ShortPlaced(false, e, x, y, needJump, cond, lab, c, open);
    case Or(x, y) => ShortPlaced(true, e, x, y, needJump, cond, lab, c, open);
    case Numeric(r, x, y) =>
      OperandsPlaced(e, x, y, if needJump then Jump(Compared(if cond then r else NegateRelation(r)), lab) else Test(r),
                     c, open);
    case BoolEqual(negated, x, y) =>
      OperandsPlaced(e, x, y, Same(negated), c, open);
      if needJump {
        OpPlaced(Op(Walk(y, Walk(x, c)), Same(negated)), Jump(if cond then IfTrue else IfFalse, lab), open);
      }
    case Binary(a, x, y) =>
      OperandsPlaced(e, x, y, Arith(a), c, open);
      if needJump { OpPlaced(Op(Walk(y, Walk(x, c)), Arith(a)), Jump(if cond then IfTrue else IfFalse, lab), open); }
  }

  lemma {:induction false} ShortPlaced(condShort: bool, e: Expr, x: Expr, y: Expr, needJump: bool, cond: bool, lab: nat,
                                       c: Code, open: set<nat>)
    requires AllPlaced(c, open) && x < e && y < e && (needJump ==> lab < |c.l|)
    ensures AllPlaced(EmitShortCircuit(condShort, e, x, y, needJump, cond, lab, c), open)
    decreases e, 0, 0
  {
    hide AllPlaced, EmitShortCircuit;
    if needJump {
      ShortJumpPlaced(condShort, e, x, y, cond, lab, c, open);
    } else {
      ShortValuePlaced(condShort, e, x, y, cond, lab, c, open);
    }
  }

  lemma {:induction false} ShortJumpPlaced(condShort: bool, e: Expr, x: Expr, y: Expr, cond: bool, lab: nat, c: Code,
                                           open: set<nat>)
    requires AllPlaced(c, open) && x < e && y < e && lab < |c.l|
    ensures AllPlaced(EmitShortCircuit(condShort, e, x, y, true, cond, lab, c), open)
    decreases e, 0, 0, 1
  {
    hide AllPlaced, EmitBoolExpr, Extends;
    var end := |c.l|;
    var first := if cond == condShort then lab else end;
    OpenExist(c, open);
    OneLabelPlaced(c, open);
    TwoJumpsPlaced(e, x, y, condShort, first, cond, lab, NewLabel(c), open + {end});
    var c2 := EmitBoolExpr(y, true, cond, lab, EmitBoolExpr(x, true, condShort, first, NewLabel(c)));
    LabelPlaced(c2, end, open + {end});
    assert open + {end} - {end} == open;
  }

  lemma {:induction false} TwoJumpsPlaced(e: Expr, x: Expr, y: Expr, cx: bool, lx: nat, cy: bool, ly: nat, c: Code,
                                          open: set<nat>)
    requires AllPlaced(c, open) && x < e && y < e && lx < |c.l| && ly < |c.l|
    ensures var d := EmitBoolExpr(y, true, cy, ly, EmitBoolExpr(x, true, cx, lx, c));
            AllPlaced(d, open) && |c.l| <= |d.l|
    decreases e, 0, 0, 0
  {
    hide AllPlaced, EmitBoolExpr, Extends;
    var m := EmitBoolExpr(x, true, cx, lx, c);
    Sizes(c, m);
    Sizes(m, EmitBoolExpr(y, true, cy, ly, m));
    BoolPlaced(x, true, cx, lx, c, open);
    BoolPlaced(y, true, cy, ly, m, open);
  }

  lemma {:induction false} ShortValuePlaced(condShort: bool, e: Expr, x: Expr, y: Expr, cond: bool, lab: nat, c: Code,
                                            open: set<nat>)
    requires AllPlaced(c, open) && x < e && y < e
    ensures AllPlaced(EmitShortCircuit(condShort, e, x, y, false, cond, lab, c), open)
    decreases e, 0, 0, 0
  {
    hide AllPlaced, EmitBoolExpr;
    var end, push := |c.l|, |c.l| + 1;
    var c0 := NewLabel(NewLabel(c));
    var both := open + {end} + {push};
    OpenExist(c, open);
    OneLabelPlaced(c, open);
    OneLabelPlaced(NewLabel(c), open + {end});
    var c1 := EmitBoolExpr(x, true, condShort, push, c0);
    var c2 := EmitBoolExpr(y, false, false, 0, c1);
    var c3 := Op(c2, Jump(Always, end));
    var c4 := SetLabel(c3, push);
    BoolPlaced(x, true, condShort, push, c0, both);
    BoolPlaced(y, false, false, 0, c1, both);
    OpPlaced(c2, Jump(Always, end), both);
    LabelPlaced(c3, push, both);
    BoolPushPlaced(c4, condShort, both - {push});
    LabelPlaced(PushBool(c4, condShort), end, both - {push});
    assert both - {push} - {end} == open;
  }

  // ----- statements -----

  lemma SimplePlaced(s: Stmt, x: Context, c: Code, open: set<nat>)
    requires AllPlaced(c, open) && Simple(s)
    ensures AllPlaced(EmitStmt(s, x, c), open)
  {
    hide AllPlaced, Walk;
    match s
    case Skip =>
    case Assign(v, e) =>
      WalkPlaced(e, c, open);
      OpPlaced(Walk(e, c), Store(v), open);
    case IncDec(v, up) => OpsPlaced(c, [Load(v), if up then Inc else Dec, Store(v)], open);
    case Invoke(f) => OpsPlaced(c, [Perform(f), Drop], open);
  }

  lemma BranchPlaced(name: Option<nat>, brk: bool, x: Context, c: Code, open: set<nat>)
    requires AllPlaced(c, open) && ContextOk(x, |c.l|) && Target(Frames(x.scopes), name, brk) >= 0
    ensures AllPlaced(EmitBranch(name, brk, x, c), open)
  {
    hide AllPlaced, DropItems, Above, Named, Target;
    TargetIsNamed(x, |c.l|, name, brk);
    var t := Target(Frames(x.scopes), name, brk);
    assert ScopeOk(x.scopes[t], |c.l|);
    DropsPlaced(Above(x.scopes, t), c, open);
    OpPlaced(DropItems(Above(x.scopes, t), c), Jump(Always, if brk then x.scopes[t].end else x.scopes[t].post), open);
  }

  lemma BeforeReturn(result: Option<Expr>, x: Context, c: Code, open: set<nat>) returns (d: Code)
    requires AllPlaced(c, open)
    ensures EmitStmt(Return(result), x, c) == Op(d, Ret) && AllPlaced(d, open)
  {
    hide AllPlaced, DropItems, Above, Walk;
    OpenExist(c, open);
    OneLabelPlaced(c, open);
    LabelPlaced(NewLabel(c), |c.l|, open + {|c.l|});
    assert open + {|c.l|} - {|c.l|} == open;
    var c0 := SetLabel(NewLabel(c), |c.l|);
    var c1 := DropItems(Above(x.scopes, -1), c0);
    DropsPlaced(Above(x.scopes, -1), c0, open);
    if result.Some? { WalkPlaced(result.value, c1, open); }
    d := if result.None? then c1 else Walk(result.value, c1);
  }

  lemma ReturnPlaced(result: Option<Expr>, x: Context, c: Code, open: set<nat>)
    requires AllPlaced(c, open)
    ensures AllPlaced(EmitStmt(Return(result), x, c), open)
  {
    hide AllPlaced, EmitStmt;
    var d := BeforeReturn(result, x, c, open);
    OpPlaced(d, Ret, open);
  }

  /** Emission of any legal statement leaves only those labels open that were open before. */
  lemma {:induction false} StmtPlaced(s: Stmt, x: Context, c: Code, open: set<nat>)
    requires AllPlaced(c, open) && ContextOk(x, |c.l|) && Legal(s, Frames(x.scopes))
    ensures AllPlaced(EmitStmt(s, x, c), open)
    decreases s, 1
  {
    hide AllPlaced, ContextOk, Frames, Target, EmitIf, EmitFor, EmitRange, EmitSwitch, EmitBranch, Walk, DropItems,
         Above;
    match s
    case Seq(a, b) =>
      StmtPlaced(a, x, c, open);
      ContextGrows(x, |c.l|, |EmitStmt(a, x, c).l|);
      StmtPlaced(b, x, EmitStmt(a, x, c), open);
    case If(_, _, _, _) => IfAllPlaced(s, x, c, open);
    case For(_, _, _, _, _) => ForAllPlaced(s, x, c, open);
    case Range(_, _, _, _, _) => RangeAllPlaced(s, x, c, open);
    case Switch(_, _, _, _) => SwitchAllPlaced(s, x, c, open);
    case Break(name) => BranchPlaced(name, true, x, c, open);
    case Continue(name) => BranchPlaced(name, false, x, c, open);
    case Return(result) => ReturnPlaced(result, x, c, open);
    case _ => SimplePlaced(s, x, c, open);
  }

  lemma ThreeClosed(open: set<nat>, n: nat)
    requires forall i :: i in open ==> i < n
    ensures open + Range(n, 3) - {n} - {n + 1} - {n + 2} == open
    ensures open + Range(n, 3) - {n} - {n + 2} - {n + 1} == open
  {}

  lemma {:induction false} IfAllPlaced(s: Stmt, x: Context, c: Code, open: set<nat>)
    requires AllPlaced(c, open) && ContextOk(x, |c.l|) && Legal(s, Frames(x.scopes)) && s.If?
    ensures AllPlaced(EmitIf(s, x, c), open)
    decreases s, 0
  {
    hide AllPlaced, ContextOk, Frames, EmitStmt, EmitBoolExpr, NewLabels, Range;
    var n := |c.l|;
    var c0 := NewLabels(c, 3);
    var c1 := EmitStmt(s.init, x, c0);
    var c2 := EmitBoolExpr(s.cond, true, false, n + 1, c1);
    var c2' := SetLabel(c2, n);
    var c3 := EmitStmt(s.body, x, c2');
    var o := open + Range(n, 3);
    OpenExist(c, open);
    NewLabelsPlaced(c, 3, open);
    SimplePlaced(s.init, x, c0, o);
    BoolPlaced(s.cond, true, false, n + 1, c1, o);
    LabelPlaced(c2, n, o);
    ContextGrows(x, n, |c2'.l|);
    StmtPlaced(s.body, x, c2', o - {n});
    ThreeClosed(open, n);
    if s.otherwise.None? {
      LabelPlaced(c3, n + 1, o - {n});
      LabelPlaced(SetLabel(c3, n + 1), n + 2, o - {n} - {n + 1});
    } else {
      var c4 := SetLabel(Op(c3, Jump(Always, n + 2)), n + 1);
      OpPlaced(c3, Jump(Always, n + 2), o - {n});
      LabelPlaced(Op(c3, Jump(Always, n + 2)), n + 1, o - {n});
      ContextGrows(x, n, |c4.l|);
      StmtPlaced(s.otherwise.value, x, c4, o - {n} - {n + 1});
      LabelPlaced(EmitStmt(s.otherwise.value, x, c4), n + 2, o - {n} - {n + 1});
    }
  }

  lemma GuardPlaced(guard: Option<Expr>, end: nat, c: Code, open: set<nat>)
    requires AllPlaced(c, open) && end < |c.l|
    ensures AllPlaced(EmitGuard(guard, end, c), open)
  {
    hide AllPlaced, Walk;
    if guard.Some? {
      WalkPlaced(guard.value, c, open);
      OpPlaced(Walk(guard.value, c), Jump(IfFalse, end), open);
    }
  }

  lemma {:induction false} ForAllPlaced(s: Stmt, x: Context, c: Code, open: set<nat>)
    requires AllPlaced(c, open) && ContextOk(x, |c.l|) && Legal(s, Frames(x.scopes)) && s.For?
    ensures AllPlaced(EmitFor(s, x, c), open)
    decreases s, 0
  {
    hide AllPlaced, ContextOk, Frames, EmitStmt, EmitGuard, NewLabels, Range, DropItems;
    var n := |c.l|;
    var sc := LoopScope(s.lbl, 0, c);
    var x' := x.(currentFor := sc.name, currentSwitch := sc.name);
    var c0 := NewLabels(c, 3);
    var i := EmitStmt(s.init, x', c0);
    var h := SetLabel(i, n);
    var g := EmitGuard(s.guard, n + 1, h);
    var b := EmitStmt(s.body, Inside(x, sc), g);
    var b' := SetLabel(b, n + 2);
    var q := EmitStmt(s.post, Inside(x, sc), b');
    var t := Op(q, Jump(Always, n));
    var o := open + Range(n, 3);
    OpenExist(c, open);
    NewLabelsPlaced(c, 3, open);
    SimplePlaced(s.init, x', c0, o);
    LabelPlaced(i, n, o);
    GuardPlaced(s.guard, n + 1, h, o - {n});
    LoopInside(x, s.lbl, 0, c, |g.l|);
    StmtPlaced(s.body, Inside(x, sc), g, o - {n});
    LabelPlaced(b, n + 2, o - {n});
    SimplePlaced(s.post, Inside(x, sc), b', o - {n} - {n + 2});
    OpPlaced(q, Jump(Always, n), o - {n} - {n + 2});
    LabelPlaced(t, n + 1, o - {n} - {n + 2});
    ThreeClosed(open, n);
    DropsPlaced(0, SetLabel(t, n + 1), open);
  }

  lemma BindingsPlaced(key: Option<nat>, val: Option<nat>, c: Code, open: set<nat>)
    requires AllPlaced(c, open)
    ensures AllPlaced(EmitValue(val, EmitKey(key, c)), open)
  {
    hide AllPlaced;
    if key.Some? { OpsPlaced(c, [Dup, Store(key.value)], open); }
    if val.Some? { OpsPlaced(EmitKey(key, c), [Push(2), Pick, Over, PickItem, Store(val.value)], open); }
  }

  lemma {:induction false} RangeAllPlaced(s: Stmt, x: Context, c: Code, open: set<nat>)
    requires AllPlaced(c, open) && ContextOk(x, |c.l|) && Legal(s, Frames(x.scopes)) && s.Range?
    ensures AllPlaced(EmitRange(s, x, c), open)
    decreases s, 0
  {
    hide AllPlaced, ContextOk, Frames, EmitStmt, Walk, NewLabels, Range, DropItems, EmitKey, EmitValue;
    var n := |c.l|;
    var sc := LoopScope(s.lbl, 3, c);
    var c0 := NewLabels(c, 3);
    var v := Walk(s.over, c0);
    var i := Ops(v, [Dup, Size, Push(0)]);
    var h := SetLabel(i, n);
    var t := Ops(h, [Over, Over, Jump(Compared(Le), n + 1)]);
    var g := EmitValue(s.val, EmitKey(s.key, t));
    BindingsExtend(s.key, s.val, t);
    var b := EmitStmt(s.body, Inside(x, sc), g);
    var b' := SetLabel(b, n + 2);
    var q := Ops(b', [Inc, Jump(Always, n)]);
    var o := open + Range(n, 3);
    OpenExist(c, open);
    NewLabelsPlaced(c, 3, open);
    WalkPlaced(s.over, c0, o);
    OpsPlaced(v, [Dup, Size, Push(0)], o);
    LabelPlaced(i, n, o);
    OpsPlaced(h, [Over, Over, Jump(Compared(Le), n + 1)], o - {n});
    BindingsPlaced(s.key, s.val, t, o - {n});
    LoopInside(x, s.lbl, 3, c, |g.l|);
    StmtPlaced(s.body, Inside(x, sc), g, o - {n});
    LabelPlaced(b, n + 2, o - {n});
    OpsPlaced(b', [Inc, Jump(Always, n)], o - {n} - {n + 2});
    LabelPlaced(q, n + 1, o - {n} - {n + 2});
    ThreeClosed(open, n);
    DropsPlaced(3, SetLabel(q, n + 1), open);
  }

  // ----- switches -----

  lemma {:induction false} CasesPlaced(cases: seq<Expr>, lStart: nat, lEnd: nat, eq: Instr, c: Code, open: set<nat>)
    requires AllPlaced(c, open) && lStart < |c.l| && lEnd < |c.l| && !eq.Jump?
    ensures AllPlaced(EmitCases(cases, lStart, lEnd, eq, c), open)
    decreases |cases|
  {
    hide AllPlaced, Walk;
    if cases != [] {
      var m := Walk(cases[0], Op(c, Dup));
      var c1 := Op(m, eq);
      OpPlaced(c, Dup, open);
      WalkPlaced(cases[0], Op(c, Dup), open);
      OpPlaced(m, eq, open);
      if |cases| == 1 {
        OpPlaced(c1, Jump(IfFalse, lEnd), open);
      } else {
        OpPlaced(c1, Jump(IfTrue, lStart), open);
        CasesPlaced(cases[1..], lStart, lEnd, eq, Op(c1, Jump(IfTrue, lStart)), open);
      }
    }
  }

  lemma ClauseClosed(open: set<nat>, lStart: nat, k: nat, n: nat)
    requires lStart + 1 + k <= n && forall i :: i in open ==> i < n && !(lStart <= i < lStart + 1 + k)
    ensures open + Range(lStart, k + 1) + {n} - {lStart} - {n} == open + Range(lStart + 1, k)
  {}

  /** The first clause, from its comparisons to the label after its body. */
  lemma {:induction false} ClausePlaced(cs: Clauses, lStart: nat, end: nat, eq: Instr, x: Context, c: Code,
                                        open: set<nat>, a: Code, b: Code, f: Code)
    requires cs.Clause? && lStart + Count(cs) <= |c.l| && end < |c.l| && !eq.Jump?
    requires AllPlaced(c, open + Range(lStart, Count(cs)))
    requires ContextOk(x, |c.l|) && Legal(cs.body, Frames(x.scopes)) && (cs.falls ==> cs.next.Clause?)
    requires forall i :: i in open ==> !(lStart <= i < lStart + Count(cs))
    requires |c.l| < |a.l| <= |b.l|
    requires a == EmitCases(cs.cases, lStart, |c.l|, eq, NewLabel(c)) && b == EmitStmt(cs.body, x, SetLabel(a, lStart))
    requires f == if cs.falls then Op(b, Jump(Always, lStart + 1)) else b
    ensures AllPlaced(SetLabel(Op(f, Jump(Always, end)), |c.l|), open + Range(lStart + 1, Count(cs.next)))
    decreases cs, 0
  {
    hide AllPlaced, ContextOk, Frames, EmitStmt, EmitCases, Extends;
    var n := |c.l|;
    var all := open + Range(lStart, Count(cs));
    var a' := SetLabel(a, lStart);
    OpenExist(c, all);
    OneLabelPlaced(c, all);
    CasesPlaced(cs.cases, lStart, n, eq, NewLabel(c), all + {n});
    LabelPlaced(a, lStart, all + {n});
    ContextGrows(x, n, |a'.l|);
    StmtPlaced(cs.body, x, a', all + {n} - {lStart});
    if cs.falls { OpPlaced(b, Jump(Always, lStart + 1), all + {n} - {lStart}); }
    OpPlaced(f, Jump(Always, end), all + {n} - {lStart});
    LabelPlaced(Op(f, Jump(Always, end)), n, all + {n} - {lStart});
    ClauseClosed(open, lStart, Count(cs.next), n);
  }

  lemma {:induction false} ClausesPlaced(cs: Clauses, lStart: nat, end: nat, eq: Instr, x: Context, c: Code,
                                         open: set<nat>)
    requires lStart + Count(cs) <= |c.l| && end < |c.l| && !eq.Jump?
    requires AllPlaced(c, open + Range(lStart, Count(cs)))
    requires ContextOk(x, |c.l|) && LegalClauses(cs, Frames(x.scopes))
    requires forall i :: i in open ==> !(lStart <= i < lStart + Count(cs))
    ensures AllPlaced(EmitClauses(cs, lStart, end, eq, x, c), open)
    decreases cs, 1
  {
    hide AllPlaced, ContextOk, Frames, EmitStmt, EmitCases, Range;
    if cs.NoClauses? {
      assert open + Range(lStart, 0) == open;
    } else {
      var a := EmitCases(cs.cases, lStart, |c.l|, eq, NewLabel(c));
      var b := EmitStmt(cs.body, x, SetLabel(a, lStart));
      var f := if cs.falls then Op(b, Jump(Always, lStart + 1)) else b;
      ClausePlaced(cs, lStart, end, eq, x, c, open, a, b, f);
      var z := SetLabel(Op(f, Jump(Always, end)), |c.l|);
      ContextGrows(x, |c.l|, |z.l|);
      ClausesPlaced(cs.next, lStart + 1, end, eq, x, z, open);
    }
  }

  lemma TagPlaced(tag: Option<Expr>, c: Code, open: set<nat>)
    requires AllPlaced(c, open)
    ensures AllPlaced(EmitTag(tag, c), open)
  {
    hide AllPlaced, Walk;
    if tag.None? { BoolPushPlaced(c, true, open); } else { WalkPlaced(tag.value, c, open); }
  }

  lemma {:induction false} SwitchAllPlaced(s: Stmt, x: Context, c: Code, open: set<nat>)
    requires AllPlaced(c, open) && ContextOk(x, |c.l|) && Legal(s, Frames(x.scopes)) && s.Switch?
    ensures AllPlaced(EmitSwitch(s, x, c), open)
    decreases s, 0
  {
    hide AllPlaced, ContextOk, Frames, NewLabels, DropItems, EmitTag, EmitClauses, Places;
    var c1 := EmitTag(s.tag, c);
    var n, k := |c1.l|, Count(s.clauses);
    var sc := SwitchScope(s.lbl, c1);
    var c2 := NewLabels(NewLabel(c1), k);
    var f := EmitClauses(s.clauses, n + 1, n, EqualOp(s.numeric), Inside(x, sc), c2);
    TagPlaced(s.tag, c, open);
    OpenExist(c1, open);
    OneLabelPlaced(c1, open);
    NewLabelsPlaced(NewLabel(c1), k, open + {n});
    SwitchInside(x, s.lbl, c, c1, |c2.l|);
    ClausesPlaced(s.clauses, n + 1, n, EqualOp(s.numeric), Inside(x, sc), c2, open + {n});
    PlacesSizes(c2, f, n + 1, n + 1 + k);
    LabelPlaced(f, n, open + {n});
    assert open + {n} - {n} == open;
    DropsPlaced(1, SetLabel(f, n), open);
  }

  // ----- functions -----

  /** In the code of a function every label is placed and every jump leads to one. */
  lemma BodyPlaced(s: Stmt)
    requires Legal(s, [])
    ensures AllPlaced(EmitBody(s), {})
  {
    hide EmitStmt, Legal, Target;
    var x, c := Context([], Unnamed, Unnamed), Code([], []);
    assert Frames(x.scopes) == [];
    assert Target([], None, false) == -1;
    StmtPlaced(s, x, c, {});
    OpPlaced(EmitStmt(s, x, c), Ret, {});
  }

  /** A body that ends in a return ends in RET, with every label before it. */
  lemma {:induction false} ReturnIsLast(s: Stmt, x: Context, c: Code, open: set<nat>) returns (d: Code)
    requires AllPlaced(c, open) && ContextOk(x, |c.l|) && Legal(s, Frames(x.scopes)) && LastIsReturn(s)
    ensures EmitStmt(s, x, c) == Op(d, Ret) && AllPlaced(d, open)
    decreases s
  {
    hide AllPlaced, ContextOk, Frames, DropItems, Above, Walk, Target;
    if s.Seq? {
      var m := EmitStmt(s.first, x, c);
      StmtPlaced(s.first, x, c, open);
      ContextGrows(x, |c.l|, |m.l|);
      d := ReturnIsLast(s.second, x, m, open);
    } else {
      d := BeforeReturn(s.result, x, c, open);
    }
  }

  /** Functions end in RET, so no label is behind the last instruction. */
  lemma LabelsInside(s: Stmt)
    requires Legal(s, [])
    ensures var c := EmitBody(s); forall i :: 0 <= i < |c.l| ==> 0 <= c.l[i] < |c.prog|
  {
    hide EmitStmt, Legal, Target;
    var x, c := Context([], Unnamed, Unnamed), Code([], []);
    assert Frames(x.scopes) == [];
    assert Target([], None, false) == -1;
    StmtPlaced(s, x, c, {});
    if LastIsReturn(s) { var d := ReturnIsLast(s, x, c, {}); }
  }
}
