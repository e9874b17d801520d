/** Operands of emitted code come from the statement: its slots, its literals, its calls, and small counts. */
module CodeOperands {
  import opened Common
  import opened StackCode
  import opened ExprLowering
  import opened Statements
  import opened StmtLowering
  import opened StmtContext

  predicate IsInt64(n: int) { -0x8000_0000_0000_0000 <= n < 0x8000_0000_0000_0000 }

  predicate IsCallNumber(f: nat) { f < 0x1_0000_0000 }

  // ----- of the source -----

  /** Variables are in the given number of slots, literals have 64 bits, calls 32. */
  predicate ExprFits(e: Expr, slots: nat) {
    match e
    case Nil => true
    case IntLit(n) => IsInt64(n)
    case BoolLit(_) => true
    case Var(x) => x < slots
    case Call(f) => IsCallNumber(f)
    case Negated(e') => ExprFits(e', slots)
    case Parens(e') => ExprFits(e', slots)
    case NilTest(_, e') => ExprFits(e', slots)
    case Binary(_, x, y) => ExprFits(x, slots) && ExprFits(y, slots)
    case Numeric(_, x, y) => ExprFits(x, slots) && ExprFits(y, slots)
    case BoolEqual(_, x, y) => ExprFits(x, slots) && ExprFits(y, slots)
    case And(x, y) => ExprFits(x, slots) && ExprFits(y, slots)
    case Or(x, y) => ExprFits(x, slots) && ExprFits(y, slots)
  }

  predicate OptionFits(e: Option<Expr>, slots: nat) { e.Some? ==> ExprFits(e.value, slots) }

  predicate SlotFits(x: Option<nat>, slots: nat) { x.Some? ==> x.value < slots }

  predicate StmtFits(s: Stmt, slots: nat) {
    match s
    case Skip => true
    case Assign(x, e) => x < slots && ExprFits(e, slots)
    case IncDec(x, _) => x < slots
    case Invoke(f) => IsCallNumber(f)
    case Seq(a, b) => StmtFits(a, slots) && StmtFits(b, slots)
    case If(init, cond, body, otherwise) =>
      && StmtFits(init, slots) && ExprFits(cond, slots) && StmtFits(body, slots)
      && (otherwise.Some? ==> StmtFits(otherwise.value, slots))
    case For(_, init, guard, post, body) =>
      StmtFits(init, slots) && OptionFits(guard, slots) && StmtFits(post, slots) && StmtFits(body, slots)
    case Range(_, over, key, val, body) =>
      ExprFits(over, slots) && SlotFits(key, slots) && SlotFits(val, slots) && StmtFits(body, slots)
    case Switch(_, tag, _, clauses) => OptionFits(tag, slots) && ClausesFit(clauses, slots)
    case Break(_) => true
    case Continue(_) => true
    case Return(result) => OptionFits(result, slots)
  }

  predicate ClausesFit(cs: Clauses, slots: nat) {
    cs.Clause? ==>
      && (forall i :: 0 <= i < |cs.cases| ==> ExprFits(cs.cases[i], slots))
      && StmtFits(cs.body, slots) && ClausesFit(cs.next, slots)
  }

  // ----- of the code -----

  /** A pushed number is a literal or a count of temporaries, of which there are at most three for each label. */
  predicate Fits(i: Instr, labels: nat, slots: nat) {
    match i
    case Push(n) => IsInt64(n) || 0 <= n <= 3 * labels
    case Load(x) => x < slots
    case Store(x) => x < slots
    case Perform(f) => IsCallNumber(f)
    case _ => true
  }

  predicate AllFit(c: Code, slots: nat) { forall k :: 0 <= k < |c.prog| ==> Fits(c.prog[k], |c.l|, slots) }

  /** Temporaries of the open constructs. */
  predicate Shallow(x: Context, n: nat) { Above(x.scopes, -1) <= 3 * n }

  lemma OpsFit(c: Code, code: seq<Instr>, slots: nat)
    requires AllFit(c, slots) && forall k :: 0 <= k < |code| ==> Fits(code[k], |c.l|, slots)
    ensures AllFit(Ops(c, code), slots)
  {}

  lemma OpFits(c: Code, i: Instr, slots: nat)
    requires AllFit(c, slots) && Fits(i, |c.l|, slots)
    ensures AllFit(Op(c, i), slots)
  {}

  /** Labels make no difference, and more of them allow larger counts. */
  lemma LabelsFit(c: Code, d: Code, slots: nat)
    requires AllFit(c, slots) && d.prog == c.prog && |c.l| <= |d.l|
    ensures AllFit(d, slots)
  {}

  lemma {:induction false} RepeatFits(k: nat, labels: nat, slots: nat)
    ensures forall j :: 0 <= j < k ==> Fits(Repeat(Drop, k)[j], labels, slots)
  {
    if k > 0 { RepeatFits(k - 1, labels, slots); }
  }

  lemma DropsFit(n: nat, c: Code, slots: nat)
    requires AllFit(c, slots) && n <= 3 * |c.l|
    ensures AllFit(DropItems(n, c), slots)
  {
    hide AllFit;
    RepeatFits(n, |c.l|, slots);
    OpsFit(c, if n < 4 then Repeat(Drop, n) else [Push(n), Pack, Drop], slots);
  }

  // ----- expressions -----

  lemma {:induction false} WalkFits(e: Expr, c: Code, slots: nat)
    requires AllFit(c, slots) && ExprFits(e, slots)
    ensures AllFit(Walk(e, c), slots)
    decreases e, 1
  {
    hide AllFit, EmitBinaryExpr;
    match e
    case Nil => OpFits(c, PushNull, slots);
    case IntLit(n) => OpFits(c, Push(n), slots);
    case BoolLit(b) => OpsFit(c, [Push(if b then 1 else 0), ToBool], slots);
    case Var(x) => OpFits(c, Load(x), slots);
    case Call(f) => OpFits(c, Perform(f), slots);
    case Negated(e') =>
      WalkFits(e', c, slots);
      OpFits(Walk(e', c), Not, slots);
    case Parens(e') => WalkFits(e', c, slots);
    case _ => BinaryFits(e, false, false, 0, c, slots);
  }

  lemma {:induction false} BoolFits(e: Expr, needJump: bool, cond: bool, lab: nat, c: Code, slots: nat)
    requires AllFit(c, slots) && ExprFits(e, slots)
    ensures AllFit(EmitBoolExpr(e, needJump, cond, lab, c), slots)
    decreases e, 2
  {
    hide AllFit, EmitBinaryExpr, Walk;
    if IsBinary(e) {
      BinaryFits(e, needJump, cond, lab, c, slots);
    } else {
      WalkFits(e, c, slots);
      if needJump { OpFits(Walk(e, c), Jump(if cond then IfTrue else IfFalse, lab), slots); }
    }
  }

  lemma {:induction false} OperandsFit(e: Expr, x: Expr, y: Expr, i: Instr, c: Code, slots: nat)
    requires AllFit(c, slots) && x < e && y < e && ExprFits(x, slots) && ExprFits(y, slots)
    requires i.Jump? || i.Test? || i.Same? || i.Arith?
    ensures AllFit(Op(Walk(y, Walk(x, c)), i), slots)
    decreases e, 0, 0
  {
    hide AllFit, Walk;
    WalkFits(x, c, slots);
    WalkFits(y, Walk(x, c), slots);
    OpFits(Walk(y, Walk(x, c)), i, slots);
  }

  lemma {:induction false} BinaryFits(e: Expr, needJump: bool, cond: bool, lab: nat, c: Code, slots: nat)
    requires AllFit(c, slots) && IsBinary(e) && ExprFits(e, slots)
    ensures AllFit(EmitBinaryExpr(e, needJump, cond, lab, c), slots)
    decreases e, 0, 1
  {
    hide AllFit, Walk, EmitShortCircuit;
    match e
    case NilTest(equal, e') =>
      var d := Op(Walk(e', c), IsNull);
      WalkFits(e', c, slots);
      OpFits(Walk(e', c), IsNull, slots);
      if needJump {
        OpFits(d, Jump(if cond == equal then IfTrue else IfFalse, lab), slots);
      } else {
        OpFits(d, Not, slots);
      }
    case And(x, y) => ShortFits(false, e, x, y, needJump, cond, lab, c, slots);
    case Or(x, y) => ShortFits(true, e, x, y, needJump, cond, lab, c, slots);
    case Numeric(r, x, y) =>
      OperandsFit(e, x, y, if needJump then Jump(Compared(if cond then r else NegateRelation(r)), lab) else Test(r), c,
                  slots);
    case BoolEqual(negated, x, y) =>
      OperandsFit(e, x, y, Same(negated), c, slots);
      if needJump {
        OpFits(Op(Walk(y, Walk(x, c)), Same(negated)), Jump(if cond then IfTrue else IfFalse, lab), slots);
      }
    case Binary(a, x, y) =>
      OperandsFit(e, x, y, Arith(a), c, slots);
      if needJump { OpFits(Op(Walk(y, Walk(x, c)), Arith(a)), Jump(if cond then IfTrue else IfFalse, lab), slots); }
  }

  lemma {:induction false} ShortFits(condShort: bool, e: Expr, x: Expr, y: Expr, needJump: bool, cond: bool, lab: nat,
                                     c: Code, slots: nat)
    requires AllFit(c, slots) && x < e && y < e && ExprFits(x, slots) && ExprFits(y, slots)
    ensures AllFit(EmitShortCircuit(condShort, e, x, y, needJump, cond, lab, c), slots)
    decreases e, 0, 0
  {
    hide AllFit, EmitBoolExpr, Extends;
    var end := |c.l|;
    var c0 := NewLabel(c);
    LabelsFit(c, c0, slots);
    if needJump {
      var first := if cond == condShort then lab else end;
      var c1 := EmitBoolExpr(x, true, condShort, first, c0);
      var c2 := EmitBoolExpr(y, true, cond, lab, c1);
      Sizes(c0, c1);
      Sizes(c1, c2);
      BoolFits(x, true, condShort, first, c0, slots);
      BoolFits(y, true, cond, lab, c1, slots);
      LabelsFit(c2, SetLabel(c2, end), slots);
    } else {
      ShortValueFits(condShort, e, x, y, cond, lab, c, slots);
    }
  }

  lemma {:induction false} ShortValueFits(condShort: bool, e: Expr, x: Expr, y: Expr, cond: bool, lab: nat, c: Code,
                                          slots: nat)
    requires AllFit(c, slots) && x < e && y < e && ExprFits(x, slots) && ExprFits(y, slots)
    ensures AllFit(EmitShortCircuit(condShort, e, x, y, false, cond, lab, c), slots)
    decreases e, 0, 0, 0
  {
    hide AllFit, EmitBoolExpr, Extends;
    var end, push := |c.l|, |c.l| + 1;
    var c0 := NewLabel(NewLabel(c));
    LabelsFit(c, c0, slots);
    var c1 := EmitBoolExpr(x, true, condShort, push, c0);
    var c2 := EmitBoolExpr(y, false, false, 0, c1);
    Sizes(c0, c1);
    Sizes(c1, c2);
    BoolFits(x, true, condShort, push, c0, slots);
    BoolFits(y, false, false, 0, c1, slots);
    var c3 := Op(c2, Jump(Always, end));
    OpFits(c2, Jump(Always, end), slots);
    var c4 := SetLabel(c3, push);
    LabelsFit(c3, c4, slots);
    OpsFit(c4, [Push(if condShort then 1 else 0), ToBool], slots);
    var c5 := PushBool(c4, condShort);
    LabelsFit(c5, SetLabel(c5, end), slots);
  }

  // ----- statements -----

  lemma SimpleFits(s: Stmt, x: Context, c: Code, slots: nat)
    requires AllFit(c, slots) && Simple(s) && StmtFits(s, slots)
    ensures AllFit(EmitStmt(s, x, c), slots)
  {
    hide AllFit, Walk;
    match s
    case Skip =>
    case Assign(v, e) =>
      WalkFits(e, c, slots);
      OpFits(Walk(e, c), Store(v), slots);
    case IncDec(v, up) => OpsFit(c, [Load(v), if up then Inc else Dec, Store(v)], slots);
    case Invoke(f) => OpsFit(c, [Perform(f), Drop], slots);
  }

  lemma BranchFits(name: Option<nat>, brk: bool, x: Context, c: Code, slots: nat)
    requires AllFit(c, slots) && Shallow(x, |c.l|)
    ensures AllFit(EmitBranch(name, brk, x, c), slots)
  {
    hide AllFit, DropItems, Above;
    var nm := if name.Some? then User(name.value) else if brk then x.currentSwitch else x.currentFor;
    var t := Named(x.scopes, nm);
    AboveBound(x.scopes, t);
    DropsFit(Above(x.scopes, t), c, slots);
    var lab := if t < 0 then 0 else if brk then x.scopes[t].end else x.scopes[t].post;
    OpFits(DropItems(Above(x.scopes, t), c), Jump(Always, lab), slots);
  }

  lemma ReturnFits(result: Option<Expr>, x: Context, c: Code, slots: nat)
    requires AllFit(c, slots) && Shallow(x, |c.l|) && OptionFits(result, slots)
    ensures AllFit(EmitStmt(Return(result), x, c), slots)
  {
    hide AllFit, DropItems, Above, Walk;
    var c0 := SetLabel(NewLabel(c), |c.l|);
    LabelsFit(c, c0, slots);
    var c1 := DropItems(Above(x.scopes, -1), c0);
    DropsFit(Above(x.scopes, -1), c0, slots);
    if result.Some? { WalkFits(result.value, c1, slots); }
    OpFits(if result.None? then c1 else Walk(result.value, c1), Ret, slots);
  }

  /** The operands of a statement's code fit when those of the statement do. */
  lemma {:induction false} EmittedFits(s: Stmt, x: Context, c: Code, slots: nat)
    requires AllFit(c, slots) && Shallow(x, |c.l|) && StmtFits(s, slots) && Legal(s, Frames(x.scopes))
    ensures AllFit(EmitStmt(s, x, c), slots)
    decreases s, 1
  {
    hide AllFit, Shallow, EmitIf, EmitFor, EmitRange, EmitSwitch, EmitBranch, Walk, DropItems, Above, Frames, Target;
    match s
    case Seq(a, b) =>
      EmittedFits(a, x, c, slots);
      StaysShallow(x, |c.l|, |EmitStmt(a, x, c).l|);
      EmittedFits(b, x, EmitStmt(a, x, c), slots);
    case If(_, _, _, _) => IfFits(s, x, c, slots);
    case For(_, _, _, _, _) => ForFits(s, x, c, slots);
    case Range(_, _, _, _, _) => RangeFits(s, x, c, slots);
    case Switch(_, _, _, _) => SwitchFits(s, x, c, slots);
    case Break(name) => BranchFits(name, true, x, c, slots);
    case Continue(name) => BranchFits(name, false, x, c, slots);
    case Return(result) => ReturnFits(result, x, c, slots);
    case _ => SimpleFits(s, x, c, slots);
  }

  lemma StaysShallow(x: Context, n: nat, n': nat)
    requires Shallow(x, n) && n <= n'
    ensures Shallow(x, n')
  {}

  lemma ShallowInside(x: Context, sc: Scope, n: nat, n': nat)
    requires Shallow(x, n) && n < n' && sc.size <= 3
    ensures Shallow(Inside(x, sc), n') && Frames(Inside(x, sc).scopes) == Frames(x.scopes) + [sc.frame]
  {
    hide Above, Frames;
    AboveInside(x.scopes, sc, -1);
    FramesInside(x.scopes, sc);
  }

  lemma {:induction false} IfFits(s: Stmt, x: Context, c: Code, slots: nat)
    requires AllFit(c, slots) && Shallow(x, |c.l|) && StmtFits(s, slots) && Legal(s, Frames(x.scopes)) && s.If?
    ensures AllFit(EmitIf(s, x, c), slots)
    decreases s, 0
  {
    hide AllFit, Shallow, EmitStmt, EmitBoolExpr, NewLabels, Frames;
    var n := |c.l|;
    var c0 := NewLabels(c, 3);
    var c1 := EmitStmt(s.init, x, c0);
    var c2 := EmitBoolExpr(s.cond, true, false, n + 1, c1);
    var c2' := SetLabel(c2, n);
    var c3 := EmitStmt(s.body, x, c2');
    LabelsFit(c, c0, slots);
    SimpleFits(s.init, x, c0, slots);
    BoolFits(s.cond, true, false, n + 1, c1, slots);
    LabelsFit(c2, c2', slots);
    StaysShallow(x, n, |c2'.l|);
    EmittedFits(s.body, x, c2', slots);
    if s.otherwise.None? {
      LabelsFit(c3, EmitIf(s, x, c), slots);
    } else {
      var j := Op(c3, Jump(Always, n + 2));
      var c4 := SetLabel(j, n + 1);
      OpFits(c3, Jump(Always, n + 2), slots);
      LabelsFit(j, c4, slots);
      StaysShallow(x, n, |c4.l|);
      EmittedFits(s.otherwise.value, x, c4, slots);
      var c5 := EmitStmt(s.otherwise.value, x, c4);
      LabelsFit(c5, SetLabel(c5, n + 2), slots);
    }
  }

  lemma GuardFits(guard: Option<Expr>, end: nat, c: Code, slots: nat)
    requires AllFit(c, slots) && OptionFits(guard, slots)
    ensures AllFit(EmitGuard(guard, end, c), slots)
  {
    hide AllFit, Walk;
    if guard.Some? {
      WalkFits(guard.value, c, slots);
      OpFits(Walk(guard.value, c), Jump(IfFalse, end), slots);
    }
  }

  lemma {:induction false} ForFits(s: Stmt, x: Context, c: Code, slots: nat)
    requires AllFit(c, slots) && Shallow(x, |c.l|) && StmtFits(s, slots) && Legal(s, Frames(x.scopes)) && s.For?
    ensures AllFit(EmitFor(s, x, c), slots)
    decreases s, 0
  {
    hide AllFit, Shallow, EmitStmt, EmitGuard, NewLabels, DropItems, Frames;
    var n := |c.l|;
    var sc := LoopScope(s.lbl, 0, c);
    var x' := x.(currentFor := sc.name, currentSwitch := sc.name);
    var c0 := NewLabels(c, 3);
    var i := EmitStmt(s.init, x', c0);
    var h := SetLabel(i, n);
    var g := EmitGuard(s.guard, n + 1, h);
    var b := EmitStmt(s.body, Inside(x, sc), g);
    var b' := SetLabel(b, n + 2);
    var q := EmitStmt(s.post, Inside(x, sc), b');
    var t := Op(q, Jump(Always, n));
    LabelsFit(c, c0, slots);
    SimpleFits(s.init, x', c0, slots);
    LabelsFit(i, h, slots);
    GuardFits(s.guard, n + 1, h, slots);
    ShallowInside(x, sc, n, |g.l|);
    EmittedFits(s.body, Inside(x, sc), g, slots);
    LabelsFit(b, b', slots);
    SimpleFits(s.post, Inside(x, sc), b', slots);
    OpFits(q, Jump(Always, n), slots);
    LabelsFit(t, SetLabel(t, n + 1), slots);
    DropsFit(0, SetLabel(t, n + 1), slots);
  }

  lemma BindingsFit(key: Option<nat>, val: Option<nat>, c: Code, slots: nat)
    requires AllFit(c, slots) && SlotFits(key, slots) && SlotFits(val, slots)
    ensures AllFit(EmitValue(val, EmitKey(key, c)), slots)
  {
    hide AllFit;
    if key.Some? { OpsFit(c, [Dup, Store(key.value)], slots); }
    if val.Some? { OpsFit(EmitKey(key, c), [Push(2), Pick, Over, PickItem, Store(val.value)], slots); }
  }

  lemma {:induction false} RangeFits(s: Stmt, x: Context, c: Code, slots: nat)
    requires AllFit(c, slots) && Shallow(x, |c.l|) && StmtFits(s, slots) && Legal(s, Frames(x.scopes)) && s.Range?
    ensures AllFit(EmitRange(s, x, c), slots)
    decreases s, 0
  {
    hide AllFit, Shallow, EmitStmt, Walk, NewLabels, DropItems, EmitKey, EmitValue, Frames;
    var n := |c.l|;
    var sc := LoopScope(s.lbl, 3, c);
    var c0 := NewLabels(c, 3);
    var v := Walk(s.over, c0);
    var i := Ops(v, [Dup, Size, Push(0)]);
    var h := SetLabel(i, n);
    var t := Ops(h, [Over, Over, Jump(Compared(Le), n + 1)]);
    var g := EmitValue(s.val, EmitKey(s.key, t));
    BindingsExtend(s.key, s.val, t);
    var b := EmitStmt(s.body, Inside(x, sc), g);
    var b' := SetLabel(b, n + 2);
    var q := Ops(b', [Inc, Jump(Always, n)]);
    LabelsFit(c, c0, slots);
    WalkFits(s.over, c0, slots);
    OpsFit(v, [Dup, Size, Push(0)], slots);
    LabelsFit(i, h, slots);
    OpsFit(h, [Over, Over, Jump(Compared(Le), n + 1)], slots);
    BindingsFit(s.key, s.val, t, slots);
    ShallowInside(x, sc, n, |g.l|);
    EmittedFits(s.body, Inside(x, sc), g, slots);
    LabelsFit(b, b', slots);
    OpsFit(b', [Inc, Jump(Always, n)], slots);
    LabelsFit(q, SetLabel(q, n + 1), slots);
    DropsFit(3, SetLabel(q, n + 1), slots);
  }

  // ----- switches -----

  lemma {:induction false} CasesFit(cases: seq<Expr>, lStart: nat, lEnd: nat, numeric: bool, c: Code, slots: nat)
    requires AllFit(c, slots) && forall i :: 0 <= i < |cases| ==> ExprFits(cases[i], slots)
    ensures AllFit(EmitCases(cases, lStart, lEnd, EqualOp(numeric), c), slots)
    decreases |cases|
  {
    hide AllFit, Walk;
    if cases != [] {
      var eq := EqualOp(numeric);
      var m := Walk(cases[0], Op(c, Dup));
      var c1 := Op(m, eq);
      OpFits(c, Dup, slots);
      WalkFits(cases[0], Op(c, Dup), slots);
      OpFits(m, eq, slots);
      if |cases| == 1 {
        OpFits(c1, Jump(IfFalse, lEnd), slots);
      } else {
        OpFits(c1, Jump(IfTrue, lStart), slots);
        CasesFit(cases[1..], lStart, lEnd, numeric, Op(c1, Jump(IfTrue, lStart)), slots);
      }
    }
  }

  lemma {:induction false} ClausesCodeFits(cs: Clauses, lStart: nat, end: nat, numeric: bool, x: Context, c: Code,
                                           slots: nat)
    requires lStart + Count(cs) <= |c.l| && AllFit(c, slots) && Shallow(x, |c.l|)
    requires ClausesFit(cs, slots) && LegalClauses(cs, Frames(x.scopes))
    ensures AllFit(EmitClauses(cs, lStart, end, EqualOp(numeric), x, c), slots)
    decreases cs
  {
    hide AllFit, Shallow, EmitStmt, EmitCases, Frames;
    if cs.Clause? {
      var n := |c.l|;
      var a := EmitCases(cs.cases, lStart, n, EqualOp(numeric), NewLabel(c));
      var a' := SetLabel(a, lStart);
      var b := EmitStmt(cs.body, x, a');
      var f := if cs.falls then Op(b, Jump(Always, lStart + 1)) else b;
      var z := Op(f, Jump(Always, end));
      LabelsFit(c, NewLabel(c), slots);
      CasesFit(cs.cases, lStart, n, numeric, NewLabel(c), slots);
      LabelsFit(a, a', slots);
      StaysShallow(x, n, |a'.l|);
      EmittedFits(cs.body, x, a', slots);
      if cs.falls { OpFits(b, Jump(Always, lStart + 1), slots); }
      OpFits(f, Jump(Always, end), slots);
      var z' := SetLabel(z, n);
      LabelsFit(z, z', slots);
      StaysShallow(x, n, |z'.l|);
      ClausesCodeFits(cs.next, lStart + 1, end, numeric, x, z', slots);
    }
  }

  lemma {:induction false} SwitchFits(s: Stmt, x: Context, c: Code, slots: nat)
    requires AllFit(c, slots) && Shallow(x, |c.l|) && StmtFits(s, slots) && Legal(s, Frames(x.scopes)) && s.Switch?
    ensures AllFit(EmitSwitch(s, x, c), slots)
    decreases s, 0
  {
    hide AllFit, Shallow, NewLabels, DropItems, EmitTag, EmitClauses, Places, Frames;
    var c1 := EmitTag(s.tag, c);
    var n, k := |c1.l|, Count(s.clauses);
    var sc := SwitchScope(s.lbl, c1);
    var c2 := NewLabels(NewLabel(c1), k);
    var f := EmitClauses(s.clauses, n + 1, n, EqualOp(s.numeric), Inside(x, sc), c2);
    TagFits(s.tag, c, slots);
    LabelsFit(c1, c2, slots);
    ShallowInside(x, sc, |c.l|, |c2.l|);
    ClausesCodeFits(s.clauses, n + 1, n, s.numeric, Inside(x, sc), c2, slots);
    PlacesSizes(c2, f, n + 1, n + 1 + k);
    LabelsFit(f, SetLabel(f, n), slots);
    DropsFit(1, SetLabel(f, n), slots);
  }

  lemma TagFits(tag: Option<Expr>, c: Code, slots: nat)
    requires AllFit(c, slots) && OptionFits(tag, slots)
    ensures AllFit(EmitTag(tag, c), slots)
  {
    hide AllFit, Walk;
    if tag.None? { OpsFit(c, [Push(1), ToBool], slots); } else { WalkFits(tag.value, c, slots); }
  }

  lemma BodyFits(s: Stmt, slots: nat)
    requires Legal(s, []) && StmtFits(s, slots)
    ensures AllFit(EmitBody(s), slots)
  {
    hide EmitStmt, Legal, StmtFits, AllFit;
    var x, c := Context([], Unnamed, Unnamed), Code([], []);
    assert Frames(x.scopes) == [];
    assert AllFit(c, slots) by { NothingToFit(slots); }
    EmittedFits(s, x, c, slots);
    OpFits(EmitStmt(s, x, c), Ret, slots);
  }

  lemma NothingToFit(slots: nat)
    ensures AllFit(Code([], []), slots)
  {}
}
