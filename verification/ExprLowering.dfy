/**
 * Expressions: short-circuit operators, comparisons and nil tests become value code or jumps (pkg/compiler/codegen.go).
 */
module ExprLowering {
  import opened StackCode

  datatype Expr =
    | Nil
    | IntLit(n: int)
    | BoolLit(b: bool)
    | Var(slot: nat)
    | Call(f: nat)
    | Negated(e: Expr)
    | Parens(e: Expr)
    | Binary(a: ArithOp, x: Expr, y: Expr)
    | Numeric(r: Relation, x: Expr, y: Expr)
    | BoolEqual(negated: bool, x: Expr, y: Expr)
    | NilTest(equal: bool, e: Expr)
    | And(x: Expr, y: Expr)
    | Or(x: Expr, y: Expr)

  // ----- meaning -----

  /** A value and the calls made to get it; ill-typed expressions have none. */
  datatype Result = Fine(v: Value, trace: seq<nat>) | Wrong

  function Eval(w: World, e: Expr, env: Locals, tr: seq<nat>): Result {
    match e
    case Nil => Fine(Null, tr)
    case IntLit(n) => Fine(Int(n), tr)
    case BoolLit(b) => Fine(Bool(b), tr)
    case Var(x) => Fine(Get(env, x), tr)
    case Call(f) => Fine(w(f, tr), tr + [f])
    case Parens(e') => Eval(w, e', env, tr)
    case Negated(e') =>
      var r := Eval(w, e', env, tr);
      if r.Fine? && r.v.Bool? then Fine(Bool(!r.v.b), r.trace) else Wrong
    case NilTest(equal, e') =>
      var r := Eval(w, e', env, tr);
      if r.Fine? then Fine(Bool(r.v.Null? == equal), r.trace) else Wrong
    case Binary(a, x, y) =>
      var r := Eval(w, x, env, tr);
      if !(r.Fine? && r.v.Int?) then Wrong
      else
        var s := Eval(w, y, env, r.trace);
        if s.Fine? && s.v.Int? && IsInt256(Compute(a, r.v.n, s.v.n)) then Fine(Int(Compute(a, r.v.n, s.v.n)), s.trace)
        else Wrong
    case Numeric(rel, x, y) =>
      var r := Eval(w, x, env, tr);
      if !(r.Fine? && r.v.Int?) then Wrong
      else
        var s := Eval(w, y, env, r.trace);
        if s.Fine? && s.v.Int? then Fine(Bool(Holds(rel, r.v.n, s.v.n)), s.trace) else Wrong
    case BoolEqual(negated, x, y) =>
      var r := Eval(w, x, env, tr);
      if !(r.Fine? && r.v.Bool?) then Wrong
      else
        var s := Eval(w, y, env, r.trace);
        if s.Fine? && s.v.Bool? then Fine(Bool((r.v.b == s.v.b) != negated), s.trace) else Wrong
    case And(x, y) =>
      var r := Eval(w, x, env, tr);
      if !(r.Fine? && r.v.Bool?) then Wrong
      else if !r.v.b then Fine(Bool(false), r.trace)
      else
        var s := Eval(w, y, env, r.trace);
        if s.Fine? && s.v.Bool? then s else Wrong
    case Or(x, y) =>
      var r := Eval(w, x, env, tr);
      if !(r.Fine? && r.v.Bool?) then Wrong
      else if r.v.b then Fine(Bool(true), r.trace)
      else
        var s := Eval(w, y, env, r.trace);
        if s.Fine? && s.v.Bool? then s else Wrong
  }

  // ----- emission -----

  predicate IsBinary(e: Expr) {
    e.Binary? || e.Numeric? || e.BoolEqual? || e.NilTest? || e.And? || e.Or?
  }

  function EmitJumpOnCondition(cond: bool, lab: nat, c: Code): Code {
    Op(c, Jump(if cond then IfTrue else IfFalse, lab))
  }

  function NegateRelation(r: Relation): (n: Relation)
    ensures forall a, b :: Holds(n, a, b) <==> !Holds(r, a, b)
  {
    match r
    case Eq => Ne
    case Ne => Eq
    case Gt => Le
    case Ge => Lt
    case Le => Gt
    case Lt => Ge
  }

  /** Code that pushes the value of e. */
  function Walk(e: Expr, c: Code): (d: Code)
    ensures Extends(c, d)
    decreases e, 1
  {
    match e
    case Nil => Op(c, PushNull)
    case IntLit(n) => Op(c, Push(n))
    case BoolLit(b) => PushBool(c, b)
    case Var(x) => Op(c, Load(x))
    case Call(f) => Op(c, Perform(f))
    case Negated(e') => Op(Walk(e', c), Not)
    case Parens(e') => Walk(e', c)
    case _ => EmitBinaryExpr(e, false, false, 0, c)
  }

  /** With needJump, code that jumps to lab when e equals cond and leaves nothing; otherwise code that pushes e. */
  function EmitBoolExpr(e: Expr, needJump: bool, cond: bool, lab: nat, c: Code): (d: Code)
    ensures Extends(c, d)
    decreases e, 2
  {
    if IsBinary(e) then EmitBinaryExpr(e, needJump, cond, lab, c)
    else if needJump then EmitJumpOnCondition(cond, lab, Walk(e, c))
    else Walk(e, c)
  }

  function EmitBinaryExpr(e: Expr, needJump: bool, cond: bool, lab: nat, c: Code): (r: Code)
    requires IsBinary(e)
    ensures Extends(c, r)
    decreases e, 0
  {
    match e
    case NilTest(equal, e') =>
      var d := Op(Walk(e', c), IsNull);
      if needJump then EmitJumpOnCondition(cond == equal, lab, d)
      else if !equal then Op(d, Not) else d
    case And(x, y) => EmitShortCircuit(false, e, x, y, needJump, cond, lab, c)
    case Or(x, y) => EmitShortCircuit(true, e, x, y, needJump, cond, lab, c)
    case Numeric(r, x, y) =>
      var d := Walk(y, Walk(x, c));
      if needJump then Op(d, Jump(Compared(if cond then r else NegateRelation(r)), lab)) else Op(d, Test(r))
    case BoolEqual(negated, x, y) =>
      var d := Op(Walk(y, Walk(x, c)), Same(negated));
      if needJump then EmitJumpOnCondition(cond, lab, d) else d
    case Binary(a, x, y) =>
      var d := Op(Walk(y, Walk(x, c)), Arith(a));
      if needJump then EmitJumpOnCondition(cond, lab, d) else d
  }

  /** condShort is the operand value that settles the result: true for ||, false for &&. */
  function EmitShortCircuit(condShort: bool, ghost e: Expr, x: Expr, y: Expr, needJump: bool, cond: bool, lab: nat,
                            c: Code): (d: Code)
    requires x < e && y < e
    ensures Extends(c, d)
    decreases e, 0, 0
  {
    var end := |c.l|;
    var c0 := NewLabel(c);
    if needJump then
      var c1 := EmitBoolExpr(x, true, condShort, if cond == condShort then lab else end, c0);
      var c2 := EmitBoolExpr(y, true, cond, lab, c1);
      SetLabel(c2, end)
    else
      var push := |c0.l|;
      var c1 := EmitBoolExpr(x, true, condShort, push, NewLabel(c0));
      var c2 := Op(EmitBoolExpr(y, false, false, 0, c1), Jump(Always, end));
      SetLabel(PushBool(SetLabel(c2, push), condShort), end)
  }

  // ----- correctness -----

  /** The run of value code for e: its value is on top, everything below and the locals are as before. */
  ghost predicate Pushes(w: World, p: seq<Instr>, l: seq<int>, c: Code, d: Code, r: Result,
                         stack: seq<Value>, env: Locals, tr: seq<nat>) {
    r.Fine? && Reaches(w, p, l, At(|c.prog|, stack, env, tr), At(|d.prog|, stack + [r.v], env, r.trace))
  }

  /** The run of jump code for e: nothing is left on the stack, and the label is taken exactly when e equals cond. */
  ghost predicate Branches(w: World, p: seq<Instr>, l: seq<int>, c: Code, d: Code, r: Result, cond: bool, lab: nat,
                           stack: seq<Value>, env: Locals, tr: seq<nat>) {
    r.Fine? && r.v.Bool? && lab < |l|
    && Reaches(w, p, l, At(|c.prog|, stack, env, tr),
               At(if r.v.b == cond then l[lab] else |d.prog|, stack, env, r.trace))
  }

  /** One instruction applied to the pushed value. */
  lemma UnaryRuns(w: World, p: seq<Instr>, l: seq<int>, c: Code, d: Code, r: Result, i: Instr, v: Value,
                  stack: seq<Value>, env: Locals, tr: seq<nat>)
    requires Pushes(w, p, l, c, d, r, stack, env, tr) && Op(d, i).prog <= p
    requires Exec1(w, i, l, At(|d.prog|, stack + [r.v], env, r.trace)) == At(|d.prog| + 1, stack + [v], env, r.trace)
    ensures Pushes(w, p, l, c, Op(d, i), Fine(v, r.trace), stack, env, tr)
  {
    hide Exec1;
    ThenOp(w, p, l, At(|c.prog|, stack, env, tr), d, i, At(|d.prog|, stack + [r.v], env, r.trace));
  }

  /** A pushed truth value followed by a conditional jump. */
  lemma JumpRuns(w: World, p: seq<Instr>, l: seq<int>, c: Code, d: Code, r: Result, cond: bool, lab: nat,
                 stack: seq<Value>, env: Locals, tr: seq<nat>)
    requires Pushes(w, p, l, c, d, r, stack, env, tr) && r.v.Bool? && lab < |l|
    requires EmitJumpOnCondition(cond, lab, d).prog <= p
    ensures Branches(w, p, l, c, EmitJumpOnCondition(cond, lab, d), r, cond, lab, stack, env, tr)
  {
    var i := Jump(if cond then IfTrue else IfFalse, lab);
    var k := At(|d.prog|, stack + [r.v], env, r.trace);
    ThenOp(w, p, l, At(|c.prog|, stack, env, tr), d, i, k);
    assert k.stack[..|k.stack| - 1] == stack;
    assert Exec1(w, i, l, k) == At(if r.v.b == cond then l[lab] else |d.prog| + 1, stack, env, r.trace);
  }

  /** Two operands, one after the other. */
  lemma OperandsRun(w: World, p: seq<Instr>, l: seq<int>, c: Code, c1: Code, c2: Code, r: Result, s: Result,
                    stack: seq<Value>, env: Locals, tr: seq<nat>)
    requires Pushes(w, p, l, c, c1, r, stack, env, tr) && Pushes(w, p, l, c1, c2, s, stack + [r.v], env, r.trace)
    ensures Reaches(w, p, l, At(|c.prog|, stack, env, tr), At(|c2.prog|, stack + [r.v, s.v], env, s.trace))
  {
    assert stack + [r.v] + [s.v] == stack + [r.v, s.v];
    ReachesThrough(w, p, l, At(|c.prog|, stack, env, tr), At(|c1.prog|, stack + [r.v], env, r.trace),
                   At(|c2.prog|, stack + [r.v, s.v], env, s.trace));
  }

  /** An operator applied to two pushed operands. */
  lemma BinaryRuns(w: World, p: seq<Instr>, l: seq<int>, c: Code, d: Code, a: Value, b: Value, i: Instr, v: Value,
                   stack: seq<Value>, env: Locals, tr: seq<nat>, tr': seq<nat>)
    requires Reaches(w, p, l, At(|c.prog|, stack, env, tr), At(|d.prog|, stack + [a, b], env, tr')) &&
             Op(d, i).prog <= p
    requires || (i.Arith? && a.Int? && b.Int? && IsInt256(Compute(i.a, a.n, b.n)) && v == Int(Compute(i.a, a.n, b.n)))
             || (i.Test? && a.Int? && b.Int? && v == Bool(Holds(i.r, a.n, b.n)))
             || (i.Same? && a.Bool? && b.Bool? && v == Bool((a.b == b.b) != i.negated))
    ensures Pushes(w, p, l, c, Op(d, i), Fine(v, tr'), stack, env, tr)
  {
    var k := At(|d.prog|, stack + [a, b], env, tr');
    ThenOp(w, p, l, At(|c.prog|, stack, env, tr), d, i, k);
    assert k.stack[..|k.stack| - 2] == stack;
    assert Exec1(w, i, l, k) == At(|d.prog| + 1, stack + [v], env, tr');
  }

  /** A comparison that is itself a jump. */
  lemma CompareJumpRuns(w: World, p: seq<Instr>, l: seq<int>, c: Code, d: Code, a: int, b: int, r: Relation, cond: bool,
                        lab: nat, stack: seq<Value>, env: Locals, tr: seq<nat>, tr': seq<nat>)
    requires Reaches(w, p, l, At(|c.prog|, stack, env, tr), At(|d.prog|, stack + [Int(a), Int(b)], env, tr')) &&
             lab < |l|
    requires Op(d, Jump(Compared(if cond then r else NegateRelation(r)), lab)).prog <= p
    ensures Branches(w, p, l, c, Op(d, Jump(Compared(if cond then r else NegateRelation(r)), lab)),
                     Fine(Bool(Holds(r, a, b)), tr'), cond, lab, stack, env, tr)
  {
    var rel := if cond then r else NegateRelation(r);
    var i := Jump(Compared(rel), lab);
    var k := At(|d.prog|, stack + [Int(a), Int(b)], env, tr');
    ThenOp(w, p, l, At(|c.prog|, stack, env, tr), d, i, k);
    assert k.stack[..|k.stack| - 2] == stack;
    assert Holds(NegateRelation(r), a, b) <==> !Holds(r, a, b);
    assert Exec1(w, i, l, k) == At(if Holds(rel, a, b) then l[lab] else |d.prog| + 1, stack, env, tr');
  }

  /** The emitted code is part of the program, and its labels are where emission put them. */
  ghost predicate Placed(p: seq<Instr>, l: seq<int>, c: Code, d: Code) { Extends(c, d) && Within(p, l, c, d) }

  /** Code emitted by two steps is in place step by step. */
  lemma PlacedParts(p: seq<Instr>, l: seq<int>, c: Code, m: Code, d: Code)
    requires Within(p, l, c, d) && Extends(c, m) && Extends(m, d)
    ensures Placed(p, l, c, m) && Placed(p, l, m, d)
  {}

  /** A single instruction that pushes a value. */
  lemma LeafRuns(w: World, p: seq<Instr>, l: seq<int>, c: Code, i: Instr, r: Result,
                 stack: seq<Value>, env: Locals, tr: seq<nat>)
    requires Op(c, i).prog <= p && r.Fine?
    requires || (i == PushNull && r == Fine(Null, tr))
             || (i.Push? && r == Fine(Int(i.n), tr))
             || (i.Load? && r == Fine(Get(env, i.x), tr))
             || (i.Perform? && r == Fine(w(i.call, tr), tr + [i.call]))
    ensures Pushes(w, p, l, c, Op(c, i), r, stack, env, tr)
  {
    var k := At(|c.prog|, stack, env, tr);
    RunOp(w, p, l, c, i, k);
    assert stack[..|stack| - 0] == stack;
  }

  /** Negation of a pushed truth value, and the test for null. */
  lemma NotRuns(w: World, p: seq<Instr>, l: seq<int>, c: Code, d: Code, r: Result, stack: seq<Value>, env: Locals,
                tr: seq<nat>)
    requires Pushes(w, p, l, c, d, r, stack, env, tr) && r.v.Bool? && Op(d, Not).prog <= p
    ensures Pushes(w, p, l, c, Op(d, Not), Fine(Bool(!r.v.b), r.trace), stack, env, tr)
  {
    assert (stack + [r.v])[..|stack|] == stack;
    UnaryRuns(w, p, l, c, d, r, Not, Bool(!r.v.b), stack, env, tr);
  }

  lemma IsNullRuns(w: World, p: seq<Instr>, l: seq<int>, c: Code, d: Code, r: Result, stack: seq<Value>, env: Locals,
                   tr: seq<nat>)
    requires Pushes(w, p, l, c, d, r, stack, env, tr) && Op(d, IsNull).prog <= p
    ensures Pushes(w, p, l, c, Op(d, IsNull), Fine(Bool(r.v.Null?), r.trace), stack, env, tr)
  {
    assert (stack + [r.v])[..|stack|] == stack;
    UnaryRuns(w, p, l, c, d, r, IsNull, Bool(r.v.Null?), stack, env, tr);
  }

  /** The value form: the code for e pushes exactly its value, having made exactly its calls. */
  lemma {:induction false} WalkRuns(w: World, p: seq<Instr>, l: seq<int>, e: Expr, c: Code,
                                    stack: seq<Value>, env: Locals, tr: seq<nat>)
    requires Within(p, l, c, Walk(e, c)) && Eval(w, e, env, tr).Fine?
    ensures Pushes(w, p, l, c, Walk(e, c), Eval(w, e, env, tr), stack, env, tr)
    decreases e, 2
  {
    hide Exec1, Pushes, Within, EmitBinaryExpr;
    match e
    case Nil => PlacedCode(p, l, c, Walk(e, c)); LeafRuns(w, p, l, c, PushNull, Fine(Null, tr), stack, env, tr);
    case IntLit(n) => PlacedCode(p, l, c, Walk(e, c)); LeafRuns(w, p, l, c, Push(n), Fine(Int(n), tr), stack, env, tr);
    case BoolLit(b) =>
      PlacedCode(p, l, c, Walk(e, c));
      PushBoolPushes(w, p, l, c, b, stack, env, tr);
    case Var(x) =>
      PlacedCode(p, l, c, Walk(e, c));
      LeafRuns(w, p, l, c, Load(x), Fine(Get(env, x), tr), stack, env, tr);
    case Call(f) =>
      PlacedCode(p, l, c, Walk(e, c));
      LeafRuns(w, p, l, c, Perform(f), Fine(w(f, tr), tr + [f]), stack, env, tr);
    case Negated(e') =>
      PlacedParts(p, l, c, Walk(e', c), Walk(e, c));
      PlacedCode(p, l, c, Walk(e, c));
      WalkRuns(w, p, l, e', c, stack, env, tr);
      NotRuns(w, p, l, c, Walk(e', c), Eval(w, e', env, tr), stack, env, tr);
    case Parens(e') => WalkRuns(w, p, l, e', c, stack, env, tr);
    case _ => BinaryValueRuns(w, p, l, e, c, stack, env, tr);
  }

  lemma PlacedCode(p: seq<Instr>, l: seq<int>, c: Code, d: Code)
    requires Within(p, l, c, d)
    ensures d.prog <= p && |d.l| <= |l|
  {}

  lemma PushBoolPushes(w: World, p: seq<Instr>, l: seq<int>, c: Code, b: bool, stack: seq<Value>, env: Locals,
                       tr: seq<nat>)
    requires PushBool(c, b).prog <= p
    ensures Pushes(w, p, l, c, PushBool(c, b), Fine(Bool(b), tr), stack, env, tr)
  {
    PushBoolRuns(w, p, l, c, b, stack, env, tr);
  }

  /** Both operands of an operator that has no shortcut. */
  lemma {:induction false} BothRun(w: World, p: seq<Instr>, l: seq<int>, e: Expr, x: Expr, y: Expr, c: Code,
                                   stack: seq<Value>, env: Locals, tr: seq<nat>)
    requires x < e && y < e && Within(p, l, c, Walk(y, Walk(x, c))) && Eval(w, x, env, tr).Fine?
    requires Eval(w, y, env, Eval(w, x, env, tr).trace).Fine?
    ensures var r := Eval(w, x, env, tr);
            var s := Eval(w, y, env, r.trace);
            Reaches(w, p, l, At(|c.prog|, stack, env, tr),
                    At(|Walk(y, Walk(x, c)).prog|, stack + [r.v, s.v], env, s.trace))
    decreases e, 0
  {
    hide Eval, Within, Reaches, Exec1, Pushes, Walk;
    var r := Eval(w, x, env, tr);
    PlacedParts(p, l, c, Walk(x, c), Walk(y, Walk(x, c)));
    WalkRuns(w, p, l, x, c, stack, env, tr);
    WalkRuns(w, p, l, y, Walk(x, c), stack + [r.v], env, r.trace);
    OperandsRun(w, p, l, c, Walk(x, c), Walk(y, Walk(x, c)), r, Eval(w, y, env, r.trace), stack, env, tr);
  }

  lemma {:induction false} BinaryValueRuns(w: World, p: seq<Instr>, l: seq<int>, e: Expr, c: Code,
                                           stack: seq<Value>, env: Locals, tr: seq<nat>)
    requires IsBinary(e) && Within(p, l, c, Walk(e, c)) && Eval(w, e, env, tr).Fine?
    ensures Pushes(w, p, l, c, Walk(e, c), Eval(w, e, env, tr), stack, env, tr)
    decreases e, 1
  {
    hide Exec1, Pushes, Within, Reaches, EmitShortCircuit;
    PlacedCode(p, l, c, Walk(e, c));
    match e
    case NilTest(equal, e') =>
      var r := Eval(w, e', env, tr);
      PlacedParts(p, l, c, Walk(e', c), Walk(e, c));
      WalkRuns(w, p, l, e', c, stack, env, tr);
      IsNullRuns(w, p, l, c, Walk(e', c), r, stack, env, tr);
      if !equal {
        NotRuns(w, p, l, c, Op(Walk(e', c), IsNull), Fine(Bool(r.v.Null?), r.trace), stack, env, tr);
      }
    case Binary(a, x, y) =>
      PlacedParts(p, l, c, Walk(y, Walk(x, c)), Walk(e, c));
      BothRun(w, p, l, e, x, y, c, stack, env, tr);
      var r := Eval(w, x, env, tr);
      var s := Eval(w, y, env, r.trace);
      BinaryRuns(w, p, l, c, Walk(y, Walk(x, c)), r.v, s.v, Arith(a), Int(Compute(a, r.v.n, s.v.n)), stack, env, tr,
                 s.trace);
    case Numeric(rel, x, y) =>
      PlacedParts(p, l, c, Walk(y, Walk(x, c)), Walk(e, c));
      BothRun(w, p, l, e, x, y, c, stack, env, tr);
      var r := Eval(w, x, env, tr);
      var s := Eval(w, y, env, r.trace);
      BinaryRuns(w, p, l, c, Walk(y, Walk(x, c)), r.v, s.v, Test(rel), Bool(Holds(rel, r.v.n, s.v.n)), stack, env, tr,
                 s.trace);
    case BoolEqual(negated, x, y) =>
      PlacedParts(p, l, c, Walk(y, Walk(x, c)), Walk(e, c));
      BothRun(w, p, l, e, x, y, c, stack, env, tr);
      var r := Eval(w, x, env, tr);
      var s := Eval(w, y, env, r.trace);
      BinaryRuns(w, p, l, c, Walk(y, Walk(x, c)), r.v, s.v, Same(negated), Bool((r.v.b == s.v.b) != negated), stack,
                 env, tr, s.trace);
    case And(x, y) => ShortValueRuns(w, p, l, false, e, x, y, c, stack, env, tr);
    case Or(x, y) => ShortValueRuns(w, p, l, true, e, x, y, c, stack, env, tr);
  }

  /** The meaning of && and || by the operand value that settles them. */
  function ShortEval(w: World, condShort: bool, x: Expr, y: Expr, env: Locals, tr: seq<nat>): Result {
    var r := Eval(w, x, env, tr);
    if !(r.Fine? && r.v.Bool?) then Wrong
    else if r.v.b == condShort then Fine(Bool(condShort), r.trace)
    else
      var s := Eval(w, y, env, r.trace);
      if s.Fine? && s.v.Bool? then s else Wrong
  }

  /** The value form of && and ||: the second operand runs only if the first does not settle the result. */
  lemma {:induction false} ShortValueRuns(w: World, p: seq<Instr>, l: seq<int>, condShort: bool, e: Expr, x: Expr,
                                          y: Expr, c: Code, stack: seq<Value>, env: Locals, tr: seq<nat>)
    requires x < e && y < e && ShortEval(w, condShort, x, y, env, tr).Fine?
    requires Within(p, l, c, EmitShortCircuit(condShort, e, x, y, false, false, 0, c))
    ensures Pushes(w, p, l, c, EmitShortCircuit(condShort, e, x, y, false, false, 0, c),
                   ShortEval(w, condShort, x, y, env, tr), stack, env, tr)
    decreases e, 0
  {
    hide Exec1, Within, Reaches, EmitBinaryExpr, Walk, Eval;
    var end, push := |c.l|, |c.l| + 1;
    var c0 := NewLabel(NewLabel(c));
    var c1 := EmitBoolExpr(x, true, condShort, push, c0);
    var c2 := EmitBoolExpr(y, false, false, 0, c1);
    var c3 := SetLabel(Op(c2, Jump(Always, end)), push);
    var d := SetLabel(PushBool(c3, condShort), end);
    ShortValuePlaced(p, l, c, c0, c1, c2, condShort);
    var start := At(|c.prog|, stack, env, tr);
    var r := Eval(w, x, env, tr);
    BoolJumps(w, p, l, x, condShort, push, c0, stack, env, tr);
    if r.v.b == condShort {
      PushBoolRuns(w, p, l, c3, condShort, stack, env, r.trace);
      ReachesThrough(w, p, l, start, At(|c3.prog|, stack, env, r.trace),
                     At(|d.prog|, stack + [Bool(condShort)], env, r.trace));
    } else {
      var s := Eval(w, y, env, r.trace);
      ValueForm(y, c1);
      WalkRuns(w, p, l, y, c1, stack, env, r.trace);
      var k := At(|c2.prog|, stack + [s.v], env, s.trace);
      ReachesThrough(w, p, l, start, At(|c1.prog|, stack, env, r.trace), k);
      JumpAlways(w, p, l, start, c2, end, k);
    }
  }

  /** Without a jump, the boolean form is the value form. */
  lemma ValueForm(e: Expr, c: Code)
    ensures EmitBoolExpr(e, false, false, 0, c) == Walk(e, c)
  {}

  lemma JumpAlways(w: World, p: seq<Instr>, l: seq<int>, start: Conf, c: Code, lab: nat, k: Conf)
    requires Reaches(w, p, l, start, k) && k.At? && k.pc == |c.prog| && Op(c, Jump(Always, lab)).prog <= p && lab < |l|
    ensures Reaches(w, p, l, start, k.(pc := l[lab]))
  {
    ThenOp(w, p, l, start, c, Jump(Always, lab), k);
    assert k.stack[..|k.stack| - 0] == k.stack;
  }

  lemma ShortValuePlaced(p: seq<Instr>, l: seq<int>, c: Code, c0: Code, c1: Code, c2: Code, b: bool)
    requires c0 == NewLabel(NewLabel(c)) && Extends(c0, c1) && Extends(c1, c2)
    requires Within(p, l, c, SetLabel(PushBool(SetLabel(Op(c2, Jump(Always, |c.l|)), |c.l| + 1), b), |c.l|))
    ensures Within(p, l, c0, c1) && Within(p, l, c1, c2) && |c2.l| <= |l|
    ensures Op(c2, Jump(Always, |c.l|)).prog <= p
    ensures PushBool(SetLabel(Op(c2, Jump(Always, |c.l|)), |c.l| + 1), b).prog <= p
    ensures l[|c.l| + 1] == |c2.prog| + 1 && l[|c.l|] == |c2.prog| + 3
  {
    var c3 := SetLabel(Op(c2, Jump(Always, |c.l|)), |c.l| + 1);
    var d := SetLabel(PushBool(c3, b), |c.l|);
    assert d.l[|c.l| + 1] == |c2.prog| + 1;
    assert d.l[|c.l|] == |c2.prog| + 3;
    assert forall i :: |c.l| + 2 <= i < |c2.l| ==> d.l[i] == c2.l[i];
    PartWithin(p, l, c, c0, c1, d);
    PartWithin(p, l, c, c1, c2, d);
  }

  /** The jump form: the label is reached exactly when e equals cond, and nothing is left on the stack. */
  lemma {:induction false} BoolJumps(w: World, p: seq<Instr>, l: seq<int>, e: Expr, cond: bool, lab: nat, c: Code,
                                     stack: seq<Value>, env: Locals, tr: seq<nat>)
    requires Within(p, l, c, EmitBoolExpr(e, true, cond, lab, c)) && lab < |l|
    requires Eval(w, e, env, tr).Fine? && Eval(w, e, env, tr).v.Bool?
    ensures Branches(w, p, l, c, EmitBoolExpr(e, true, cond, lab, c), Eval(w, e, env, tr), cond, lab, stack, env, tr)
    decreases e, 3
  {
    hide Exec1, Within, Reaches, Walk, EmitBinaryExpr, Eval, Pushes, Branches;
    if IsBinary(e) {
      BinaryJumps(w, p, l, e, cond, lab, c, stack, env, tr);
    } else {
      var d := Walk(e, c);
      PlacedCode(p, l, c, EmitBoolExpr(e, true, cond, lab, c));
      PlacedParts(p, l, c, d, EmitJumpOnCondition(cond, lab, d));
      WalkRuns(w, p, l, e, c, stack, env, tr);
      JumpRuns(w, p, l, c, d, Eval(w, e, env, tr), cond, lab, stack, env, tr);
    }
  }

  lemma {:induction false} BinaryJumps(w: World, p: seq<Instr>, l: seq<int>, e: Expr, cond: bool, lab: nat, c: Code,
                                       stack: seq<Value>, env: Locals, tr: seq<nat>)
    requires IsBinary(e) && Within(p, l, c, EmitBinaryExpr(e, true, cond, lab, c)) && lab < |l|
    requires Eval(w, e, env, tr).Fine? && Eval(w, e, env, tr).v.Bool?
    ensures Branches(w, p, l, c, EmitBinaryExpr(e, true, cond, lab, c), Eval(w, e, env, tr), cond, lab, stack, env, tr)
    decreases e, 1
  {
    hide Exec1, Within, Reaches, Walk, EmitShortCircuit, Pushes;
    var d := EmitBinaryExpr(e, true, cond, lab, c);
    PlacedCode(p, l, c, d);
    match e
    case Binary(_, _, _) =>
    case NilTest(equal, e') =>
      var r := Eval(w, e', env, tr);
      PlacedParts(p, l, c, Walk(e', c), d);
      WalkRuns(w, p, l, e', c, stack, env, tr);
      IsNullRuns(w, p, l, c, Walk(e', c), r, stack, env, tr);
      JumpRuns(w, p, l, c, Op(Walk(e', c), IsNull), Fine(Bool(r.v.Null?), r.trace), cond == equal, lab, stack, env, tr);
    case Numeric(rel, x, y) =>
      PlacedParts(p, l, c, Walk(y, Walk(x, c)), d);
      BothRun(w, p, l, e, x, y, c, stack, env, tr);
      var r := Eval(w, x, env, tr);
      var s := Eval(w, y, env, r.trace);
      CompareJumpRuns(w, p, l, c, Walk(y, Walk(x, c)), r.v.n, s.v.n, rel, cond, lab, stack, env, tr, s.trace);
    case BoolEqual(negated, x, y) =>
      var m := Walk(y, Walk(x, c));
      PlacedParts(p, l, c, m, d);
      BothRun(w, p, l, e, x, y, c, stack, env, tr);
      var r := Eval(w, x, env, tr);
      var s := Eval(w, y, env, r.trace);
      BinaryRuns(w, p, l, c, m, r.v, s.v, Same(negated), Bool((r.v.b == s.v.b) != negated), stack, env, tr, s.trace);
      JumpRuns(w, p, l, c, Op(m, Same(negated)), Fine(Bool((r.v.b == s.v.b) != negated), s.trace), cond, lab, stack,
               env, tr);
    case And(x, y) => ShortJumps(w, p, l, false, e, x, y, cond, lab, c, stack, env, tr);
    case Or(x, y) => ShortJumps(w, p, l, true, e, x, y, cond, lab, c, stack, env, tr);
  }

  /** The jump form of && and ||. */
  lemma {:induction false} ShortJumps(w: World, p: seq<Instr>, l: seq<int>, condShort: bool, e: Expr, x: Expr, y: Expr,
                                      cond: bool, lab: nat, c: Code, stack: seq<Value>, env: Locals, tr: seq<nat>)
    requires x < e && y < e && lab < |l|
    requires ShortEval(w, condShort, x, y, env, tr).Fine? && ShortEval(w, condShort, x, y, env, tr).v.Bool?
    requires Within(p, l, c, EmitShortCircuit(condShort, e, x, y, true, cond, lab, c))
    ensures Branches(w, p, l, c, EmitShortCircuit(condShort, e, x, y, true, cond, lab, c),
                     ShortEval(w, condShort, x, y, env, tr), cond, lab, stack, env, tr)
    decreases e, 0
  {
    hide Exec1, Within, Reaches, EmitBoolExpr, Eval;
    var end := |c.l|;
    var c0 := NewLabel(c);
    var c1 := EmitBoolExpr(x, true, condShort, if cond == condShort then lab else end, c0);
    var c2 := EmitBoolExpr(y, true, cond, lab, c1);
    ShortJumpPlaced(p, l, c, c0, c1, c2);
    var start := At(|c.prog|, stack, env, tr);
    var r := Eval(w, x, env, tr);
    BoolJumps(w, p, l, x, condShort, if cond == condShort then lab else end, c0, stack, env, tr);
    if r.v.b != condShort {
      var s := Eval(w, y, env, r.trace);
      BoolJumps(w, p, l, y, cond, lab, c1, stack, env, r.trace);
      ReachesThrough(w, p, l, start, At(|c1.prog|, stack, env, r.trace),
                     At(if s.v.b == cond then l[lab] else |c2.prog|, stack, env, s.trace));
    }
  }

  lemma ShortJumpPlaced(p: seq<Instr>, l: seq<int>, c: Code, c0: Code, c1: Code, c2: Code)
    requires c0 == NewLabel(c) && Extends(c0, c1) && Extends(c1, c2) && Within(p, l, c, SetLabel(c2, |c.l|))
    ensures Within(p, l, c0, c1) && Within(p, l, c1, c2) && |c2.l| <= |l| && l[|c.l|] == |c2.prog|
  {
    var d := SetLabel(c2, |c.l|);
    PartWithin(p, l, c, c0, c1, d);
    PartWithin(p, l, c, c1, c2, d);
  }
}
