/**
 * Emission of statements: labels, temporaries kept on the stack, and the exits that drop them
 * (pkg/compiler/codegen.go).
 */
module StmtLowering {
  import opened Common
  import opened StackCode
  import opened ExprLowering
  import opened Statements

  /** Constructs without a label get a name made from the number of labels so far. */
  datatype Name = Unnamed | User(lbl: nat) | Auto(count: nat)

  /** An entry of the list of open constructs: how many temporaries it keeps on the stack and where its exits go. */
  datatype Scope = Scope(name: Name, frame: Frame, size: nat, end: nat, post: nat)

  datatype Context = Context(scopes: seq<Scope>, currentFor: Name, currentSwitch: Name)

  function GenerateName(lbl: Option<nat>, c: Code): Name { if lbl.Some? then User(lbl.value) else Auto(|c.l|) }

  /** Temporaries of the constructs inside (above) number t. */
  function Above(scopes: seq<Scope>, t: int): nat
    requires -1 <= t < |scopes| || t == -1
    decreases |scopes|
  {
    if |scopes| - 1 <= t then 0 else scopes[|scopes| - 1].size + Above(scopes[..|scopes| - 1], t)
  }

  function Repeat(i: Instr, n: nat): (s: seq<Instr>)
    ensures |s| == n
  {
    if n == 0 then [] else Repeat(i, n - 1) + [i]
  }

  function DropItems(n: nat, c: Code): (d: Code)
    ensures Extends(c, d) && d.l == c.l
  {
    if n < 4 then Ops(c, Repeat(Drop, n)) else Ops(c, [Push(n), Pack, Drop])
  }

  /** The innermost open construct with the given name; -1 if none. */
  function Named(scopes: seq<Scope>, name: Name): (t: int)
    ensures -1 <= t < |scopes|
    ensures t >= 0 ==> scopes[t].name == name
  {
    if scopes == [] then -1
    else if scopes[|scopes| - 1].name == name then |scopes| - 1
    else Named(scopes[..|scopes| - 1], name)
  }

  /** A break or continue: drop what the constructs being left keep, then jump. */
  function EmitBranch(name: Option<nat>, brk: bool, x: Context, c: Code): (d: Code)
    ensures Extends(c, d)
  {
    var nm := if name.Some? then User(name.value) else if brk then x.currentSwitch else x.currentFor;
    var t := Named(x.scopes, nm);
    var lab := if t < 0 then 0 else if brk then x.scopes[t].end else x.scopes[t].post;
    Op(DropItems(Above(x.scopes, t), c), Jump(Always, lab))
  }

  function NewLabels(c: Code, n: nat): (d: Code)
    ensures Extends(c, d) && d.prog == c.prog && |d.l| == |c.l| + n
    decreases n
  {
    if n == 0 then c else NewLabels(NewLabel(c), n - 1)
  }

  function Count(cs: Clauses): nat { if cs.NoClauses? then 0 else 1 + Count(cs.next) }

  function Inside(x: Context, sc: Scope): Context {
    Context(x.scopes + [sc], if sc.frame.loop then sc.name else x.currentFor, sc.name)
  }

  function LoopScope(lbl: Option<nat>, size: nat, c: Code): Scope {
    Scope(GenerateName(lbl, c), Frame(lbl, true), size, |c.l| + 1, |c.l| + 2)
  }

  function SwitchScope(lbl: Option<nat>, c: Code): Scope {
    Scope(GenerateName(lbl, c), Frame(lbl, false), 1, |c.l|, 0)
  }

  function EqualOp(numeric: bool): Instr { if numeric then Test(Eq) else Same(false) }

  function EmitTag(tag: Option<Expr>, c: Code): (d: Code)
    ensures Extends(c, d)
  {
    if tag.None? then PushBool(c, true) else Walk(tag.value, c)
  }

  function EmitGuard(guard: Option<Expr>, end: nat, c: Code): (d: Code)
    ensures Extends(c, d)
  {
    if guard.None? then c else Op(Walk(guard.value, c), Jump(IfFalse, end))
  }

  function EmitKey(key: Option<nat>, c: Code): Code { if key.None? then c else Ops(c, [Dup, Store(key.value)]) }

  function EmitValue(val: Option<nat>, c: Code): Code {
    if val.None? then c else Ops(c, [Push(2), Pick, Over, PickItem, Store(val.value)])
  }

  function EmitStmt(s: Stmt, x: Context, c: Code): (r: Code)
    ensures Extends(c, r)
    decreases s, 1
  {
    match s
    case Skip => c
    case Assign(v, e) => Op(Walk(e, c), Store(v))
    case IncDec(v, up) => Ops(c, [Load(v), if up then Inc else Dec, Store(v)])
    case Invoke(f) => Ops(c, [Perform(f), Drop])
    case Seq(a, b) => EmitStmt(b, x, EmitStmt(a, x, c))
    case If(_, _, _, _) => EmitIf(s, x, c)
    case For(_, _, _, _, _) => EmitFor(s, x, c)
    case Range(_, _, _, _, _) => EmitRange(s, x, c)
    case Switch(_, _, _, _) => EmitSwitch(s, x, c)
    case Break(name) => EmitBranch(name, true, x, c)
    case Continue(name) => EmitBranch(name, false, x, c)
    case Return(result) =>
      var c1 := DropItems(Above(x.scopes, -1), SetLabel(NewLabel(c), |c.l|));
      Op(if result.None? then c1 else Walk(result.value, c1), Ret)
  }

  function EmitIf(s: Stmt, x: Context, c: Code): (r: Code)
    requires s.If?
    ensures Extends(c, r)
    decreases s, 0
  {
    var lIf, lElse, lElseEnd := |c.l|, |c.l| + 1, |c.l| + 2;
    var c1 := EmitStmt(s.init, x, NewLabels(c, 3));
    var c2 := SetLabel(EmitBoolExpr(s.cond, true, false, lElse, c1), lIf);
    var c3 := EmitStmt(s.body, x, c2);
    if s.otherwise.None? then SetLabel(SetLabel(c3, lElse), lElseEnd)
    else
      var c4 := SetLabel(Op(c3, Jump(Always, lElseEnd)), lElse);
      SetLabel(EmitStmt(s.otherwise.value, x, c4), lElseEnd)
  }

  function EmitFor(s: Stmt, x: Context, c: Code): (r: Code)
    requires s.For?
    ensures Extends(c, r)
    decreases s, 0
  {
    var sc := LoopScope(s.lbl, 0, c);
    var start := |c.l|;
    var c1 := SetLabel(EmitStmt(s.init, x.(currentFor := sc.name, currentSwitch := sc.name), NewLabels(c, 3)), start);
    var c2 := EmitStmt(s.body, Inside(x, sc), EmitGuard(s.guard, sc.end, c1));
    var c3 := EmitStmt(s.post, Inside(x, sc), SetLabel(c2, sc.post));
    DropItems(sc.size, SetLabel(Op(c3, Jump(Always, start)), sc.end))
  }

  function EmitRange(s: Stmt, x: Context, c: Code): (r: Code)
    requires s.Range?
    ensures Extends(c, r)
    decreases s, 0
  {
    var sc := LoopScope(s.lbl, 3, c);
    var start := |c.l|;
    var c1 := SetLabel(Ops(Walk(s.over, NewLabels(c, 3)), [Dup, Size, Push(0)]), start);
    var c2 := EmitValue(s.val, EmitKey(s.key, Ops(c1, [Over, Over, Jump(Compared(Le), sc.end)])));
    var c3 := SetLabel(EmitStmt(s.body, Inside(x, sc), c2), sc.post);
    DropItems(sc.size, SetLabel(Ops(c3, [Inc, Jump(Always, start)]), sc.end))
  }

  function EmitSwitch(s: Stmt, x: Context, c: Code): (r: Code)
    requires s.Switch?
    ensures Extends(c, r)
    decreases s, 0
  {
    var c1 := EmitTag(s.tag, c);
    var sc := SwitchScope(s.lbl, c1);
    var c2 := NewLabels(NewLabel(c1), Count(s.clauses));
    var c3 := EmitClauses(s.clauses, |c1.l| + 1, sc.end, EqualOp(s.numeric), Inside(x, sc), c2);
    DropItems(sc.size, SetLabel(c3, sc.end))
  }

  /** Labels from lo up to hi may have been placed; all others are as before. */
  predicate Places(c: Code, d: Code, lo: nat, hi: nat) {
    && c.prog <= d.prog && |c.l| <= |d.l|
    && forall i :: 0 <= i < |c.l| && !(lo <= i < hi) ==> d.l[i] == c.l[i]
  }

  /** The comparisons of one clause: all but the last jump to the body, the last jumps past it. */
  function EmitCases(cases: seq<Expr>, lStart: nat, lEnd: nat, eq: Instr, c: Code): (d: Code)
    ensures Extends(c, d)
  {
    if cases == [] then c
    else
      var c1 := Op(Walk(cases[0], Op(c, Dup)), eq);
      if |cases| == 1 then Op(c1, Jump(IfFalse, lEnd))
      else EmitCases(cases[1..], lStart, lEnd, eq, Op(c1, Jump(IfTrue, lStart)))
  }

  /** One clause after the other; the clauses' start labels are numbered from lStart. */
  function EmitClauses(cs: Clauses, lStart: nat, end: nat, eq: Instr, x: Context, c: Code): (d: Code)
    requires lStart + Count(cs) <= |c.l|
    ensures Places(c, d, lStart, lStart + Count(cs))
    decreases cs
  {
    match cs
    case NoClauses => c
    case Clause(cases, body, falls, next) =>
      var lEnd := |c.l|;
      var c1 := SetLabel(EmitCases(cases, lStart, lEnd, eq, NewLabel(c)), lStart);
      var c2 := EmitStmt(body, x, c1);
      var c3 := if falls then Op(c2, Jump(Always, lStart + 1)) else c2;
      EmitClauses(next, lStart + 1, end, eq, x, SetLabel(Op(c3, Jump(Always, end)), lEnd))
  }

  /** A function body; falling off its end returns. */
  function EmitBody(s: Stmt): Code {
    var d := EmitStmt(s, Context([], Unnamed, Unnamed), Code([], []));
    if LastIsReturn(s) then d else Op(d, Ret)
  }

  predicate LastIsReturn(s: Stmt) { s.Return? || (s.Seq? && LastIsReturn(s.second)) }

  lemma BindingsExtend(key: Option<nat>, val: Option<nat>, t: Code)
    ensures Extends(t, EmitValue(val, EmitKey(key, t)))
    ensures Extends(EmitKey(key, t), EmitValue(val, EmitKey(key, t)))
  {}

  lemma PlacesSizes(c: Code, d: Code, lo: nat, hi: nat)
    requires Places(c, d, lo, hi)
    ensures |c.l| <= |d.l|
  {}
}
