/** The stack code that the compiler emits against labels, and the machine that runs it. */
module StackCode {

  datatype Value = Int(n: int) | Bool(b: bool) | Null | Arr(elems: seq<Value>)

  /** Unset local slots read as null. */
  type Locals = map<nat, Value>

  function Get(env: Locals, x: nat): Value { if x in env then env[x] else Null }

  /**
   * What calls yield: a call is known by its number, and its result may depend on all calls made before it.
   * The list of calls made so far is the observable behaviour.
   */
  type World = (nat, seq<nat>) -> Value

  datatype Relation = Eq | Ne | Lt | Le | Gt | Ge

  datatype ArithOp = Plus | Minus | Times

  datatype JumpKind = Always | IfTrue | IfFalse | Compared(r: Relation)

  datatype Instr =
    | Push(n: int)
    | PushNull
    | ToBool
    | Load(x: nat)
    | Store(x: nat)
    | Perform(call: nat)
    | Not
    | IsNull
    | Same(negated: bool)
    | Test(r: Relation)
    | Arith(a: ArithOp)
    | Inc
    | Dec
    | Dup
    | Drop
    | Over
    | Pick
    | Pack
    | Size
    | PickItem
    | Jump(kind: JumpKind, lab: nat)
    | Ret

  function Holds(r: Relation, a: int, b: int): bool {
    match r
    case Eq => a == b
    case Ne => a != b
    case Lt => a < b
    case Le => a <= b
    case Gt => a > b
    case Ge => a >= b
  }

  function Compute(a: ArithOp, x: int, y: int): int {
    match a
    case Plus => x + y
    case Minus => x - y
    case Times => x * y
  }

  /** Integers that the virtual machine can hold: 32 bytes in two's complement. */
  const HALF_RANGE := 0x8000_0000_0000_0000_0000_0000_0000_0000_0000_0000_0000_0000_0000_0000_0000_0000

  predicate IsInt256(n: int) { -HALF_RANGE <= n < HALF_RANGE }

  /** How a value counts as a condition. */
  function Truth(v: Value): bool {
    match v
    case Int(n) => n != 0
    case Bool(b) => b
    case Null => false
    case Arr(_) => true
  }

  /** A configuration: executing, returned from the function, or failed. The top of the stack is last. */
  datatype Conf =
    | At(pc: int, stack: seq<Value>, env: Locals, trace: seq<nat>)
    | Returned(stack: seq<Value>, env: Locals, trace: seq<nat>)
    | Failed

  function Top(s: seq<Value>, n: nat): Value
    requires n < |s|
  {
    s[|s| - 1 - n]
  }

  /** Replaces the topmost n values by others. */
  function Put(c: Conf, n: nat, vs: seq<Value>): Conf
    requires c.At? && n <= |c.stack|
  {
    At(c.pc + 1, c.stack[..|c.stack| - n] + vs, c.env, c.trace)
  }

  function JumpTo(c: Conf, n: nat, target: int): Conf
    requires c.At? && n <= |c.stack|
  {
    At(target, c.stack[..|c.stack| - n], c.env, c.trace)
  }

  /** One instruction; l gives the place of each label. */
  function Exec1(w: World, i: Instr, l: seq<int>, c: Conf): Conf
    requires c.At?
  {
    var s := c.stack;
    match i
    case Push(n) => Put(c, 0, [Int(n)])
    case PushNull => Put(c, 0, [Null])
    case ToBool =>
      if |s| >= 1 && (Top(s, 0).Int? || Top(s, 0).Bool?) then Put(c, 1, [Bool(Truth(Top(s, 0)))]) else Failed
    case Load(x) => Put(c, 0, [Get(c.env, x)])
    case Store(x) =>
      if |s| >= 1 then At(c.pc + 1, s[..|s| - 1], c.env[x := Top(s, 0)], c.trace) else Failed
    case Perform(f) => At(c.pc + 1, s + [w(f, c.trace)], c.env, c.trace + [f])
    case Not => if |s| >= 1 then Put(c, 1, [Bool(!Truth(Top(s, 0)))]) else Failed
    case IsNull => if |s| >= 1 then Put(c, 1, [Bool(Top(s, 0).Null?)]) else Failed
    case Same(negated) =>
      if |s| >= 2 && Top(s, 0).Bool? && Top(s, 1).Bool? then
        Put(c, 2, [Bool((Top(s, 1).b == Top(s, 0).b) != negated)])
      else Failed
    case Test(r) =>
      if |s| >= 2 && Top(s, 0).Int? && Top(s, 1).Int? then Put(c, 2, [Bool(Holds(r, Top(s, 1).n, Top(s, 0).n))])
      else Failed
    case Arith(a) =>
      if |s| >= 2 && Top(s, 0).Int? && Top(s, 1).Int? && IsInt256(Compute(a, Top(s, 1).n, Top(s, 0).n)) then
        Put(c, 2, [Int(Compute(a, Top(s, 1).n, Top(s, 0).n))])
      else Failed
    case Inc =>
      if |s| >= 1 && Top(s, 0).Int? && IsInt256(Top(s, 0).n + 1) then Put(c, 1, [Int(Top(s, 0).n + 1)]) else Failed
    case Dec =>
      if |s| >= 1 && Top(s, 0).Int? && IsInt256(Top(s, 0).n - 1) then Put(c, 1, [Int(Top(s, 0).n - 1)]) else Failed
    case Dup => if |s| >= 1 then Put(c, 0, [Top(s, 0)]) else Failed
    case Drop => if |s| >= 1 then Put(c, 1, []) else Failed
    case Over => if |s| >= 2 then Put(c, 0, [Top(s, 1)]) else Failed
    case Pick =>
      if |s| >= 1 && Top(s, 0).Int? && 0 <= Top(s, 0).n < |s| - 1 then Put(c, 1, [Top(s, Top(s, 0).n + 1)]) else Failed
    case Pack =>
      if |s| >= 1 && Top(s, 0).Int? && 0 <= Top(s, 0).n <= |s| - 1 then
        Put(c, 1 + Top(s, 0).n, [Arr(Packed(s[..|s| - 1], Top(s, 0).n))])
      else Failed
    case Size => if |s| >= 1 && Top(s, 0).Arr? then Put(c, 1, [Int(|Top(s, 0).elems|)]) else Failed
    case PickItem =>
      if |s| >= 2 && Top(s, 0).Int? && Top(s, 1).Arr? && 0 <= Top(s, 0).n < |Top(s, 1).elems| then
        Put(c, 2, [Top(s, 1).elems[Top(s, 0).n]])
      else Failed
    case Ret => Returned(s, c.env, c.trace)
    case Jump(kind, lab) =>
      if lab >= |l| then Failed
      else
        match kind
        case Always => JumpTo(c, 0, l[lab])
        case IfTrue => if |s| >= 1 then JumpTo(c, 1, if Truth(Top(s, 0)) then l[lab] else c.pc + 1) else Failed
        case IfFalse => if |s| >= 1 then JumpTo(c, 1, if Truth(Top(s, 0)) then c.pc + 1 else l[lab]) else Failed
        case Compared(r) =>
          if |s| >= 2 && Top(s, 0).Int? && Top(s, 1).Int? then
            JumpTo(c, 2, if Holds(r, Top(s, 1).n, Top(s, 0).n) then l[lab] else c.pc + 1)
          else Failed
  }

  /** The n topmost values, topmost first. */
  function Packed(s: seq<Value>, n: nat): seq<Value>
    requires n <= |s|
  {
    if n == 0 then [] else [s[|s| - 1]] + Packed(s[..|s| - 1], n - 1)
  }

  function Step(w: World, p: seq<Instr>, l: seq<int>, c: Conf): Conf {
    if c.At? then if 0 <= c.pc < |p| then Exec1(w, p[c.pc], l, c) else Failed
    else c
  }

  function Steps(w: World, p: seq<Instr>, l: seq<int>, c: Conf, n: nat): Conf
    decreases n
  {
    if n == 0 then c else Steps(w, p, l, Step(w, p, l, c), n - 1)
  }

  /** Configuration d is reached from c. */
  ghost predicate Reaches(w: World, p: seq<Instr>, l: seq<int>, c: Conf, d: Conf) {
    exists n: nat :: Steps(w, p, l, c, n) == d
  }

  lemma {:induction false} StepsAdd(w: World, p: seq<Instr>, l: seq<int>, c: Conf, m: nat, n: nat)
    ensures Steps(w, p, l, c, m + n) == Steps(w, p, l, Steps(w, p, l, c, m), n)
    decreases m
  {
    if m > 0 { StepsAdd(w, p, l, Step(w, p, l, c), m - 1, n); }
  }

  lemma ReachesItself(w: World, p: seq<Instr>, l: seq<int>, c: Conf)
    ensures Reaches(w, p, l, c, c)
  {
    assert Steps(w, p, l, c, 0) == c;
  }

  lemma ReachesThrough(w: World, p: seq<Instr>, l: seq<int>, c: Conf, d: Conf, e: Conf)
    requires Reaches(w, p, l, c, d) && Reaches(w, p, l, d, e)
    ensures Reaches(w, p, l, c, e)
  {
    var m: nat :| Steps(w, p, l, c, m) == d;
    var n: nat :| Steps(w, p, l, d, n) == e;
    StepsAdd(w, p, l, c, m, n);
    assert Steps(w, p, l, c, m + n) == e;
  }

  /** The machine is deterministic: a run that has ended has ended in one way. */
  lemma ReachesOneEnd(w: World, p: seq<Instr>, l: seq<int>, c: Conf, d: Conf, e: Conf)
    requires Reaches(w, p, l, c, d) && Reaches(w, p, l, c, e) && !d.At? && !e.At?
    ensures d == e
  {
    var m: nat :| Steps(w, p, l, c, m) == d;
    var n: nat :| Steps(w, p, l, c, n) == e;
    if m <= n {
      StepsAdd(w, p, l, c, m, n - m);
      EndStays(w, p, l, d, n - m);
    } else {
      StepsAdd(w, p, l, c, n, m - n);
      EndStays(w, p, l, e, m - n);
    }
  }

  lemma {:induction false} EndStays(w: World, p: seq<Instr>, l: seq<int>, c: Conf, n: nat)
    requires !c.At?
    ensures Steps(w, p, l, c, n) == c
  {
    if n > 0 { EndStays(w, p, l, c, n - 1); }
  }

  // ----- emission -----

  /** Code emitted so far and the place of each label; labels not set yet are at -1. */
  datatype Code = Code(prog: seq<Instr>, l: seq<int>)

  function Op(c: Code, i: Instr): Code { c.(prog := c.prog + [i]) }

  function Ops(c: Code, code: seq<Instr>): Code { c.(prog := c.prog + code) }

  function NewLabel(c: Code): Code { c.(l := c.l + [-1]) }

  function SetLabel(c: Code, lab: nat): Code
    requires lab < |c.l|
  {
    c.(l := c.l[lab := |c.prog|])
  }

  function PushBool(c: Code, b: bool): Code { Ops(c, [Push(if b then 1 else 0), ToBool]) }

  /** Emission only appends code and labels; labels that existed before keep their places. */
  predicate Extends(c: Code, d: Code) { c.prog <= d.prog && c.l <= d.l }

  /** Program p and table l agree with what was emitted between c and d. */
  predicate Within(p: seq<Instr>, l: seq<int>, c: Code, d: Code) {
    && d.prog <= p && |d.l| <= |l|
    && forall i :: |c.l| <= i < |d.l| ==> l[i] == d.l[i]
  }

  /** A part of the emission that later code did not touch. */
  lemma PartWithin(p: seq<Instr>, l: seq<int>, c: Code, c0: Code, c1: Code, d: Code)
    requires Within(p, l, c, d) && |c.l| <= |c0.l| && c1.prog <= d.prog && |c1.l| <= |d.l|
    requires forall i :: |c0.l| <= i < |c1.l| ==> d.l[i] == c1.l[i]
    ensures Within(p, l, c0, c1)
  {}

  // Taking emitted code apart, last step first.

  lemma Sizes(c: Code, d: Code)
    requires Extends(c, d)
    ensures |c.l| <= |d.l| && |c.prog| <= |d.prog|
  {}

  lemma PeelOp(p: seq<Instr>, l: seq<int>, c: Code, d: Code, i: Instr)
    requires Within(p, l, c, Op(d, i))
    ensures Within(p, l, c, d) && Op(d, i).prog <= p
  {}

  /** Code emitted after m, and the code up to m. */
  lemma Split(p: seq<Instr>, l: seq<int>, c: Code, m: Code, d: Code)
    requires Within(p, l, c, d) && Extends(m, d) && |c.l| <= |m.l|
    ensures Within(p, l, c, m) && Within(p, l, m, d)
  {}

  /** Executing the instruction that was just emitted. */
  lemma RunOp(w: World, p: seq<Instr>, l: seq<int>, c: Code, i: Instr, k: Conf)
    requires k.At? && k.pc == |c.prog| && Op(c, i).prog <= p
    ensures Reaches(w, p, l, k, Exec1(w, i, l, k))
  {
    hide Exec1;
    assert p[|c.prog|] == i;
    assert Steps(w, p, l, Step(w, p, l, k), 0) == Step(w, p, l, k);
    assert Steps(w, p, l, k, 1) == Exec1(w, i, l, k);
  }

  /** Appending one more instruction to a run. */
  lemma ThenOp(w: World, p: seq<Instr>, l: seq<int>, start: Conf, c: Code, i: Instr, k: Conf)
    requires Reaches(w, p, l, start, k) && k.At? && k.pc == |c.prog| && Op(c, i).prog <= p
    ensures Reaches(w, p, l, start, Exec1(w, i, l, k))
  {
    hide Exec1;
    RunOp(w, p, l, c, i, k);
    ReachesThrough(w, p, l, start, k, Exec1(w, i, l, k));
  }

  /** The two instructions that push a truth value. */
  lemma PushBoolRuns(w: World, p: seq<Instr>, l: seq<int>, c: Code, b: bool, stack: seq<Value>, env: Locals,
                     tr: seq<nat>)
    requires PushBool(c, b).prog <= p
    ensures Reaches(w, p, l, At(|c.prog|, stack, env, tr), At(|PushBool(c, b).prog|, stack + [Bool(b)], env, tr))
  {
    var start := At(|c.prog|, stack, env, tr);
    var push := Push(if b then 1 else 0);
    assert PushBool(c, b).prog == Op(Op(c, push), ToBool).prog;
    assert Op(c, push).prog <= Op(Op(c, push), ToBool).prog;
    RunOp(w, p, l, c, push, start);
    var k := At(|c.prog| + 1, stack + [Int(if b then 1 else 0)], env, tr);
    assert stack[..|stack| - 0] == stack;
    assert Exec1(w, push, l, start) == k;
    ThenOp(w, p, l, start, Op(c, push), ToBool, k);
    assert k.stack[..|k.stack| - 1] == stack;
  }
}
