/**
 * The final bytes of a compiled function, run on data from offset zero, return exactly what the function means: the
 * stack code that statements are lowered to is simulated by the virtual machine, instruction by instruction.
 */
module FunctionMachine {
  import opened Bytes
  import opened Opcodes
  import opened Common
  import opened Instructions
  import opened Machine
  import opened ControlLaws
  import opened Bytecode
  import opened FinalLayout
  import opened DataMachine
  import opened DataSteps
  import FunctionScript
  import S = StackCode
  import Statements
  import StmtLowering
  import StmtContext
  import StmtRuns
  import DefaultClauses
  import CodeOperands
  import LabelPlacement
  import ExprLowering
  import FinalAcceptance
  import ScriptAcceptance
  import ScriptCheck

  /** Every call returns a value. */
  function Lift(w: S.World): Calls { (f: nat, tr: seq<nat>) => Yields(w(f, tr)) }

  // ----- one instruction -----

  /** The slots hold the variables; without variables there are none. */
  ghost predicate SlotsAre(locals: Slots, env: S.Locals, slots: nat) {
    slots > 0 ==>
      locals.Some? && |locals.value| == slots && forall x :: 0 <= x < slots ==> locals.value[x] == S.Get(env, x)
  }

  /** The effect e is what the stack code does from k to j. */
  ghost predicate Matches(e: Effect, d: Memory, j: S.Conf, slots: nat) {
    && j.At? && e.Works? && e.raised.None? && e.data.stack == j.stack && e.data.trace == j.trace
    && SlotsAre(e.data.locals, j.env, slots) && e.data.statics == d.statics && e.data.pending == d.pending
  }

  lemma LoadMatches(w: S.World, l: seq<int>, x: nat, k: S.Conf, d: Memory, slots: nat)
    requires k.At? && d.stack == k.stack && d.trace == k.trace && SlotsAre(d.locals, k.env, slots) && x < slots <= 255
    ensures var i := S.Load(x);
            Matches(EffectOf(Lift(w), FunctionScript.Written(i).op, FunctionScript.Written(i).arg, d), d,
                    S.Exec1(w, i, l, k), slots)
  {
    var i := SlotIns(0x68, x);
    assert SlotIndex(i.op, 0x68, i.arg) == x;
    assert k.stack[..|k.stack| - 0] == k.stack;
  }

  lemma StoreMatches(w: S.World, l: seq<int>, x: nat, k: S.Conf, d: Memory, slots: nat)
    requires k.At? && d.stack == k.stack && d.trace == k.trace && SlotsAre(d.locals, k.env, slots) && x < slots <= 255
    requires !S.Exec1(w, S.Store(x), l, k).Failed?
    ensures var i := S.Store(x);
            Matches(EffectOf(Lift(w), FunctionScript.Written(i).op, FunctionScript.Written(i).arg, d), d,
                    S.Exec1(w, i, l, k), slots)
  {
    var i := SlotIns(0x70, x);
    assert SlotIndex(i.op, 0x70, i.arg) == x;
  }

  lemma PackMatches(w: S.World, l: seq<int>, k: S.Conf, d: Memory, slots: nat)
    requires k.At? && d.stack == k.stack && d.trace == k.trace && SlotsAre(d.locals, k.env, slots)
    requires !S.Exec1(w, S.Pack, l, k).Failed?
    ensures Matches(EffectOf(Lift(w), 0xC0, [], d), d, S.Exec1(w, S.Pack, l, k), slots)
  {
    hide S.Packed, TopFirst, SlotsAre;
    var n := k.stack[|k.stack| - 1].n;
    PackedIsTopFirst(k.stack[..|k.stack| - 1], n);
  }

  lemma {:induction false} PackedIsTopFirst(s: seq<S.Value>, n: nat)
    requires n <= |s|
    ensures S.Packed(s, n) == TopFirst(s, n)
  {
    if n > 0 {
      PackedIsTopFirst(s[..|s| - 1], n - 1);
      assert TopFirst(s, n) == [s[|s| - 1]] + TopFirst(s[..|s| - 1], n - 1);
    }
  }

  lemma CallMatches(w: S.World, l: seq<int>, f: nat, k: S.Conf, d: Memory, slots: nat)
    requires k.At? && d.stack == k.stack && d.trace == k.trace && SlotsAre(d.locals, k.env, slots)
    requires CodeOperands.IsCallNumber(f)
    ensures Matches(EffectOf(Lift(w), SYSCALL, LE32(f), d), d, S.Exec1(w, S.Perform(f), l, k), slots)
  {
    hide SlotsAre;
    CallNumberRead(f);
  }

  predicate IsStackOp(i: S.Instr) { i.Dup? || i.Drop? || i.Over? || i.Pick? }

  lemma StackMatches(w: S.World, l: seq<int>, i: S.Instr, k: S.Conf, d: Memory, slots: nat)
    requires k.At? && d.stack == k.stack && d.trace == k.trace && SlotsAre(d.locals, k.env, slots)
    requires IsStackOp(i) && !S.Exec1(w, i, l, k).Failed?
    ensures Matches(EffectOf(Lift(w), FunctionScript.Written(i).op, FunctionScript.Written(i).arg, d), d,
                    S.Exec1(w, i, l, k), slots)
  {
    hide SlotsAre, TopFirst;
  }

  lemma TestMatches(w: S.World, l: seq<int>, r: S.Relation, k: S.Conf, d: Memory, slots: nat)
    requires k.At? && d.stack == k.stack && d.trace == k.trace && SlotsAre(d.locals, k.env, slots)
    requires !S.Exec1(w, S.Test(r), l, k).Failed?
    ensures Matches(EffectOf(Lift(w), FunctionScript.TestOp(r), [], d), d, S.Exec1(w, S.Test(r), l, k), slots)
  {
    hide SlotsAre;
  }

  predicate IsNumberOp(i: S.Instr) { i.Arith? || i.Inc? || i.Dec? }

  lemma NumberMatches(w: S.World, l: seq<int>, i: S.Instr, k: S.Conf, d: Memory, slots: nat)
    requires k.At? && d.stack == k.stack && d.trace == k.trace && SlotsAre(d.locals, k.env, slots)
    requires IsNumberOp(i) && !S.Exec1(w, i, l, k).Failed?
    ensures Matches(EffectOf(Lift(w), FunctionScript.Written(i).op, FunctionScript.Written(i).arg, d), d,
                    S.Exec1(w, i, l, k), slots)
  {
    hide SlotsAre;
  }

  predicate IsTypeOp(i: S.Instr) { i.PushNull? || i.ToBool? || i.Not? || i.IsNull? }

  lemma TypeMatches(w: S.World, l: seq<int>, i: S.Instr, k: S.Conf, d: Memory, slots: nat)
    requires k.At? && d.stack == k.stack && d.trace == k.trace && SlotsAre(d.locals, k.env, slots)
    requires IsTypeOp(i) && !S.Exec1(w, i, l, k).Failed?
    ensures Matches(EffectOf(Lift(w), FunctionScript.Written(i).op, FunctionScript.Written(i).arg, d), d,
                    S.Exec1(w, i, l, k), slots)
  {
    hide SlotsAre;
  }

  predicate IsObjectOp(i: S.Instr) { i.Same? || i.Size? || i.PickItem? }

  lemma ObjectMatches(w: S.World, l: seq<int>, i: S.Instr, k: S.Conf, d: Memory, slots: nat)
    requires k.At? && d.stack == k.stack && d.trace == k.trace && SlotsAre(d.locals, k.env, slots)
    requires IsObjectOp(i) && !S.Exec1(w, i, l, k).Failed?
    ensures Matches(EffectOf(Lift(w), FunctionScript.Written(i).op, FunctionScript.Written(i).arg, d), d,
                    S.Exec1(w, i, l, k), slots)
  {
    hide SlotsAre;
  }

  /** What is written for an operation does to the virtual machine's data what the operation does. */
  lemma WrittenMatches(w: S.World, l: seq<int>, i: S.Instr, k: S.Conf, d: Memory, slots: nat, labels: nat)
    requires k.At? && d.stack == k.stack && d.trace == k.trace && SlotsAre(d.locals, k.env, slots)
    requires !i.Jump? && !i.Ret? && !S.Exec1(w, i, l, k).Failed?
    requires CodeOperands.Fits(i, labels, slots) && labels <= 0x1_0000 && slots <= 255
    ensures Matches(EffectOf(Lift(w), FunctionScript.Written(i).op, FunctionScript.Written(i).arg, d), d,
                    S.Exec1(w, i, l, k), slots)
    ensures S.Exec1(w, i, l, k).pc == k.pc + 1
  {
    hide SlotsAre, EffectOf, IntIns, SlotIns, LE32;
    match i
    case Push(n) =>
      PushedNumber(Lift(w), n, d);
      assert k.stack[..|k.stack| - 0] == k.stack;
    case Load(x) => LoadMatches(w, l, x, k, d, slots);
    case Store(x) => StoreMatches(w, l, x, k, d, slots);
    case Perform(f) => CallMatches(w, l, f, k, d, slots);
    case Pack => PackMatches(w, l, k, d, slots);
    case Test(r) => TestMatches(w, l, r, k, d, slots);
    case _ =>
      if IsStackOp(i) {
        StackMatches(w, l, i, k, d, slots);
      } else if IsNumberOp(i) {
        NumberMatches(w, l, i, k, d, slots);
      } else if IsTypeOp(i) {
        TypeMatches(w, l, i, k, d, slots);
      } else {
        ObjectMatches(w, l, i, k, d, slots);
      }
  }

  /** A jump pops and decides, in either form, as the operation says. */
  lemma BranchMatches(w: S.World, l: seq<int>, kind: S.JumpKind, lab: nat, op: Byte, arg: seq<Byte>, k: S.Conf,
                      d: Memory, slots: nat)
    requires k.At? && d.stack == k.stack && d.trace == k.trace && SlotsAre(d.locals, k.env, slots)
    requires LongForm(op) == FunctionScript.JumpOp(kind) && !S.Exec1(w, S.Jump(kind, lab), l, k).Failed?
    ensures var e, j := EffectOf(Lift(w), op, arg, d), S.Exec1(w, S.Jump(kind, lab), l, k);
            && Matches(e, d, j, slots) && lab < |l|
            && (op in {JMP, JMPL} || IsConditional(op)) && (op in {JMP, JMPL} ==> e.holds)
            && j.pc == if e.holds then l[lab] else k.pc + 1
  {
    hide SlotsAre;
  }

  // ----- one step -----

  /** One frame without handlers, at the given place, with the given memory. */
  predicate Stands(j: Conf, place: int, d: Memory) {
    && j.Conf? && j.vm.Running? && j.vm.frames == [Frame(place, [])] && !j.vm.uncaught
    && j.stack == d.stack && j.locals == [d.locals] && j.statics == d.statics && j.trace == d.trace && d.pending.None?
  }

  /** The one frame has moved on and no exception is raised. */
  lemma Lands(k: Conf, d: Memory, e: Effect, here: int, place: int, gas: int)
    requires Stands(k, here, d) && e.Works? && e.raised.None? && e.data.pending.None?
    ensures k.locals != [] && DataOf(k) == d && k.vm.frames[0].handlers == [] && k.vm.frames[1..] == []
    ensures var j := After(k, e, k.vm.(frames := [Frame(place, [])] + k.vm.frames[1..], gas := gas));
            Stands(j, place, e.data) && j.vm.pointers == k.vm.pointers
  {
    assert [Frame(place, [])] + k.vm.frames[1..] == [Frame(place, [])];
    assert [e.data.locals] + k.locals[1..] == [e.data.locals];
  }

  /** An instruction on data, or a call, goes on to the next instruction. */
  lemma StraightStep(w: Calls, script: seq<Byte>, cfg: Config, k: Conf, op: Byte, arg: seq<Byte>, next: nat, d: Memory)
    requires k.Conf? && Executes(script, cfg, k.vm, op, arg, next) && cfg.limit < 0
    requires Stands(k, k.vm.frames[0].nextip, d)
    requires (!IsControl(op) && !(op == INITSLOT && arg == [0, 0])) || op == SYSCALL
    requires var e := EffectOf(w, op, arg, d); e.Works? && e.raised.None? && e.data.pending.None?
    ensures Stands(DataMachine.Step(w, script, cfg, k), next, EffectOf(w, op, arg, d).data)
    ensures DataMachine.Step(w, script, cfg, k).vm.pointers == k.vm.pointers
  {
    hide EffectOf, Machine.Step, Executes, IsControl, DataMachine.Step, After, Coefficient;
    var e := EffectOf(w, op, arg, d);
    var gas := k.vm.gas + if op == SYSCALL then 0 else Coefficient(op) * cfg.base;
    Lands(k, d, e, k.vm.frames[0].nextip, next, gas);
    DataStep(w, script, cfg, k, op, arg, next);
    if op == SYSCALL {
      SyscallLaw(script, cfg, k.vm, ChoiceOf(op, e), arg, next);
    } else {
      DataLaw(script, cfg, k.vm, ChoiceOf(op, e), op, arg, next);
    }
  }

  /** A jump goes to its target if its condition holds. */
  lemma BranchStep(w: Calls, script: seq<Byte>, cfg: Config, k: Conf, op: Byte, arg: seq<Byte>, next: nat, d: Memory,
                   e: Effect)
    requires k.Conf? && Executes(script, cfg, k.vm, op, arg, next) && Stands(k, k.vm.frames[0].nextip, d)
    requires op in {JMP, JMPL} || IsConditional(op)
    requires 0 <= k.vm.frames[0].nextip + OffsetOf(arg) <= |script|
    requires EffectOf(w, op, arg, d) == e
    requires e.Works? && e.raised.None? && e.data.pending.None? && (op in {JMP, JMPL} ==> e.holds)
    ensures Stands(DataMachine.Step(w, script, cfg, k), if e.holds then k.vm.frames[0].nextip + OffsetOf(arg) else next,
                   e.data)
  {
    hide EffectOf, Machine.Step, Executes, OffsetOf, IsConditional, DataMachine.Step, After, Coefficient;
    var here := k.vm.frames[0].nextip;
    Lands(k, d, e, here, if e.holds then here + OffsetOf(arg) else next, k.vm.gas + Coefficient(op) * cfg.base);
    DataStep(w, script, cfg, k, op, arg, next);
    if op in {JMP, JMPL} {
      JumpLaw(script, cfg, k.vm, ChoiceOf(op, e), op, arg, next);
    } else {
      ConditionalJumpLaw(script, cfg, k.vm, ChoiceOf(op, e), op, arg, next);
    }
  }

  /** RET in the last frame halts the machine with what is on the stack. */
  lemma ReturnStep(w: Calls, script: seq<Byte>, cfg: Config, k: Conf, next: nat, d: Memory)
    requires k.Conf? && Executes(script, cfg, k.vm, RET, [], next) && Stands(k, k.vm.frames[0].nextip, d)
    ensures var j := DataMachine.Step(w, script, cfg, k);
            j.Conf? && j.vm.Halted? && j.stack == d.stack && j.trace == d.trace
  {
    hide Machine.Step;
    assert k.locals != [] && DataOf(k) == d;
    assert EffectOf(w, RET, [], d) == DataMachine.Done(d);
    DataStep(w, script, cfg, k, RET, [], next);
    assert Coefficient(RET) == 0;
    ReturnLaw(script, cfg, k.vm, ChoiceOf(RET, DataMachine.Done(d)));
  }

  // ----- simulation -----

  /** Functions that the theorem is about: legal, within the compiler's limits, variables in the slots. */
  ghost predicate Covered(s: Statements.Stmt, slots: nat) {
    FunctionScript.WithinLimits(s, slots) && CodeOperands.StmtFits(s, slots)
  }

  ghost function FinalProgram(s: Statements.Stmt, slots: nat): seq<Ins>
    requires Covered(s, slots)
  {
    FunctionScript.FunctionCompiles(s, slots);
    Final(FunctionScript.Program(s), FunctionScript.Labels(s), map[0 := slots])
  }

  /** The bytes that the compiler returns for the function. */
  ghost function FinalBytes(s: Statements.Stmt, slots: nat): seq<Byte>
    requires Covered(s, slots)
  {
    Encode(FinalProgram(s, slots))
  }

  /** Where operation i of the body is in the final program. */
  ghost function FinalIndex(s: Statements.Stmt, slots: nat, i: nat): (j: nat)
    requires Covered(s, slots) && i <= |StmtLowering.EmitBody(s).prog|
    ensures j <= |FinalProgram(s, slots)|
  {
    FunctionScript.FunctionCompiles(s, slots);
    NextIndex(FunctionScript.Program(s), FunctionScript.Labels(s), map[0 := slots], i);
    IndexOf(FunctionScript.Program(s), FunctionScript.Labels(s), map[0 := slots], i + 1)
  }

  ghost function PlaceOf(s: Statements.Stmt, slots: nat, i: nat): nat
    requires Covered(s, slots) && i <= |StmtLowering.EmitBody(s).prog|
  {
    Addr(FinalProgram(s, slots), FinalIndex(s, slots, i))
  }

  /** The virtual machine is in the state of the stack code, at the same place of the final script. */
  ghost predicate Simulates(s: Statements.Stmt, slots: nat, k: S.Conf, j: Conf)
    requires Covered(s, slots)
  {
    match k
    case At(pc, stack, env, tr) =>
      && 0 <= pc <= |StmtLowering.EmitBody(s).prog| && j.Conf? && |j.locals| == 1
      && SlotsAre(j.locals[0], env, slots)
      && Stands(j, PlaceOf(s, slots, pc), Memory(stack, j.locals[0], j.statics, tr, None))
    case Returned(stack, _, tr) => j.Conf? && j.vm.Halted? && j.stack == stack && j.trace == tr
    case Failed => true
  }

  /** The instruction of the final script that operation i has become. */
  ghost predicate Became(s: Statements.Stmt, slots: nat, i: nat)
    requires Covered(s, slots) && i < |StmtLowering.EmitBody(s).prog|
  {
    var c, f, j := StmtLowering.EmitBody(s), FinalProgram(s, slots), FinalIndex(s, slots, i);
    && WellFormedProgram(f) && j < |f| && FinalIndex(s, slots, i + 1) == j + 1
    && (if c.prog[i].Jump? then
          && c.prog[i].lab < |c.l| && 0 <= c.l[c.prog[i].lab] <= |c.prog|
          && LongForm(f[j].op) == FunctionScript.JumpOp(c.prog[i].kind)
          && Addr(f, j) + OffsetOf(f[j].arg) == PlaceOf(s, slots, c.l[c.prog[i].lab])
        else f[j] == FunctionScript.Written(c.prog[i]))
  }

  /** The program of the function and its labels. */
  lemma ProgramShape(s: Statements.Stmt, i: nat)
    requires i < |StmtLowering.EmitBody(s).prog|
    ensures var c, p, l := StmtLowering.EmitBody(s), FunctionScript.Program(s), FunctionScript.Labels(s);
            && |p| == |c.prog| + 1 && p[i + 1] == FunctionScript.Written(c.prog[i]) && p[i + 1].op != INITSLOT
            && |l| == |c.l| && (forall x :: 0 <= x < |l| ==> l[x] == c.l[x] + 1)
  {
    hide FunctionScript.Written, StmtLowering.EmitBody;
    FunctionScript.WrittenFits(StmtLowering.EmitBody(s).prog[i]);
  }

  lemma CoveredLinks(s: Statements.Stmt, slots: nat)
    requires Covered(s, slots)
    ensures Linkable(FunctionScript.Program(s), FunctionScript.Labels(s), map[0 := slots])
  {
    FunctionScript.FunctionCompiles(s, slots);
  }

  lemma PlainBecomes(s: Statements.Stmt, slots: nat, i: nat)
    requires Covered(s, slots) && i < |StmtLowering.EmitBody(s).prog| && !StmtLowering.EmitBody(s).prog[i].Jump?
    ensures Became(s, slots, i)
  {
    hide FunctionScript.Written, StmtLowering.EmitBody, Final, IndexOf, Linkable, FunctionScript.Program,
         FunctionScript.Labels, Covered, WellFormedProgram;
    var c := StmtLowering.EmitBody(s);
    CoveredLinks(s, slots);
    ProgramShape(s, i);
    Stays(FunctionScript.Program(s), FunctionScript.Labels(s), map[0 := slots], i + 1);
    FunctionScript.WrittenFits(c.prog[i]);
    FinalPlain(FunctionScript.Program(s), FunctionScript.Labels(s), map[0 := slots], i + 1);
  }

  lemma JumpBecomes(s: Statements.Stmt, slots: nat, i: nat)
    requires Covered(s, slots) && i < |StmtLowering.EmitBody(s).prog| && StmtLowering.EmitBody(s).prog[i].Jump?
    ensures Became(s, slots, i)
  {
    hide FunctionScript.Written, StmtLowering.EmitBody, Final, IndexOf, Linkable, FunctionScript.Program,
         FunctionScript.Labels, Covered, WellFormedProgram, LabelPlacement.AllPlaced, Statements.Legal,
         CodeOperands.AllFit, OffsetOf, Addr, LongForm, FunctionScript.JumpOp;
    var c := StmtLowering.EmitBody(s);
    CoveredLinks(s, slots);
    ProgramShape(s, i);
    Stays(FunctionScript.Program(s), FunctionScript.Labels(s), map[0 := slots], i + 1);
    CoveredMeans(s, slots);
    LabelPlacement.BodyPlaced(s);
    LabelsOf(c, i);
    JumpWritten(c.prog[i]);
    FinalJump(FunctionScript.Program(s), FunctionScript.Labels(s), map[0 := slots], i + 1);
  }

  lemma LabelsOf(c: S.Code, i: nat)
    requires LabelPlacement.AllPlaced(c, {}) && i < |c.prog| && c.prog[i].Jump?
    ensures c.prog[i].lab < |c.l| && 0 <= c.l[c.prog[i].lab] <= |c.prog|
  {}

  lemma JumpWritten(i: S.Instr)
    requires i.Jump? && i.lab < 0x1_0000
    ensures var ins := FunctionScript.Written(i);
            && ins.op == FunctionScript.JumpOp(i.kind) && IsLongJump(ins.op) && |ins.arg| == 4
            && U16(ins.arg[..2]) == i.lab
  {}

  /** Operations that are not jumps or returns are written as instructions on data, or calls. */
  lemma WrittenIsStraight(i: S.Instr)
    requires !i.Jump? && !i.Ret?
    ensures var ins := FunctionScript.Written(i);
            && ((!IsControl(ins.op) && ins.op != INITSLOT) || ins.op == SYSCALL)
            && ins.op !in {PUSHDATA1, PUSHDATA2, PUSHDATA4}
  {}

  lemma JumpIsPlain(op: Byte, kind: S.JumpKind)
    requires LongForm(op) == FunctionScript.JumpOp(kind)
    ensures op !in {PUSHDATA1, PUSHDATA2, PUSHDATA4}
  {}

  lemma JumpSimulated(w: S.World, s: Statements.Stmt, slots: nat, cfg: Config, k: S.Conf, j: Conf)
    requires Covered(s, slots) && cfg.limit < 0 && Simulates(s, slots, k, j) && k.At?
    requires k.pc < |StmtLowering.EmitBody(s).prog| && StmtLowering.EmitBody(s).prog[k.pc].Jump?
    requires !S.Exec1(w, StmtLowering.EmitBody(s).prog[k.pc], StmtLowering.EmitBody(s).l, k).Failed?
    ensures Simulates(s, slots, S.Exec1(w, StmtLowering.EmitBody(s).prog[k.pc], StmtLowering.EmitBody(s).l, k),
                      DataMachine.Step(Lift(w), FinalBytes(s, slots), cfg, j))
  {
    hide StmtLowering.EmitBody, DataMachine.Step, EffectOf, S.Exec1, FinalProgram, FinalIndex, Covered, Executes,
         SlotsAre, Encode, WellFormed, Addr, LongForm, OffsetOf, IsConditional, FunctionScript.JumpOp, Lift,
         FunctionScript.Written;
    var c := StmtLowering.EmitBody(s);
    var i := c.prog[k.pc];
    var f, n := FinalProgram(s, slots), FinalIndex(s, slots, k.pc);
    var d := Memory(k.stack, j.locals[0], j.statics, k.trace, None);
    JumpBecomes(s, slots, k.pc);
    JumpIsPlain(f[n].op, i.kind);
    ExecutesIns(f, n, cfg, j.vm);
    AddressInside(f, FinalIndex(s, slots, c.l[i.lab]));
    BranchMatches(w, c.l, i.kind, i.lab, f[n].op, f[n].arg, k, d, slots);
    BranchStep(Lift(w), Encode(f), cfg, j, f[n].op, f[n].arg, Addr(f, n + 1), d,
               EffectOf(Lift(w), f[n].op, f[n].arg, d));
  }

  lemma ReturnSimulated(w: S.World, s: Statements.Stmt, slots: nat, cfg: Config, k: S.Conf, j: Conf)
    requires Covered(s, slots) && cfg.limit < 0 && Simulates(s, slots, k, j) && k.At?
    requires k.pc < |StmtLowering.EmitBody(s).prog| && StmtLowering.EmitBody(s).prog[k.pc].Ret?
    ensures Simulates(s, slots, S.Returned(k.stack, k.env, k.trace),
                      DataMachine.Step(Lift(w), FinalBytes(s, slots), cfg, j))
  {
    hide StmtLowering.EmitBody, DataMachine.Step, FinalProgram, FinalIndex, Covered, Executes, SlotsAre, Encode,
         WellFormed, Addr, LongForm, OffsetOf, FunctionScript.JumpOp, Lift, FunctionScript.Written;
    var f, n := FinalProgram(s, slots), FinalIndex(s, slots, k.pc);
    PlainBecomes(s, slots, k.pc);
    ReturnWritten();
    ExecutesIns(f, n, cfg, j.vm);
    ReturnStep(Lift(w), Encode(f), cfg, j, Addr(f, n + 1), Memory(k.stack, j.locals[0], j.statics, k.trace, None));
  }

  lemma StraightSimulated(w: S.World, s: Statements.Stmt, slots: nat, cfg: Config, k: S.Conf, j: Conf)
    requires Covered(s, slots) && cfg.limit < 0 && Simulates(s, slots, k, j) && k.At?
    requires k.pc < |StmtLowering.EmitBody(s).prog|
    requires var i := StmtLowering.EmitBody(s).prog[k.pc]; !i.Jump? && !i.Ret?
    requires !S.Exec1(w, StmtLowering.EmitBody(s).prog[k.pc], StmtLowering.EmitBody(s).l, k).Failed?
    ensures Simulates(s, slots, S.Exec1(w, StmtLowering.EmitBody(s).prog[k.pc], StmtLowering.EmitBody(s).l, k),
                      DataMachine.Step(Lift(w), FinalBytes(s, slots), cfg, j))
  {
    hide StmtLowering.EmitBody, DataMachine.Step, EffectOf, S.Exec1, FinalProgram, FinalIndex, Covered, Executes,
         SlotsAre, Encode, WellFormed, Addr, LongForm, OffsetOf, IsControl, FunctionScript.JumpOp, Lift,
         FunctionScript.Written;
    var c := StmtLowering.EmitBody(s);
    var i := c.prog[k.pc];
    var f, n := FinalProgram(s, slots), FinalIndex(s, slots, k.pc);
    var d := Memory(k.stack, j.locals[0], j.statics, k.trace, None);
    PlainBecomes(s, slots, k.pc);
    WrittenIsStraight(i);
    ExecutesIns(f, n, cfg, j.vm);
    CoveredMeans(s, slots);
    assert CodeOperands.Fits(c.prog[k.pc], |c.l|, slots);
    WrittenMatches(w, c.l, i, k, d, slots, |c.l|);
    StraightStep(Lift(w), Encode(f), cfg, j, f[n].op, f[n].arg, Addr(f, n + 1), d);
  }

  /** One step of the virtual machine on the final bytes does what one step of the stack code does. */
  lemma StepSimulated(w: S.World, s: Statements.Stmt, slots: nat, cfg: Config, k: S.Conf, j: Conf)
    requires Covered(s, slots) && cfg.limit < 0 && Simulates(s, slots, k, j)
    requires !S.Step(w, StmtLowering.EmitBody(s).prog, StmtLowering.EmitBody(s).l, k).Failed?
    ensures Simulates(s, slots, S.Step(w, StmtLowering.EmitBody(s).prog, StmtLowering.EmitBody(s).l, k),
                      DataMachine.Step(Lift(w), FinalBytes(s, slots), cfg, j))
  {
    hide StmtLowering.EmitBody, S.Exec1, Covered, Simulates, FinalBytes;
    if k.At? {
      var c := StmtLowering.EmitBody(s);
      if c.prog[k.pc].Jump? {
        JumpSimulated(w, s, slots, cfg, k, j);
      } else if c.prog[k.pc].Ret? {
        ReturnSimulated(w, s, slots, cfg, k, j);
        ReturnMeans(w, c.l, k);
      } else {
        StraightSimulated(w, s, slots, cfg, k, j);
      }
    } else {
      EndSimulated(Lift(w), s, slots, cfg, k, j);
    }
  }

  lemma EndSimulated(w: Calls, s: Statements.Stmt, slots: nat, cfg: Config, k: S.Conf, j: Conf)
    requires Covered(s, slots) && Simulates(s, slots, k, j) && k.Returned?
    ensures DataMachine.Step(w, FinalBytes(s, slots), cfg, j) == j
  {}

  lemma ReturnWritten()
    ensures FunctionScript.Written(S.Ret) == Ins(RET, [])
  {}

  lemma ReturnMeans(w: S.World, l: seq<int>, k: S.Conf)
    requires k.At?
    ensures S.Exec1(w, S.Ret, l, k) == S.Returned(k.stack, k.env, k.trace)
  {}

  lemma CoveredMeans(s: Statements.Stmt, slots: nat)
    requires Covered(s, slots)
    ensures |StmtLowering.EmitBody(s).l| <= 0x1_0000 && slots <= 255 && Statements.Legal(s, [])
    ensures CodeOperands.AllFit(StmtLowering.EmitBody(s), slots)
  {
    hide StmtLowering.EmitBody, CodeOperands.AllFit, CodeOperands.StmtFits, Statements.Legal;
    CodeOperands.BodyFits(s, slots);
  }

  // ----- whole runs -----

  lemma {:induction false} StepsSimulated(w: S.World, s: Statements.Stmt, slots: nat, cfg: Config, k: S.Conf, j: Conf,
                                          n: nat)
    requires Covered(s, slots) && cfg.limit < 0 && Simulates(s, slots, k, j)
    requires !S.Steps(w, StmtLowering.EmitBody(s).prog, StmtLowering.EmitBody(s).l, k, n).Failed?
    ensures Simulates(s, slots, S.Steps(w, StmtLowering.EmitBody(s).prog, StmtLowering.EmitBody(s).l, k, n),
                      Steps(Lift(w), FinalBytes(s, slots), cfg, j, n))
    decreases n
  {
    hide Covered, Simulates, FinalBytes, S.Step, DataMachine.Step, StmtLowering.EmitBody;
    if n > 0 {
      var c := StmtLowering.EmitBody(s);
      var k' := S.Step(w, c.prog, c.l, k);
      if k'.Failed? { S.EndStays(w, c.prog, c.l, k', n - 1); }
      StepSimulated(w, s, slots, cfg, k, j);
      StepsSimulated(w, s, slots, cfg, k', DataMachine.Step(Lift(w), FinalBytes(s, slots), cfg, j), n - 1);
    }
  }

  /** The prologue gives the function slots with null in them. */
  lemma PrologueStep(w: Calls, f: seq<Ins>, slots: nat, cfg: Config, statics: Slots)
    requires WellFormedProgram(f) && f != [] && 0 < slots <= 255 && f[0] == Ins(INITSLOT, [slots, 0]) && cfg.limit < 0
    ensures Stands(DataMachine.Step(w, Encode(f), cfg, Loaded(statics)), Addr(f, 1),
                   Memory([], Some(Nulls(slots)), statics, [], None))
    ensures DataMachine.Step(w, Encode(f), cfg, Loaded(statics)).vm.pointers == []
  {
    hide DataMachine.Step, Encode, WellFormed, Executes;
    ExecutesIns(f, 0, cfg, Loaded(statics).vm);
    var d := Memory([], None, statics, [], None);
    assert EffectOf(w, INITSLOT, [slots, 0], d) == DataMachine.Done(d.(locals := Some(Nulls(slots))));
    StraightStep(w, Encode(f), cfg, Loaded(statics), INITSLOT, [slots, 0], Addr(f, 1), d);
  }

  /** The body begins behind the prologue, or at the first byte if there are no variables. */
  lemma FirstPlace(s: Statements.Stmt, slots: nat, f: seq<Ins>)
    requires Covered(s, slots) && f == FinalProgram(s, slots)
    ensures WellFormedProgram(f) && slots <= 255 && FinalIndex(s, slots, 0) == if slots == 0 then 0 else 1
    ensures slots > 0 ==> f != [] && f[0] == Ins(INITSLOT, [Low8(slots), 0])
  {
    hide StmtLowering.EmitBody, Final, IndexOf, Linkable, Covered, WellFormed, FunctionScript.Program,
         FunctionScript.Labels, CodeOperands.AllFit, Statements.Legal;
    var p, l, counts := FunctionScript.Program(s), FunctionScript.Labels(s), map[0 := slots];
    CoveredLinks(s, slots);
    CoveredMeans(s, slots);
    StartsWithPrologue(s);
    StartIndex(p, l, counts);
    NextIndex(p, l, counts, 0);
    FinalFacts(p, l, counts);
    assert Addr(p, 0) == 0;
    if slots > 0 { FinalPrologue(p, l, counts, 0); }
  }

  /** Started at its first byte, the function has null in all its slots when its body begins. */
  lemma BodyBegins(w: S.World, s: Statements.Stmt, slots: nat, cfg: Config, statics: Slots) returns (j: Conf)
    requires Covered(s, slots) && cfg.limit < 0
    ensures Reaches(Lift(w), FinalBytes(s, slots), cfg, Loaded(statics), j)
    ensures Simulates(s, slots, S.At(0, [], map[], []), j)
  {
    hide StmtLowering.EmitBody, DataMachine.Step, FinalProgram, FinalIndex, Covered, Encode, WellFormedProgram,
         Reaches;
    FirstPlace(s, slots, FinalProgram(s, slots));
    assert Low8(slots) == slots;
    Itself(Lift(w), FinalBytes(s, slots), cfg, Loaded(statics));
    if slots == 0 {
      j := Loaded(statics);
    } else {
      PrologueStep(Lift(w), FinalProgram(s, slots), slots, cfg, statics);
      OneStep(Lift(w), FinalBytes(s, slots), cfg, Loaded(statics));
      j := DataMachine.Step(Lift(w), FinalBytes(s, slots), cfg, Loaded(statics));
    }
  }

  lemma StartsWithPrologue(s: Statements.Stmt)
    ensures FunctionScript.Program(s) != [] && FunctionScript.Program(s)[0] == Ins(INITSLOT, [0, 0])
  {
    hide StmtLowering.EmitBody;
  }

  /** What the machine returns for a function with the given outcome: its result on the stack, after its calls. */
  predicate Delivers(end: Conf, out: Statements.Outcome) {
    && out.Gave? && end.Conf? && end.vm.Halted?
    && end.stack == StmtContext.Results(out.result) && end.trace == out.trace
  }

  /**
   * The bytes that the compiler returns for a function, loaded into the virtual machine and run from offset zero, halt
   * with exactly the function's result on the stack, after exactly its calls; and there is no other way for the run to
   * end.
   */
  lemma CompiledBytesReturn(w: S.World, s: Statements.Stmt, slots: nat, cfg: Config, statics: Slots, fuel: nat)
    returns (end: Conf)
    requires Covered(s, slots) && cfg.limit < 0
    requires StmtRuns.BodyResult(Statements.Exec(w, Statements.Emitted, s, map[], [], fuel)).Gave?
    ensures Reaches(Lift(w), FinalBytes(s, slots), cfg, Loaded(statics), end)
    ensures Delivers(end, StmtRuns.BodyResult(Statements.Exec(w, Statements.Emitted, s, map[], [], fuel)))
    ensures forall j :: Reaches(Lift(w), FinalBytes(s, slots), cfg, Loaded(statics), j) && Ended(j) ==> j == end
  {
    hide Covered, FinalBytes, S.Step, DataMachine.Step, StmtLowering.EmitBody, Statements.Exec, Statements.Legal,
         PlaceOf, CodeOperands.AllFit, Stands, SlotsAre;
    var out := StmtRuns.BodyResult(Statements.Exec(w, Statements.Emitted, s, map[], [], fuel));
    var c := StmtLowering.EmitBody(s);
    var b := FinalBytes(s, slots);
    CoveredMeans(s, slots);
    StmtRuns.FunctionRuns(w, s, map[], fuel);
    var k := S.At(0, [], map[], []);
    var last := S.Returned(StmtContext.Results(out.result), out.env, out.trace);
    var n: nat :| S.Steps(w, c.prog, c.l, k, n) == last;
    var j := BodyBegins(w, s, slots, cfg, statics);
    StepsSimulated(w, s, slots, cfg, k, j, n);
    end := Steps(Lift(w), b, cfg, j, n);
    assert Reaches(Lift(w), b, cfg, j, end);
    Through(Lift(w), b, cfg, Loaded(statics), j, end);
    forall i | Reaches(Lift(w), b, cfg, Loaded(statics), i) && Ended(i) ensures i == end {
      OneEnd(Lift(w), b, cfg, Loaded(statics), i, end);
    }
  }

  /** So they do what the source says, wherever its switches choose as the language does. */
  lemma CompiledBytesMeanSource(w: S.World, s: Statements.Stmt, slots: nat, cfg: Config, statics: Slots, fuel: nat)
    returns (end: Conf)
    requires Covered(s, slots) && cfg.limit < 0
    requires StmtRuns.BodyResult(Statements.Exec(w, Statements.Source, s, map[], [], fuel)).Gave?
    requires !Statements.Exec(w, Statements.Both, s, map[], [], fuel).Differs?
    ensures Reaches(Lift(w), FinalBytes(s, slots), cfg, Loaded(statics), end)
    ensures Delivers(end, StmtRuns.BodyResult(Statements.Exec(w, Statements.Source, s, map[], [], fuel)))
    ensures forall j :: Reaches(Lift(w), FinalBytes(s, slots), cfg, Loaded(statics), j) && Ended(j) ==> j == end
  {
    hide *;
    var source := Statements.Exec(w, Statements.Source, s, map[], [], fuel);
    var emitted := Statements.Exec(w, Statements.Emitted, s, map[], [], fuel);
    DefaultClauses.ModesAgree(w, s, map[], [], fuel);
    DefaultClauses.AgreeMeans(DefaultClauses.DefaultsLast(s), source, emitted,
                              Statements.Exec(w, Statements.Both, s, map[], [], fuel));
    end := CompiledBytesReturn(w, s, slots, cfg, statics, fuel);
  }

  // ----- the static checker -----

  /** The checker accepts the final script of every such function, with any methods at instruction starts. */
  lemma CompiledBytesAccepted(s: Statements.Stmt, slots: nat, methods: ScriptCheck.Methods)
    requires Covered(s, slots)
    ensures ScriptCheck.CheckVerdict(FinalBytes(s, slots), methods) == ScriptCheck.Correct <==>
            ScriptAcceptance.MethodsOk(FinalProgram(s, slots), methods)
  {
    hide Final, Linkable, FunctionScript.Program, FunctionScript.Labels, StmtLowering.EmitBody, Encode, Covered,
         ScriptCheck.CheckVerdict, ScriptAcceptance.MethodsOk, FunctionScript.Written, Statements.Legal,
         CodeOperands.AllFit, FinalAcceptance.TypeOk;
    var c := StmtLowering.EmitBody(s);
    var p, l := FunctionScript.Program(s), FunctionScript.Labels(s);
    CoveredLinks(s, slots);
    CoveredMeans(s, slots);
    LabelPlacement.LabelsInside(s);
    StartsWithPrologue(s);
    forall i | 0 <= i < |p|
      ensures FinalAcceptance.TypeOk(p[i]) && (p[i].op == INITSLOT ==> p[i].arg == [0, 0])
    {
      if i == 0 {
        TypeOfPrologue();
      } else {
        ProgramLength(s);
        ProgramShape(s, i - 1);
        TypesWritten(c.prog[i - 1]);
      }
    }
    ProgramLength(s);
    forall x | 0 <= x < |l| ensures 0 <= l[x] < |p| && p[l[x]].op != INITSLOT {
      ProgramShape(s, c.l[x]);
    }
    FinalAcceptance.FinalAccepted(p, l, map[0 := slots], methods);
  }

  lemma ProgramLength(s: Statements.Stmt)
    ensures |FunctionScript.Program(s)| == |StmtLowering.EmitBody(s).prog| + 1
    ensures |FunctionScript.Labels(s)| == |StmtLowering.EmitBody(s).l|
    ensures forall x :: 0 <= x < |FunctionScript.Labels(s)| ==>
              FunctionScript.Labels(s)[x] == StmtLowering.EmitBody(s).l[x] + 1
  {
    hide StmtLowering.EmitBody;
  }

  lemma TypeOfPrologue()
    ensures FinalAcceptance.TypeOk(Ins(INITSLOT, [0, 0]))
  {}

  lemma TypesWritten(i: S.Instr)
    ensures FinalAcceptance.TypeOk(FunctionScript.Written(i))
  {
    assert [FunctionScript.BOOLEAN_TYPE] == [ScriptAcceptance.TypeByte(ScriptAcceptance.Boolean)];
  }
}
