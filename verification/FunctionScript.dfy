/** The code of statements as instructions. */
module FunctionScript {
  import opened Bytes
  import opened Opcodes
  import opened Instructions
  import opened JumpShortening
  import opened ShortenedProgram
  import opened WriteJumps
  import opened Machine
  import opened ShorteningRun
  import opened FinalScript
  import opened Bytecode
  import StackCode
  import Statements
  import StmtLowering
  import LabelPlacement

  const BOOLEAN_TYPE: Byte := 0x20

  function TestOp(r: StackCode.Relation): Byte {
    match r
    case Eq => 0xB3
    case Ne => 0xB4
    case Lt => 0xB5
    case Le => 0xB6
    case Gt => 0xB7
    case Ge => 0xB8
  }

  function JumpOp(kind: StackCode.JumpKind): Byte {
    match kind
    case Always => JMPL
    case IfTrue => JMPIFL
    case IfFalse => JMPIFNOTL
    case Compared(r) =>
      match r
      case Eq => JMPEQL
      case Ne => JMPNEL
      case Lt => JMPLTL
      case Le => JMPLEL
      case Gt => JMPGTL
      case Ge => JMPGEL
  }

  /** Calls are written as system calls. */
  function Written(i: StackCode.Instr): Ins {
    match i
    case Push(n) => IntIns(n)
    case PushNull => Ins(PUSHNULL, [])
    case ToBool => Ins(CONVERT, [BOOLEAN_TYPE])
    case Load(x) => SlotIns(0x68, x)
    case Store(x) => SlotIns(0x70, x)
    case Perform(f) => Ins(SYSCALL, LE32(f))
    case Not => Ins(0xAA, [])
    case IsNull => Ins(0xD8, [])
    case Same(negated) => Ins(if negated then 0x98 else 0x97, [])
    case Test(r) => Ins(TestOp(r), [])
    case Arith(a) => Ins(match a case Plus => 0x9E case Minus => 0x9F case Times => 0xA0, [])
    case Inc => Ins(0x9C, [])
    case Dec => Ins(0x9D, [])
    case Dup => Ins(0x4A, [])
    case Drop => Ins(0x45, [])
    case Over => Ins(0x4B, [])
    case Pick => Ins(0x4D, [])
    case Pack => Ins(0xC0, [])
    case Size => Ins(0xCA, [])
    case PickItem => Ins(PICKITEM, [])
    case Jump(kind, lab) => JumpIns(JumpOp(kind), lab)
    case Ret => Ins(RET, [])
  }

  function Script(c: StackCode.Code): (p: seq<Ins>)
    ensures |p| == |c.prog| && forall i :: 0 <= i < |p| ==> p[i] == Written(c.prog[i])
  {
    seq(|c.prog|, i requires 0 <= i < |c.prog| => Written(c.prog[i]))
  }

  lemma WrittenFits(i: StackCode.Instr)
    ensures var ins := Written(i);
            && IsValid(ins.op) && ins.op !in {PUSHDATA1, PUSHDATA2, PUSHDATA4} && |ins.arg| == ParameterSize(ins.op)
            && ins.op !in {TRY, TRYL, PUSHA, INITSLOT} && !IsShortJump(ins.op)
            && (IsLongJump(ins.op) ==> i.Jump? && ins.arg == LabelBytes(i.lab))
  {
    hide LabelBytes, LE32, LittleEndian;
  }

  lemma WrittenLabelled(c: StackCode.Code, i: nat)
    requires i < |c.prog| && |c.l| <= 0x1_0000 && LabelPlacement.AllPlaced(c, {})
    ensures Labelled(Script(c), c.l, i)
  {
    hide LabelBytes, Written, IsValid, IsShortJump, IsLongJump, ParameterSize, U16;
    assert Script(c)[i] == Written(c.prog[i]);
    WrittenFits(c.prog[i]);
    if c.prog[i].Jump? { assert c.prog[i].lab < |c.l|; }
  }

  /** A whole function: its prologue, then its body. */
  function Program(s: Statements.Stmt): seq<Ins> { WithPrologue(Script(StmtLowering.EmitBody(s))) }

  function Labels(s: Statements.Stmt): seq<int> { Shifted(StmtLowering.EmitBody(s).l) }

  lemma ProgramLabelled(s: Statements.Stmt)
    requires Statements.Legal(s, []) && |StmtLowering.EmitBody(s).l| <= 0x1_0000
    ensures AllLabelled(Program(s), Labels(s))
  {
    hide Labelled, Written, StmtLowering.EmitBody, Statements.Legal;
    var c := StmtLowering.EmitBody(s);
    var p := Script(c);
    LabelPlacement.BodyPlaced(s);
    forall i | 0 <= i < |p| ensures Labelled(p, c.l, i) { WrittenLabelled(c, i); }
    PrologueLabelled(p, c.l);
  }

  /** Enough for the compiler: 65536 labels, 255 local variables, and offsets of 32 bits. */
  ghost predicate WithinLimits(s: Statements.Stmt, slots: nat) {
    && Statements.Legal(s, []) && |StmtLowering.EmitBody(s).l| <= 0x1_0000 && slots <= 255
    && Addr(Program(s), |Program(s)|) < 0x8000_0000
  }

  /**
   * The script of every function within these limits has all its labels on instruction boundaries, and resolving them
   * succeeds: what the compiler writes for a function can be resolved, shortened and run.
   */
  lemma FunctionCompiles(s: Statements.Stmt, slots: nat)
    requires WithinLimits(s, slots)
    ensures Compiles(Program(s), Labels(s), map[0 := slots])
  {
    hide Labelled, Emitted, Resolve, Program, Labels, StmtLowering.EmitBody, Statements.Legal, Addr;
    ProgramLabelled(s);
    LabelledIsEmitted(Program(s), Labels(s));
    LabelledResolves(Program(s), Labels(s), map[0 := slots], |Program(s)|);
  }

  /**
   * So the script that the compiler finally returns for a function runs like its resolved code, calls and faults
   * included.
   */
  lemma FunctionRunsAlike(s: Statements.Stmt, slots: nat, cfg: Config, choices: seq<Choice>)
    requires WithinLimits(s, slots)
    ensures RunsAlike(Program(s), Labels(s), map[0 := slots], cfg, choices)
  {
    hide *;
    FunctionCompiles(s, slots);
    CompiledRuns(Program(s), Labels(s), map[0 := slots], cfg, choices);
  }

  /**
   * The final bytes, started at the image of offset zero, do what the resolved code does that is started at offset
   * zero, in state and in trace.
   */
  ghost predicate RunsAlike(p: seq<Ins>, l: seq<int>, counts: map<nat, nat>, cfg: Config, choices: seq<Choice>) {
    && InProgram(p, l) && Resolve(p, Addresses(p, l), counts, |p|).Done?
    && var (q, cut) := Resolve(p, Addresses(p, l), counts, |p|).value;
       var start := Running([Frame(0, [])], false, [], 0);
       && MarkedFit(q, cut) && WellDirected(q) && OnSites(q, start)
       && var final, m := Encode(Shortened(q, cut)), ImageMap(q, cut);
          && m(0) >= 0
          && var entry := Running([Frame(m(0), [])], false, [], 0);
             && Run(final, cfg, entry, choices) == MoveState(m, ReferenceRun(q, cut, cfg, start, choices))
             && Trace(final, cfg, entry, choices) == ReferenceTrace(q, cut, cfg, start, choices)
  }

  lemma CompiledRuns(p: seq<Ins>, l: seq<int>, counts: map<nat, nat>, cfg: Config, choices: seq<Choice>)
    requires Compiles(p, l, counts)
    ensures RunsAlike(p, l, counts, cfg, choices)
  {
    hide Run, Trace, ReferenceRun, ReferenceTrace, Resolve, Emitted, Labelled, Addr, Encode, Shortened, ImageMap,
         MarkedFit, WellDirected, OnSites, MoveState;
    CompiledRunsAlike(p, Addresses(p, l), counts, cfg, 0, choices);
    AddrStart(Resolve(p, Addresses(p, l), counts, |p|).value.0);
  }

  lemma AddrStart(q: seq<Ins>)
    ensures Addr(q, 0) == 0
  {}
}
