/**
 * The final bytes of a function with deferred calls, run on data from offset zero, make the calls of its body and then
 * each registered call exactly once, last first.
 */
module DeferMachine {
  import opened Bytes
  import opened Opcodes
  import opened Common
  import opened Instructions
  import opened Machine
  import opened ShorteningRun
  import opened ControlLaws
  import opened Bytecode
  import opened FinalLayout
  import opened DataMachine
  import opened DataSteps
  import Context
  import D = Defers
  import R = DefersRun
  import DeferScript
  import CodeOperands
  import S = StackCode
  import FunctionMachine
  import FinalAcceptance
  import ScriptAcceptance
  import ScriptCheck

  /** Calls return nothing or throw. */
  function Lift(w: D.World): Calls { (f: nat, tr: seq<nat>) => if w(f, tr) then Throws(S.Value.Null) else Silent }

  // ----- control -----

  /** Equal but for the gas consumed. */
  predicate SameButGas(a: State, b: State) {
    || a == b || (a.Halted? && b.Halted?)
    || (a.Running? && b.Running? && a.frames == b.frames && a.uncaught == b.uncaught && a.pointers == b.pointers)
  }

  /** Without a limit, gas decides nothing. */
  lemma GasDecidesNothing(cfg: Config, o: Operation, st: State, g: int, ch: Choice)
    requires st.Running? && st.frames != [] && cfg.limit < 0
    ensures SameButGas(Apply(cfg, o, st.(gas := g), ch), Apply(cfg, o, st, ch))
  {
    hide HandleException;
  }

  lemma MovedAlike(m: int -> int, a: State, b: State)
    requires Relocation(m) && SameButGas(a, b)
    ensures SameButGas(MoveState(m, a), MoveState(m, b))
  {}

  /**
   * An instruction whose operation is the relocated one of another program's takes the relocated state of that program
   * to the relocated state after it.
   */
  lemma RelocatedStep(script: seq<Byte>, cfg: Config, b: State, op: Byte, arg: seq<Byte>, next: nat, ch: Choice,
                      m: int -> int, o: Operation, st: State)
    requires Relocation(m) && st.Running? && st.frames != [] && b.Running? && SameButGas(b, MoveState(m, st))
    requires Executes(script, cfg, b, op, arg, next) && cfg.limit < 0
    requires st.frames[0].nextip >= 0 && next == m(st.frames[0].nextip + 1)
    requires OperationOf(script, b.frames[0].nextip, op, arg) == MoveOperation(m, o)
    ensures SameButGas(Machine.Step(script, cfg, b, ch),
                       MoveState(m, Apply(cfg, o, JumpTo(st, st.frames[0].nextip + 1), ch)))
  {
    hide Apply, OperationOf, MoveFrames, MoveOperation, Coefficient, MovePointers;
    var pc := st.frames[0].nextip;
    var g := b.gas + Coefficient(op) * cfg.base;
    var x := JumpTo(st, pc + 1);
    JumpMoved(m, pc + 1, st.(gas := g));
    ApplyMoved(m, cfg, o, x.(gas := g), ch);
    GasDecidesNothing(cfg, o, x, g, ch);
    MovedAlike(m, Apply(cfg, o, x.(gas := g), ch), Apply(cfg, o, x, ch));
  }

  // ----- data -----

  /** An exception may be any item; the flag is null before it is first set. */
  predicate CellIs(c: R.Cell, v: S.Value) {
    c.Number? ==> v == S.Value.Int(c.n) || (c.n == 0 && v == S.Value.Null)
  }

  predicate StackIs(cells: seq<R.Cell>, stack: seq<S.Value>) {
    |cells| == |stack| && forall i :: 0 <= i < |cells| ==> CellIs(cells[i], stack[i])
  }

  /** Slots for the flag and the exception. */
  predicate SlotsHold(d: Memory, flag: int, e: nat, f: nat) {
    && d.locals.Some? && f < |d.locals.value| && CellIs(R.Number(flag), d.locals.value[f])
    && d.statics.Some? && e < |d.statics.value|
  }

  predicate DataIs(d: Memory, k: R.Conf, e: nat, f: nat) {
    StackIs(k.stack, d.stack) && SlotsHold(d, k.flag, e, f) && d.trace == k.trace
  }

  lemma SlotsNamed(i: nat, base: Byte)
    requires i <= 255 && base <= 0xF0
    ensures SlotIndex(SlotIns(base, i).op, base, SlotIns(base, i).arg) == i
    ensures base <= SlotIns(base, i).op <= base + 7
  {}

  /** What an operation without control does to the data. */
  ghost predicate Turns(w: D.World, i: D.Op, d: Memory, k: R.Conf, k': R.Conf, e: nat, f: nat) {
    var ins := DeferScript.Written(i, e, f);
    var r := EffectOf(Lift(w), ins.op, ins.arg, d);
    r.Works? && r.raised.None? && DataIs(r.data, k', e, f) && r.data.pending == d.pending
  }

  lemma StoreExceptionTurns(w: D.World, d: Memory, k: R.Conf, e: nat, f: nat)
    requires DataIs(d, k, e, f) && e <= 255 && f <= 255 && k.stack != []
    ensures Turns(w, D.StoreException, d, k, k.(stack := k.stack[..|k.stack| - 1]), e, f)
  {
    SlotsNamed(e, 0x60);
  }

  lemma StoreFlagTurns(w: D.World, d: Memory, k: R.Conf, e: nat, f: nat)
    requires DataIs(d, k, e, f) && e <= 255 && f <= 255 && k.stack != [] && k.stack[|k.stack| - 1].Number?
    ensures Turns(w, D.StoreFlag, d, k, k.(stack := k.stack[..|k.stack| - 1], flag := k.stack[|k.stack| - 1].n), e, f)
  {
    SlotsNamed(f, 0x70);
  }

  lemma LoadFlagTurns(w: D.World, d: Memory, k: R.Conf, e: nat, f: nat)
    requires DataIs(d, k, e, f) && e <= 255 && f <= 255
    ensures Turns(w, D.LoadFlag, d, k, k.(stack := k.stack + [R.Number(k.flag)]), e, f)
  {
    SlotsNamed(f, 0x68);
    assert d.stack[..|d.stack| - 0] == d.stack;
  }

  lemma ConstTurns(w: D.World, d: Memory, k: R.Conf, e: nat, f: nat, n: int)
    requires DataIs(d, k, e, f) && CodeOperands.IsInt64(n)
    ensures Turns(w, D.Const(n), d, k, k.(stack := k.stack + [R.Number(n)]), e, f)
  {
    hide EffectOf, IntIns;
    PushedNumber(Lift(w), n, d);
  }

  // ----- the final program -----

  /** Bodies that the theorem is about: within the compiler's limits, with call numbers of 32 bits. */
  ghost predicate Covered(items: seq<D.Item>, e: nat, f: nat, slots: nat) {
    && DeferScript.WithinLimits(items, e, f, slots)
    && forall i :: 0 <= i < |items| ==> CodeOperands.IsCallNumber(items[i].call)
  }

  ghost function FinalProgram(items: seq<D.Item>, e: nat, f: nat, slots: nat): seq<Ins>
    requires Covered(items, e, f, slots)
  {
    DeferScript.DefersCompile(items, e, f, slots);
    Final(DeferScript.Program(items, e, f), DeferScript.Labels(items), map[0 := slots])
  }

  ghost function FinalBytes(items: seq<D.Item>, e: nat, f: nat, slots: nat): seq<Byte>
    requires Covered(items, e, f, slots)
  {
    Encode(FinalProgram(items, e, f, slots))
  }

  /** Where operation i is in the final program. */
  ghost function FinalIndex(items: seq<D.Item>, e: nat, f: nat, slots: nat, i: nat): (j: nat)
    requires Covered(items, e, f, slots) && i <= |D.EmitFunction(items).prog|
    ensures j <= |FinalProgram(items, e, f, slots)|
  {
    DeferScript.DefersCompile(items, e, f, slots);
    NextIndex(DeferScript.Program(items, e, f), DeferScript.Labels(items), map[0 := slots], i);
    IndexOf(DeferScript.Program(items, e, f), DeferScript.Labels(items), map[0 := slots], i + 1)
  }

  ghost function PlaceOf(items: seq<D.Item>, e: nat, f: nat, slots: nat, i: nat): nat
    requires Covered(items, e, f, slots) && i <= |D.EmitFunction(items).prog|
  {
    Addr(FinalProgram(items, e, f, slots), FinalIndex(items, e, f, slots, i))
  }

  /** Places of operations to addresses of the final script; absent offsets stay absent. */
  ghost function Map(items: seq<D.Item>, e: nat, f: nat, slots: nat): (m: int -> int)
    requires Covered(items, e, f, slots)
    ensures Relocation(m)
    ensures forall i :: 0 <= i <= |D.EmitFunction(items).prog| ==> m(i) == PlaceOf(items, e, f, slots, i)
  {
    (x: int) => if 0 <= x <= |D.EmitFunction(items).prog| then PlaceOf(items, e, f, slots, x) else x
  }

  /** The instruction of the final script that operation i has become. */
  ghost predicate Became(items: seq<D.Item>, e: nat, f: nat, slots: nat, i: nat)
    requires Covered(items, e, f, slots) && i < |D.EmitFunction(items).prog|
  {
    var c, p, j := D.EmitFunction(items), FinalProgram(items, e, f, slots), FinalIndex(items, e, f, slots, i);
    && WellFormedProgram(p) && j < |p| && FinalIndex(items, e, f, slots, i + 1) == j + 1
    && match c.prog[i]
       case OpenTry(a, b) =>
         && a < |c.l| && b < |c.l| && 0 <= c.l[a] <= |c.prog| && 0 <= c.l[b] <= |c.prog|
         && p[j].op == TRYL && |p[j].arg| == 8
         && Addr(p, j) + Signed32(p[j].arg[..4]) == PlaceOf(items, e, f, slots, c.l[a])
         && Addr(p, j) + Signed32(p[j].arg[4..]) == PlaceOf(items, e, f, slots, c.l[b])
       case CloseTry(lab) =>
         && lab < |c.l| && 0 <= c.l[lab] <= |c.prog| && LongForm(p[j].op) == ENDTRYL
         && Addr(p, j) + OffsetOf(p[j].arg) == PlaceOf(items, e, f, slots, c.l[lab])
       case JumpIf(lab) =>
         && lab < |c.l| && 0 <= c.l[lab] <= |c.prog| && LongForm(p[j].op) == JMPIFL
         && Addr(p, j) + OffsetOf(p[j].arg) == PlaceOf(items, e, f, slots, c.l[lab])
       case _ => p[j] == DeferScript.Written(c.prog[i], e, f)
  }

  lemma CoveredLinks(items: seq<D.Item>, e: nat, f: nat, slots: nat)
    requires Covered(items, e, f, slots)
    ensures Linkable(DeferScript.Program(items, e, f), DeferScript.Labels(items), map[0 := slots])
    ensures |D.EmitFunction(items).l| <= 0x1_0000 && f < slots <= 255 && e < 255
  {
    DeferScript.DefersCompile(items, e, f, slots);
  }

  lemma ProgramShape(items: seq<D.Item>, e: nat, f: nat, i: nat)
    requires i < |D.EmitFunction(items).prog|
    ensures var c, p, l := D.EmitFunction(items), DeferScript.Program(items, e, f), DeferScript.Labels(items);
            && |p| == |c.prog| + 1 && p[0] == Ins(INITSLOT, [0, 0])
            && p[i + 1] == DeferScript.Written(c.prog[i], e, f) && p[i + 1].op != INITSLOT
            && |l| == |c.l| && (forall x :: 0 <= x < |l| ==> l[x] == c.l[x] + 1)
  {
    hide DeferScript.Written, D.EmitFunction;
    DeferScript.WrittenFits(D.EmitFunction(items).prog[i], e, f);
  }

  lemma LabelsOf(c: D.Code, i: nat)
    requires DeferScript.AllPlaced(c, {}) && i < |c.prog|
    ensures match c.prog[i]
            case OpenTry(a, b) => a < |c.l| && b < |c.l| && 0 <= c.l[a] <= |c.prog| && 0 <= c.l[b] <= |c.prog|
            case CloseTry(lab) => lab < |c.l| && 0 <= c.l[lab] <= |c.prog|
            case JumpIf(lab) => lab < |c.l| && 0 <= c.l[lab] <= |c.prog|
            case _ => true
  {
    assert DeferScript.RefersAt(c, {}, i);
  }

  /** Operations without labels are written as instructions without offsets. */
  lemma PlainWritten(i: D.Op, e: nat, f: nat)
    requires !i.OpenTry? && !i.CloseTry? && !i.JumpIf?
    ensures var ins := DeferScript.Written(i, e, f); !IsLongJump(ins.op) && ins.op != TRYL && ins.op != INITSLOT
  {}

  lemma LabelWritten(i: D.Op, e: nat, f: nat)
    requires (i.CloseTry? || i.JumpIf?) && i.lab < 0x1_0000
    ensures var ins := DeferScript.Written(i, e, f);
            && ins.op == (if i.CloseTry? then ENDTRYL else JMPIFL) && IsLongJump(ins.op) && |ins.arg| == 4
            && U16(ins.arg[..2]) == i.lab
  {}

  lemma TryWritten(a: nat, b: nat, e: nat, f: nat)
    requires a < 0x1_0000 && b < 0x1_0000
    ensures var ins := DeferScript.Written(D.OpenTry(a, b), e, f);
            ins.op == TRYL && |ins.arg| == 8 && U16(ins.arg[..2]) == a && U16(ins.arg[4..6]) == b
  {
    DeferScript.TryBytes(a, b);
  }

  lemma EachBecomes(items: seq<D.Item>, e: nat, f: nat, slots: nat, i: nat)
    requires Covered(items, e, f, slots) && i < |D.EmitFunction(items).prog|
    ensures Became(items, e, f, slots, i)
  {
    hide DeferScript.Written, D.EmitFunction, Final, IndexOf, Linkable, DeferScript.Program, DeferScript.Labels,
         Covered, WellFormedProgram, DeferScript.AllPlaced, OffsetOf, Addr, LongForm, Signed32, U16;
    var c := D.EmitFunction(items);
    var p, l, counts := DeferScript.Program(items, e, f), DeferScript.Labels(items), map[0 := slots];
    CoveredLinks(items, e, f, slots);
    ProgramShape(items, e, f, i);
    Stays(p, l, counts, i + 1);
    DeferScript.FunctionPlaced(items);
    LabelsOf(c, i);
    match c.prog[i]
    case OpenTry(a, b) =>
      TryWritten(a, b, e, f);
      FinalTry(p, l, counts, i + 1);
    case CloseTry(_) =>
      LabelWritten(c.prog[i], e, f);
      FinalJump(p, l, counts, i + 1);
    case JumpIf(_) =>
      LabelWritten(c.prog[i], e, f);
      FinalJump(p, l, counts, i + 1);
    case _ =>
      PlainWritten(c.prog[i], e, f);
      FinalPlain(p, l, counts, i + 1);
  }

  /** Different operations are at different places. */
  lemma {:induction false} PlacesGrow(items: seq<D.Item>, e: nat, f: nat, slots: nat, i: nat, n: nat)
    requires Covered(items, e, f, slots) && i < n <= |D.EmitFunction(items).prog|
    ensures PlaceOf(items, e, f, slots, i) < PlaceOf(items, e, f, slots, n)
    decreases n
  {
    hide Covered, D.EmitFunction, FinalProgram, FinalIndex, DeferScript.Written, WellFormedProgram, OffsetOf, LongForm,
         Signed32;
    EachBecomes(items, e, f, slots, n - 1);
    AddrMonotone(FinalProgram(items, e, f, slots), FinalIndex(items, e, f, slots, n - 1),
                 FinalIndex(items, e, f, slots, n));
    if i < n - 1 { PlacesGrow(items, e, f, slots, i, n - 1); }
  }

  // ----- operands -----

  predicate OpFits(i: D.Op) {
    (i.Perform? ==> CodeOperands.IsCallNumber(i.call)) && (i.Const? ==> CodeOperands.IsInt64(i.n))
  }

  predicate AllFit(c: D.Code) { forall k :: 0 <= k < |c.prog| ==> OpFits(c.prog[k]) }

  predicate CallsFit(stack: seq<D.Deferred>) {
    forall i :: 0 <= i < |stack| ==> CodeOperands.IsCallNumber(stack[i].call)
  }

  lemma {:induction false} ItemsFit(items: seq<D.Item>, stack: seq<D.Deferred>, c: D.Code)
    requires AllFit(c) && CallsFit(stack) && forall i :: 0 <= i < |items| ==> CodeOperands.IsCallNumber(items[i].call)
    ensures AllFit(D.EmitItems(items, stack, c).0) && CallsFit(D.EmitItems(items, stack, c).1)
    decreases |items|
  {
    if items != [] {
      match items[0]
      case Work(g) => ItemsFit(items[1..], stack, D.Emit(c, [D.Perform(g)]));
      case Defer(g) =>
        var n := |c.l|;
        ItemsFit(items[1..], stack + [D.Deferred(n, n + 1, g)],
                 D.Emit(D.AddLabel(D.AddLabel(c)), [D.OpenTry(n, n + 1)]));
    }
  }

  lemma {:induction false} DefersFit(stack: seq<D.Deferred>, c: D.Code)
    requires D.LabelsExist(stack, |c.l|) && AllFit(c) && CallsFit(stack)
    ensures AllFit(D.ProcessDefers(stack, c))
    decreases |stack|
  {
    hide D.EmitDefer;
    if stack != [] {
      var d := stack[|stack| - 1];
      assert AllFit(D.EmitDefer(d, c));
      DefersFit(stack[..|stack| - 1], D.EmitDefer(d, c));
    }
  }

  lemma FunctionFits(items: seq<D.Item>)
    requires forall i :: 0 <= i < |items| ==> CodeOperands.IsCallNumber(items[i].call)
    ensures AllFit(D.EmitFunction(items))
  {
    hide D.EmitItems, D.ProcessDefers;
    var (c, stack) := D.EmitItems(items, [], D.Code([], []));
    D.ItemsLabels(items, [], D.Code([], []));
    ItemsFit(items, [], D.Code([], []));
    DefersFit(stack, c);
  }

  // ----- simulation -----

  /** The virtual machine is in the relocated state of the handler code, with the same data. */
  ghost predicate Simulates(items: seq<D.Item>, e: nat, f: nat, slots: nat, k: R.Conf, j: Conf)
    requires Covered(items, e, f, slots)
  {
    && j.Conf? && SameButGas(j.vm, MoveState(Map(items, e, f, slots), k.vm))
    && StackIs(k.stack, j.stack) && j.trace == k.trace
    && (k.vm.Running? ==>
          && |k.vm.frames| == 1 && |j.locals| == 1
          && SlotsHold(Memory(j.stack, j.locals[0], j.statics, j.trace, None), k.flag, e, f))
  }

  /** The instruction at hand, its effect on the data, and the operation it is the relocated form of. */
  lemma OneStepSimulated(w: Calls, items: seq<D.Item>, e: nat, f: nat, slots: nat, cfg: Config, k: R.Conf, j: Conf,
                         k': R.Conf, o: Operation)
    requires Covered(items, e, f, slots) && Simulates(items, e, f, slots, k, j) && cfg.limit < 0
    requires k.vm.Running? && 0 <= k.vm.frames[0].nextip < |D.EmitFunction(items).prog|
    requires Became(items, e, f, slots, k.vm.frames[0].nextip)
    requires var p, n := FinalProgram(items, e, f, slots), FinalIndex(items, e, f, slots, k.vm.frames[0].nextip);
             var op, arg := p[n].op, p[n].arg;
             var r := EffectOf(w, op, arg, DataOf(j));
             && op !in {PUSHDATA1, PUSHDATA2, PUSHDATA4} && r.Works?
             && OperationOf(Encode(p), Addr(p, n), op, arg) == MoveOperation(Map(items, e, f, slots), o)
             && SameButGas(Apply(cfg, o, Machine.JumpTo(k.vm, k.vm.frames[0].nextip + 1), ChoiceOf(op, r)), k'.vm)
             && (k'.vm.Running? ==> |k'.vm.frames| == 1 && SlotsHold(r.data, k'.flag, e, f)) && r.data.trace == k'.trace
             && StackIs(k'.stack, if r.raised.Some? && k'.vm.Running? && !k'.vm.uncaught
                                  then r.data.stack + [r.raised.value] else r.data.stack)
    ensures Simulates(items, e, f, slots, k', DataMachine.Step(w, FinalBytes(items, e, f, slots), cfg, j))
  {
    hide Covered, D.EmitFunction, FinalProgram, FinalIndex, DataMachine.Step, Machine.Step, EffectOf, Encode, Addr,
         Apply, WellFormed, OperationOf, MoveOperation, Executes, Map, Relocation, OffsetOf, LongForm,
         DeferScript.Written, MoveFrames, StackIs, CellIs, Signed32, MovePointers;
    var m := Map(items, e, f, slots);
    var p, n := FinalProgram(items, e, f, slots), FinalIndex(items, e, f, slots, k.vm.frames[0].nextip);
    var op, arg := p[n].op, p[n].arg;
    var r := EffectOf(w, op, arg, DataOf(j));
    var pc := k.vm.frames[0].nextip;
    FramesMoved(m, k.vm.frames);
    assert j.vm.frames[0].nextip == Addr(p, n);
    ExecutesIns(p, n, cfg, j.vm);
    DataStep(w, Encode(p), cfg, j, op, arg, Addr(p, n + 1));
    RelocatedStep(Encode(p), cfg, j.vm, op, arg, Addr(p, n + 1), ChoiceOf(op, r), m, o, k.vm);
    MovedAlike(m, Apply(cfg, o, Machine.JumpTo(k.vm, pc + 1), ChoiceOf(op, r)), k'.vm);
    if k'.vm.Running? { FramesMoved(m, k'.vm.frames); }
  }

  // ----- one operation after the other -----

  /** The operation at pc is about to be executed. */
  ghost predicate Before(items: seq<D.Item>, e: nat, f: nat, slots: nat, cfg: Config, k: R.Conf, j: Conf) {
    && Covered(items, e, f, slots) && Simulates(items, e, f, slots, k, j) && cfg.limit < 0
    && k.vm.Running? && 0 <= k.vm.frames[0].nextip < |D.EmitFunction(items).prog|
  }

  predicate IsStraight(i: D.Op) { i.StoreException? || i.StoreFlag? || i.LoadFlag? || i.Const? }

  lemma StraightIsData(i: D.Op, e: nat, f: nat, script: seq<Byte>, ip: nat, cfg: Config, st: State, r: Effect)
    requires IsStraight(i) && r.Works? && r.raised.None? && st.Running? && st.frames != []
    ensures var ins := DeferScript.Written(i, e, f);
            && OperationOf(script, ip, ins.op, ins.arg) == Data(ins.op, ins.arg)
            && Apply(cfg, Data(ins.op, ins.arg), st, ChoiceOf(ins.op, r)) == st
            && ins.op !in {PUSHDATA1, PUSHDATA2, PUSHDATA4}
  {
    hide LittleEndian;
  }

  lemma StraightSimulated(w: D.World, items: seq<D.Item>, e: nat, f: nat, slots: nat, cfg: Config, k: R.Conf, j: Conf,
                          k': R.Conf)
    requires Before(items, e, f, slots, cfg, k, j)
    requires IsStraight(D.EmitFunction(items).prog[k.vm.frames[0].nextip])
    requires k'.vm == Machine.JumpTo(k.vm, k.vm.frames[0].nextip + 1)
    requires |j.locals| == 1 && Turns(w, D.EmitFunction(items).prog[k.vm.frames[0].nextip], DataOf(j), k, k', e, f)
    ensures Simulates(items, e, f, slots, k', DataMachine.Step(Lift(w), FinalBytes(items, e, f, slots), cfg, j))
  {
    hide Covered, D.EmitFunction, FinalProgram, FinalIndex, DataMachine.Step, EffectOf, Encode, Addr, Apply,
         OperationOf, DeferScript.Written, StackIs, SlotsHold, Map, Lift, ChoiceOf, MoveFrames, Relocation;
    var pc := k.vm.frames[0].nextip;
    var i := D.EmitFunction(items).prog[pc];
    var p, n := FinalProgram(items, e, f, slots), FinalIndex(items, e, f, slots, pc);
    EachBecomes(items, e, f, slots, pc);
    var ins := DeferScript.Written(i, e, f);
    StraightIsData(i, e, f, Encode(p), Addr(p, n), cfg, k'.vm, EffectOf(Lift(w), ins.op, ins.arg, DataOf(j)));
    OneStepSimulated(Lift(w), items, e, f, slots, cfg, k, j, k', Data(ins.op, ins.arg));
  }

  lemma CallEffect(w: D.World, call: nat, d: Memory)
    requires CodeOperands.IsCallNumber(call)
    ensures EffectOf(Lift(w), SYSCALL, LE32(call), d) ==
            Works(d.(trace := d.trace + [call]), true, if w(call, d.trace) then Some(S.Value.Null) else None)
  {
    CallNumberRead(call);
  }

  lemma CallOperation(call: nat, e: nat, f: nat, script: seq<Byte>, ip: nat, cfg: Config, st: State, r: Effect)
    requires r.Works? && st.Running? && st.frames != [] && cfg.limit < 0
    ensures var ins := DeferScript.Written(D.Perform(call), e, f);
            && ins == Ins(SYSCALL, LE32(call)) && OperationOf(script, ip, ins.op, ins.arg) == Syscall(ins.arg)
            && SameButGas(Apply(cfg, Syscall(ins.arg), st, ChoiceOf(SYSCALL, r)),
                          if r.raised.Some? then R.Do(Throw, st) else st)
  {
    hide HandleException, LE32;
  }

  lemma CallSimulated(w: D.World, items: seq<D.Item>, e: nat, f: nat, slots: nat, cfg: Config, k: R.Conf, j: Conf,
                      call: nat)
    requires Before(items, e, f, slots, cfg, k, j) && CodeOperands.IsCallNumber(call)
    requires D.EmitFunction(items).prog[k.vm.frames[0].nextip] == D.Perform(call)
    ensures var c := D.EmitFunction(items);
            Simulates(items, e, f, slots, R.Step(w, c.prog, c.l, k),
                      DataMachine.Step(Lift(w), FinalBytes(items, e, f, slots), cfg, j))
  {
    hide Covered, D.EmitFunction, FinalProgram, FinalIndex, DataMachine.Step, EffectOf, Encode, Addr, Apply,
         OperationOf, DeferScript.Written, Map, Lift, ChoiceOf, LE32, Relocation, MoveFrames, HandleException;
    var c := D.EmitFunction(items);
    var pc := k.vm.frames[0].nextip;
    var p, n := FinalProgram(items, e, f, slots), FinalIndex(items, e, f, slots, pc);
    var st := Machine.JumpTo(k.vm, pc + 1);
    EachBecomes(items, e, f, slots, pc);
    CallEffect(w, call, DataOf(j));
    var r := EffectOf(Lift(w), SYSCALL, LE32(call), DataOf(j));
    CallOperation(call, e, f, Encode(p), Addr(p, n), cfg, st, r);
    ThrowKeepsOne(st);
    OneStepSimulated(Lift(w), items, e, f, slots, cfg, k, j, R.Step(w, c.prog, c.l, k), Syscall(LE32(call)));
  }

  /** With one frame, an exception leaves that frame or none. */
  lemma ThrowKeepsOne(st: State)
    requires st.Running? && |st.frames| == 1
    ensures R.Do(Throw, st).Running? ==> |R.Do(Throw, st).frames| == 1
  {
    assert HandleException(st.frames[1..]) == Unhandled;
  }

  /** ENDTRY, in either form. */
  lemma CloseOperation(p: seq<Ins>, n: nat, op: Byte, arg: seq<Byte>, m: int -> int, target: nat)
    requires Relocation(m) && n <= |p| && LongForm(op) == ENDTRYL && Addr(p, n) + OffsetOf(arg) == m(target)
    requires 0 <= m(target) <= |Encode(p)|
    ensures OperationOf(Encode(p), Addr(p, n), op, arg) == MoveOperation(m, EndTry(target))
    ensures op !in {PUSHDATA1, PUSHDATA2, PUSHDATA4} && OnlyControl(op)
  {
    hide Encode, Addr, OffsetOf;
  }

  lemma CloseTrySimulated(w: D.World, items: seq<D.Item>, e: nat, f: nat, slots: nat, cfg: Config, k: R.Conf, j: Conf,
                          lab: nat)
    requires Before(items, e, f, slots, cfg, k, j)
    requires D.EmitFunction(items).prog[k.vm.frames[0].nextip] == D.CloseTry(lab)
    ensures var c := D.EmitFunction(items);
            Simulates(items, e, f, slots, R.Step(w, c.prog, c.l, k),
                      DataMachine.Step(Lift(w), FinalBytes(items, e, f, slots), cfg, j))
  {
    hide Covered, D.EmitFunction, FinalProgram, FinalIndex, DataMachine.Step, EffectOf, Encode, Addr, OperationOf,
         DeferScript.Written, Lift, ChoiceOf, Relocation, MoveFrames, OffsetOf, LongForm, MoveOperation, OnlyControl;
    var c := D.EmitFunction(items);
    var pc := k.vm.frames[0].nextip;
    var p, n := FinalProgram(items, e, f, slots), FinalIndex(items, e, f, slots, pc);
    var st := Machine.JumpTo(k.vm, pc + 1);
    EachBecomes(items, e, f, slots, pc);
    AddressInside(p, FinalIndex(items, e, f, slots, c.l[lab]));
    CloseOperation(p, n, p[n].op, p[n].arg, Map(items, e, f, slots), c.l[lab]);
    ControlEffect(Lift(w), p[n].op, p[n].arg, DataOf(j));
    assert Apply(cfg, EndTry(c.l[lab]), st, ChoiceOf(p[n].op, DataMachine.Done(DataOf(j)))) ==
           R.Do(EndTry(c.l[lab]), st);
    OneStepSimulated(Lift(w), items, e, f, slots, cfg, k, j, R.Step(w, c.prog, c.l, k), EndTry(c.l[lab]));
  }

  lemma ControlEffect(w: Calls, op: Byte, arg: seq<Byte>, d: Memory)
    requires OnlyControl(op)
    ensures EffectOf(w, op, arg, d) == DataMachine.Done(d)
  {}

  /** TRYL; a block at the instruction itself would be absent. */
  lemma OpenOperation(p: seq<Ins>, n: nat, arg: seq<Byte>, m: int -> int, pc: nat, a: nat, b: nat)
    requires Relocation(m) && n <= |p| && |arg| == 8 && Addr(p, n) == m(pc)
    requires Addr(p, n) + Signed32(arg[..4]) == m(a) && Addr(p, n) + Signed32(arg[4..]) == m(b)
    requires 0 <= m(a) <= |Encode(p)| && 0 <= m(b) <= |Encode(p)|
    requires (m(a) == m(pc) <==> a == pc) && (m(b) == m(pc) <==> b == pc)
    ensures OperationOf(Encode(p), Addr(p, n), TRYL, arg) ==
            MoveOperation(m, Try(if a == pc then -1 else a, if b == pc then -1 else b))
  {
    hide Encode, Addr, Signed32;
  }

  lemma OpenTrySimulated(w: D.World, items: seq<D.Item>, e: nat, f: nat, slots: nat, cfg: Config, k: R.Conf, j: Conf,
                         a: nat, b: nat)
    requires Before(items, e, f, slots, cfg, k, j)
    requires D.EmitFunction(items).prog[k.vm.frames[0].nextip] == D.OpenTry(a, b)
    ensures var c := D.EmitFunction(items);
            Simulates(items, e, f, slots, R.Step(w, c.prog, c.l, k),
                      DataMachine.Step(Lift(w), FinalBytes(items, e, f, slots), cfg, j))
  {
    hide Covered, D.EmitFunction, FinalProgram, FinalIndex, DataMachine.Step, EffectOf, Encode, Addr, OperationOf,
         DeferScript.Written, Lift, ChoiceOf, Relocation, MoveFrames, Signed32, MoveOperation, OnlyControl;
    var c := D.EmitFunction(items);
    var pc := k.vm.frames[0].nextip;
    var p, n := FinalProgram(items, e, f, slots), FinalIndex(items, e, f, slots, pc);
    var st := Machine.JumpTo(k.vm, pc + 1);
    EachBecomes(items, e, f, slots, pc);
    var x, y := c.l[a], c.l[b];
    AddressInside(p, FinalIndex(items, e, f, slots, x));
    AddressInside(p, FinalIndex(items, e, f, slots, y));
    Apart(items, e, f, slots, pc, x);
    Apart(items, e, f, slots, pc, y);
    OpenOperation(p, n, p[n].arg, Map(items, e, f, slots), pc, x, y);
    assert OnlyControl(TRYL) by { TryIsControl(); }
    ControlEffect(Lift(w), TRYL, p[n].arg, DataOf(j));
    var o := Try(if x == pc then -1 else x, if y == pc then -1 else y);
    assert Apply(cfg, o, st, ChoiceOf(TRYL, DataMachine.Done(DataOf(j)))) == R.Do(o, st);
    OneStepSimulated(Lift(w), items, e, f, slots, cfg, k, j, R.Step(w, c.prog, c.l, k), o);
  }

  lemma TryIsControl()
    ensures OnlyControl(TRYL)
  {}

  lemma Apart(items: seq<D.Item>, e: nat, f: nat, slots: nat, i: nat, n: nat)
    requires Covered(items, e, f, slots) && i <= |D.EmitFunction(items).prog| && n <= |D.EmitFunction(items).prog|
    ensures PlaceOf(items, e, f, slots, i) == PlaceOf(items, e, f, slots, n) <==> i == n
  {
    hide PlaceOf, D.EmitFunction, Covered;
    if i < n { PlacesGrow(items, e, f, slots, i, n); }
    if n < i { PlacesGrow(items, e, f, slots, n, i); }
  }

  lemma JumpOperation(p: seq<Ins>, n: nat, op: Byte, arg: seq<Byte>, m: int -> int, target: nat)
    requires Relocation(m) && n <= |p| && LongForm(op) == JMPIFL && Addr(p, n) + OffsetOf(arg) == m(target)
    requires 0 <= m(target) <= |Encode(p)|
    ensures OperationOf(Encode(p), Addr(p, n), op, arg) == MoveOperation(m, Jump(true, target))
    ensures op !in {PUSHDATA1, PUSHDATA2, PUSHDATA4} && (op == JMPIF || op == JMPIFL)
  {
    hide Encode, Addr, OffsetOf;
  }

  lemma JumpEffect(w: Calls, op: Byte, arg: seq<Byte>, d: Memory)
    requires (op == JMPIF || op == JMPIFL) && d.stack != []
    ensures EffectOf(w, op, arg, d) ==
            Works(d.(stack := d.stack[..|d.stack| - 1]), AsBoolean(d.stack[|d.stack| - 1]), None)
  {}

  lemma JumpSimulated(w: D.World, items: seq<D.Item>, e: nat, f: nat, slots: nat, cfg: Config, k: R.Conf, j: Conf,
                      lab: nat)
    requires Before(items, e, f, slots, cfg, k, j)
    requires D.EmitFunction(items).prog[k.vm.frames[0].nextip] == D.JumpIf(lab)
    requires k.stack != [] && k.stack[|k.stack| - 1].Number?
    ensures var c := D.EmitFunction(items);
            Simulates(items, e, f, slots, R.Step(w, c.prog, c.l, k),
                      DataMachine.Step(Lift(w), FinalBytes(items, e, f, slots), cfg, j))
  {
    hide Covered, D.EmitFunction, FinalProgram, FinalIndex, DataMachine.Step, EffectOf, Encode, Addr, OperationOf,
         DeferScript.Written, Lift, Relocation, MoveFrames, OffsetOf, LongForm, MoveOperation;
    var c := D.EmitFunction(items);
    var pc := k.vm.frames[0].nextip;
    var p, n := FinalProgram(items, e, f, slots), FinalIndex(items, e, f, slots, pc);
    EachBecomes(items, e, f, slots, pc);
    AddressInside(p, FinalIndex(items, e, f, slots, c.l[lab]));
    JumpOperation(p, n, p[n].op, p[n].arg, Map(items, e, f, slots), c.l[lab]);
    JumpEffect(Lift(w), p[n].op, p[n].arg, DataOf(j));
    assert CellIs(k.stack[|k.stack| - 1], j.stack[|k.stack| - 1]);
    OneStepSimulated(Lift(w), items, e, f, slots, cfg, k, j, R.Step(w, c.prog, c.l, k), Jump(true, c.l[lab]));
  }

  /** ENDFINALLY and RET. */
  lemma EndOperation(i: D.Op, e: nat, f: nat, script: seq<Byte>, ip: nat)
    requires i.CloseFinally? || i.Exit?
    ensures var ins := DeferScript.Written(i, e, f);
            && ins == Ins(if i.CloseFinally? then ENDFINALLY else RET, [])
            && OperationOf(script, ip, ins.op, []) == (if i.CloseFinally? then EndFinally else Return)
  {}

  lemma EndEffect(w: Calls, d: Memory)
    ensures EffectOf(w, ENDFINALLY, [], d) == Works(d, true, d.pending)
    ensures EffectOf(w, RET, [], d) == DataMachine.Done(d)
  {}

  lemma CloseFinallySimulated(w: D.World, items: seq<D.Item>, e: nat, f: nat, slots: nat, cfg: Config, k: R.Conf,
                              j: Conf)
    requires Before(items, e, f, slots, cfg, k, j)
    requires D.EmitFunction(items).prog[k.vm.frames[0].nextip] == D.CloseFinally
    ensures var c := D.EmitFunction(items);
            Simulates(items, e, f, slots, R.Step(w, c.prog, c.l, k),
                      DataMachine.Step(Lift(w), FinalBytes(items, e, f, slots), cfg, j))
  {
    hide Covered, D.EmitFunction, FinalProgram, FinalIndex, DataMachine.Step, EffectOf, Encode, Addr, OperationOf,
         DeferScript.Written, Lift, Relocation, MoveFrames, HandleException;
    var c := D.EmitFunction(items);
    var pc := k.vm.frames[0].nextip;
    var p, n := FinalProgram(items, e, f, slots), FinalIndex(items, e, f, slots, pc);
    EachBecomes(items, e, f, slots, pc);
    EndOperation(D.CloseFinally, e, f, Encode(p), Addr(p, n));
    EndEffect(Lift(w), DataOf(j));
    ThrowKeepsOne(Machine.JumpTo(k.vm, pc + 1));
    OneStepSimulated(Lift(w), items, e, f, slots, cfg, k, j, R.Step(w, c.prog, c.l, k), EndFinally);
  }

  lemma ExitSimulated(w: D.World, items: seq<D.Item>, e: nat, f: nat, slots: nat, cfg: Config, k: R.Conf, j: Conf)
    requires Before(items, e, f, slots, cfg, k, j)
    requires D.EmitFunction(items).prog[k.vm.frames[0].nextip] == D.Exit
    ensures var c := D.EmitFunction(items);
            Simulates(items, e, f, slots, R.Step(w, c.prog, c.l, k),
                      DataMachine.Step(Lift(w), FinalBytes(items, e, f, slots), cfg, j))
  {
    hide Covered, D.EmitFunction, FinalProgram, FinalIndex, DataMachine.Step, EffectOf, Encode, Addr, OperationOf,
         DeferScript.Written, Lift, Relocation, MoveFrames;
    var c := D.EmitFunction(items);
    var pc := k.vm.frames[0].nextip;
    var p, n := FinalProgram(items, e, f, slots), FinalIndex(items, e, f, slots, pc);
    EachBecomes(items, e, f, slots, pc);
    EndOperation(D.Exit, e, f, Encode(p), Addr(p, n));
    EndEffect(Lift(w), DataOf(j));
    OneStepSimulated(Lift(w), items, e, f, slots, cfg, k, j, R.Step(w, c.prog, c.l, k), Return);
  }

  /** The four operations that only move data. */
  lemma DataOpSimulated(w: D.World, items: seq<D.Item>, e: nat, f: nat, slots: nat, cfg: Config, k: R.Conf, j: Conf)
    requires Before(items, e, f, slots, cfg, k, j) && e <= 255 && f <= 255
    requires var c := D.EmitFunction(items);
             && IsStraight(c.prog[k.vm.frames[0].nextip]) && OpFits(c.prog[k.vm.frames[0].nextip])
             && !R.Step(w, c.prog, c.l, k).vm.Crashed?
    ensures var c := D.EmitFunction(items);
            Simulates(items, e, f, slots, R.Step(w, c.prog, c.l, k),
                      DataMachine.Step(Lift(w), FinalBytes(items, e, f, slots), cfg, j))
  {
    hide Covered, D.EmitFunction, FinalBytes, DataMachine.Step, EffectOf, DeferScript.Written, Lift, Relocation,
         MoveFrames, Map, StackIs, SlotsHold;
    var c := D.EmitFunction(items);
    var d := DataOf(j);
    assert DataIs(d, k, e, f) by { DataAtHand(k, j, e, f); }
    match c.prog[k.vm.frames[0].nextip] {
      case StoreException => StoreExceptionTurns(w, d, k, e, f);
      case StoreFlag => StoreFlagTurns(w, d, k, e, f);
      case LoadFlag => LoadFlagTurns(w, d, k, e, f);
      case Const(n) => ConstTurns(w, d, k, e, f, n);
    }
    StraightSimulated(w, items, e, f, slots, cfg, k, j, R.Step(w, c.prog, c.l, k));
  }

  lemma DataAtHand(k: R.Conf, j: Conf, e: nat, f: nat)
    requires j.Conf? && j.vm.Running? && |j.locals| == 1 && StackIs(k.stack, j.stack) && j.trace == k.trace
    requires SlotsHold(Memory(j.stack, j.locals[0], j.statics, j.trace, None), k.flag, e, f)
    ensures DataIs(DataOf(j), k, e, f)
  {}

  /** One step of the virtual machine on the final bytes does what one step of the handler code does. */
  lemma StepSimulated(w: D.World, items: seq<D.Item>, e: nat, f: nat, slots: nat, cfg: Config, k: R.Conf, j: Conf)
    requires Covered(items, e, f, slots) && Simulates(items, e, f, slots, k, j) && cfg.limit < 0
    requires !R.Step(w, D.EmitFunction(items).prog, D.EmitFunction(items).l, k).vm.Crashed?
    ensures Simulates(items, e, f, slots, R.Step(w, D.EmitFunction(items).prog, D.EmitFunction(items).l, k),
                      DataMachine.Step(Lift(w), FinalBytes(items, e, f, slots), cfg, j))
  {
    hide *;
    var c := D.EmitFunction(items);
    FrameAtHand(items, e, f, slots, k, j);
    GoesOn(w, c.prog, c.l, k);
    if k.vm.Running? {
      var i := c.prog[k.vm.frames[0].nextip];
      AboutTo(items, e, f, slots, cfg, k, j);
      OperandsFit(items, e, f, slots, i);
      match i
      case Perform(call) => CallSimulated(w, items, e, f, slots, cfg, k, j, call);
      case OpenTry(a, b) => OpenTrySimulated(w, items, e, f, slots, cfg, k, j, a, b);
      case CloseTry(lab) => CloseTrySimulated(w, items, e, f, slots, cfg, k, j, lab);
      case JumpIf(lab) => JumpSimulated(w, items, e, f, slots, cfg, k, j, lab);
      case CloseFinally => CloseFinallySimulated(w, items, e, f, slots, cfg, k, j);
      case Exit => ExitSimulated(w, items, e, f, slots, cfg, k, j);
      case _ => DataOpSimulated(w, items, e, f, slots, cfg, k, j);
    } else {
      EndSimulated(Lift(w), items, e, f, slots, cfg, k, j);
    }
  }

  lemma AboutTo(items: seq<D.Item>, e: nat, f: nat, slots: nat, cfg: Config, k: R.Conf, j: Conf)
    requires Covered(items, e, f, slots) && Simulates(items, e, f, slots, k, j) && cfg.limit < 0
    requires k.vm.Running? && |k.vm.frames| == 1 && 0 <= k.vm.frames[0].nextip < |D.EmitFunction(items).prog|
    ensures Before(items, e, f, slots, cfg, k, j)
  {
    hide D.EmitFunction, Simulates, Covered;
  }

  /** Operands and slots are within their widths. */
  lemma OperandsFit(items: seq<D.Item>, e: nat, f: nat, slots: nat, i: D.Op)
    requires Covered(items, e, f, slots) && i in D.EmitFunction(items).prog
    ensures e <= 255 && f <= 255 && OpFits(i) && (i.Perform? ==> CodeOperands.IsCallNumber(i.call))
    ensures i.StoreException? || i.StoreFlag? || i.LoadFlag? || i.Const? ==> IsStraight(i)
  {
    hide D.EmitFunction, Covered;
    CoveredLinks(items, e, f, slots);
    CoveredFits(items, e, f, slots);
  }

  lemma GoesOn(w: D.World, p: seq<D.Op>, l: seq<int>, k: R.Conf)
    requires !R.Step(w, p, l, k).vm.Crashed? && (k.vm.Running? ==> |k.vm.frames| == 1)
    ensures k.vm.Running? ==>
              && 0 <= k.vm.frames[0].nextip < |p|
              && (p[k.vm.frames[0].nextip].JumpIf? ==> k.stack != [] && k.stack[|k.stack| - 1].Number?)
    ensures !k.vm.Running? ==> R.Step(w, p, l, k) == k
  {
    hide R.Do, R.Thrown;
  }

  lemma FrameAtHand(items: seq<D.Item>, e: nat, f: nat, slots: nat, k: R.Conf, j: Conf)
    requires Covered(items, e, f, slots) && Simulates(items, e, f, slots, k, j)
    ensures k.vm.Running? ==> |k.vm.frames| == 1
  {}

  lemma CoveredFits(items: seq<D.Item>, e: nat, f: nat, slots: nat)
    requires Covered(items, e, f, slots)
    ensures AllFit(D.EmitFunction(items))
  {
    hide D.EmitFunction, DeferScript.WithinLimits;
    FunctionFits(items);
  }

  lemma EndSimulated(w: Calls, items: seq<D.Item>, e: nat, f: nat, slots: nat, cfg: Config, k: R.Conf, j: Conf)
    requires Covered(items, e, f, slots) && Simulates(items, e, f, slots, k, j) && !k.vm.Running?
    ensures DataMachine.Step(w, FinalBytes(items, e, f, slots), cfg, j) == j
  {
    hide FinalBytes, Covered, Map, Relocation;
  }

  // ----- whole runs -----

  lemma {:induction false} CrashStays(w: D.World, p: seq<D.Op>, l: seq<int>, k: R.Conf, n: nat)
    requires k.vm.Crashed?
    ensures R.Steps(w, p, l, k, n) == k
  {
    if n > 0 { CrashStays(w, p, l, k, n - 1); }
  }

  lemma {:induction false} StepsSimulated(w: D.World, items: seq<D.Item>, e: nat, f: nat, slots: nat, cfg: Config,
                                          k: R.Conf, j: Conf, n: nat)
    requires Covered(items, e, f, slots) && Simulates(items, e, f, slots, k, j) && cfg.limit < 0
    requires !R.Steps(w, D.EmitFunction(items).prog, D.EmitFunction(items).l, k, n).vm.Crashed?
    ensures Simulates(items, e, f, slots, R.Steps(w, D.EmitFunction(items).prog, D.EmitFunction(items).l, k, n),
                      Steps(Lift(w), FinalBytes(items, e, f, slots), cfg, j, n))
    decreases n
  {
    hide Covered, Simulates, FinalBytes, R.Step, DataMachine.Step, D.EmitFunction;
    if n > 0 {
      var c := D.EmitFunction(items);
      var k' := R.Step(w, c.prog, c.l, k);
      if k'.vm.Crashed? { CrashStays(w, c.prog, c.l, k', n - 1); }
      StepSimulated(w, items, e, f, slots, cfg, k, j);
      StepsSimulated(w, items, e, f, slots, cfg, k', DataMachine.Step(Lift(w), FinalBytes(items, e, f, slots), cfg, j),
                     n - 1);
    }
  }

  /** The first instruction is the prologue. */
  lemma FirstPlace(items: seq<D.Item>, e: nat, f: nat, slots: nat)
    requires Covered(items, e, f, slots)
    ensures var p := FinalProgram(items, e, f, slots);
            && WellFormedProgram(p) && p != [] && f < slots <= 255 && p[0] == Ins(INITSLOT, [slots, 0])
            && FinalIndex(items, e, f, slots, 0) == 1
  {
    hide D.EmitFunction, Final, IndexOf, Linkable, Covered, WellFormed, DeferScript.Program, DeferScript.Labels;
    var p, l, counts := DeferScript.Program(items, e, f), DeferScript.Labels(items), map[0 := slots];
    CoveredLinks(items, e, f, slots);
    StartsWithPrologue(items, e, f);
    StartIndex(p, l, counts);
    NextIndex(p, l, counts, 0);
    FinalFacts(p, l, counts);
    assert Addr(p, 0) == 0;
    FinalPrologue(p, l, counts, 0);
  }

  lemma StartsWithPrologue(items: seq<D.Item>, e: nat, f: nat)
    ensures DeferScript.Program(items, e, f) != [] && DeferScript.Program(items, e, f)[0] == Ins(INITSLOT, [0, 0])
  {
    hide D.EmitFunction;
  }

  /** After the prologue, the body begins with null in the slot of the flag. */
  lemma BodyBegins(w: D.World, items: seq<D.Item>, e: nat, f: nat, slots: nat, cfg: Config, statics: seq<S.Value>)
    returns (j: Conf)
    requires Covered(items, e, f, slots) && cfg.limit < 0 && e < |statics|
    ensures Reaches(Lift(w), FinalBytes(items, e, f, slots), cfg, Loaded(Some(statics)), j)
    ensures Simulates(items, e, f, slots, R.Conf(R.Control(0, [], []), [], 0, []), j)
  {
    hide D.EmitFunction, DataMachine.Step, FinalProgram, FinalIndex, Covered, Encode, WellFormedProgram, Reaches,
         Relocation, Map;
    FirstPlace(items, e, f, slots);
    FunctionMachine.PrologueStep(Lift(w), FinalProgram(items, e, f, slots), slots, cfg, Some(statics));
    OneStep(Lift(w), FinalBytes(items, e, f, slots), cfg, Loaded(Some(statics)));
    j := DataMachine.Step(Lift(w), FinalBytes(items, e, f, slots), cfg, Loaded(Some(statics)));
    StartMoved(Map(items, e, f, slots));
    StartHolds(slots, statics, e, f);
  }

  lemma StartHolds(slots: nat, statics: seq<S.Value>, e: nat, f: nat)
    requires f < slots && e < |statics|
    ensures SlotsHold(Memory([], Some(Nulls(slots)), Some(statics), [], None), 0, e, f)
  {
    assert Nulls(slots)[f] == S.Value.Null;
  }

  lemma StartMoved(m: int -> int)
    requires Relocation(m)
    ensures MoveState(m, R.Control(0, [], [])) == Running([Frame(m(0), [])], false, [], 0)
  {
    assert R.Control(0, [], []) == Running([Frame(0, [])], false, [], 0);
    FrameAdded(m, Frame(0, []), []);
    assert [Frame(0, [])] + [] == [Frame(0, [])];
  }

  /** How a function with deferred calls ends, given what its body does. */
  predicate EndsAs(end: Conf, r: D.BodyRun) {
    && end.Conf?
    && if |r.pending| > MAX_TRY_NESTING_DEPTH then end.vm == Faulted(Rejected)
       else if r.threw && r.pending == [] then end.vm == Faulted(Rejected) && end.trace == r.trace
       else end.vm.Halted? && end.stack == [] && end.trace == r.trace + D.LastFirst(r.pending)
  }

  /**
   * The bytes that the compiler returns for a function with deferred calls, loaded into the virtual machine and run
   * from offset zero, make the calls of the body and then every registered call exactly once, last first, and halt,
   * whether the body returns or throws. Only an exception before the first defer statement and a seventeenth defer
   * statement fault.
   */
  lemma DeferredBytesRun(w: D.World, items: seq<D.Item>, e: nat, f: nat, slots: nat, cfg: Config, statics: seq<S.Value>)
    returns (end: Conf)
    requires Covered(items, e, f, slots) && cfg.limit < 0 && e < |statics| && R.DefersQuiet(w, items)
    ensures Reaches(Lift(w), FinalBytes(items, e, f, slots), cfg, Loaded(Some(statics)), end)
    ensures EndsAs(end, D.RunBody(w, items, D.BodyRun([], [], false)))
    ensures forall i :: Reaches(Lift(w), FinalBytes(items, e, f, slots), cfg, Loaded(Some(statics)), i) && Ended(i) ==>
              i == end
  {
    hide Covered, FinalBytes, R.Step, DataMachine.Step, D.EmitFunction, D.RunBody, R.DefersQuiet, Map, Relocation,
         Reaches, Simulates, SlotsHold;
    var c := D.EmitFunction(items);
    var b := FinalBytes(items, e, f, slots);
    var r := D.RunBody(w, items, D.BodyRun([], [], false));
    var k := R.Conf(R.Control(0, [], []), [], 0, []);
    R.DefersRunOnce(w, items, []);
    var last := LastConf(w, c.prog, c.l, k, r);
    var n: nat :| R.Steps(w, c.prog, c.l, k, n) == last;
    var j := BodyBegins(w, items, e, f, slots, cfg, statics);
    StepsSimulated(w, items, e, f, slots, cfg, k, j, n);
    end := Steps(Lift(w), b, cfg, j, n);
    assert Reaches(Lift(w), b, cfg, j, end) by { StepsReach(Lift(w), b, cfg, j, n); }
    Through(Lift(w), b, cfg, Loaded(Some(statics)), j, end);
    StoppedAlike(items, e, f, slots, last, end);
    forall i | Reaches(Lift(w), b, cfg, Loaded(Some(statics)), i) && Ended(i) ensures i == end {
      OneEnd(Lift(w), b, cfg, Loaded(Some(statics)), i, end);
    }
  }

  lemma StepsReach(w: Calls, b: seq<Byte>, cfg: Config, j: Conf, n: nat)
    ensures Reaches(w, b, cfg, j, Steps(w, b, cfg, j, n))
  {}

  /** The configuration in which the handler code ends, with no callers below. */
  lemma LastConf(w: D.World, p: seq<D.Op>, l: seq<int>, k: R.Conf, r: D.BodyRun) returns (last: R.Conf)
    requires R.EndsAs(w, p, l, k, r, [])
    ensures R.Reaches(w, p, l, k, last) && last.stack == []
    ensures if |r.pending| > MAX_TRY_NESTING_DEPTH then last.vm == Faulted(Rejected)
            else if r.threw && r.pending == [] then last.vm == Faulted(Rejected) && last.trace == r.trace
            else last.vm.Halted? && last.trace == r.trace + D.LastFirst(r.pending)
  {
    hide R.Reaches;
    if |r.pending| > MAX_TRY_NESTING_DEPTH {
      var tr :| R.Reaches(w, p, l, k, R.Conf(Faulted(Rejected), [], 0, tr));
      last := R.Conf(Faulted(Rejected), [], 0, tr);
    } else if r.threw && r.pending == [] {
      last := R.Thrown(R.Conf(R.Control(0, [], []), [], 0, r.trace), R.Control(0, [], []));
      assert HandleException([]) == Unhandled;
      assert HandleException([Frame(0, [])] + []) == Unhandled;
    } else {
      last := R.Conf(R.Back([]), [], 0, r.trace + D.LastFirst(r.pending));
    }
  }

  lemma StoppedAlike(items: seq<D.Item>, e: nat, f: nat, slots: nat, k: R.Conf, j: Conf)
    requires Covered(items, e, f, slots) && Simulates(items, e, f, slots, k, j) && !k.vm.Running? && k.stack == []
    ensures j.Conf? && !j.vm.Running? && j.stack == [] && j.trace == k.trace
    ensures (k.vm.Halted? ==> j.vm.Halted?) && (k.vm.Faulted? ==> j.vm == k.vm)
  {
    hide Map, Relocation, Covered;
  }

  // ----- the static checker -----

  /** The checker accepts these scripts too, with any methods at instruction starts. */
  lemma DeferredBytesAccepted(items: seq<D.Item>, e: nat, f: nat, slots: nat, methods: ScriptCheck.Methods)
    requires Covered(items, e, f, slots)
    ensures ScriptCheck.CheckVerdict(FinalBytes(items, e, f, slots), methods) == ScriptCheck.Correct <==>
            ScriptAcceptance.MethodsOk(FinalProgram(items, e, f, slots), methods)
  {
    hide Final, Linkable, DeferScript.Program, DeferScript.Labels, D.EmitFunction, Encode, Covered,
         ScriptCheck.CheckVerdict, ScriptAcceptance.MethodsOk, DeferScript.Written, FinalAcceptance.TypeOk;
    var c := D.EmitFunction(items);
    var p, l := DeferScript.Program(items, e, f), DeferScript.Labels(items);
    CoveredLinks(items, e, f, slots);
    StartsWithPrologue(items, e, f);
    LabelsInside(items);
    ProgramLength(items, e, f);
    forall i | 0 <= i < |p|
      ensures FinalAcceptance.TypeOk(p[i]) && (p[i].op == INITSLOT ==> p[i].arg == [0, 0])
    {
      if i == 0 {
        FunctionMachine.TypeOfPrologue();
      } else {
        ProgramShape(items, e, f, i - 1);
        TypesWritten(c.prog[i - 1], e, f);
      }
    }
    forall x | 0 <= x < |l| ensures 0 <= l[x] < |p| && p[l[x]].op != INITSLOT {
      ProgramShape(items, e, f, c.l[x]);
    }
    FinalAcceptance.FinalAccepted(p, l, map[0 := slots], methods);
  }

  lemma ProgramLength(items: seq<D.Item>, e: nat, f: nat)
    ensures |DeferScript.Program(items, e, f)| == |D.EmitFunction(items).prog| + 1
    ensures |DeferScript.Labels(items)| == |D.EmitFunction(items).l|
    ensures forall x :: 0 <= x < |DeferScript.Labels(items)| ==>
              DeferScript.Labels(items)[x] == D.EmitFunction(items).l[x] + 1
  {
    hide D.EmitFunction;
  }

  lemma TypesWritten(i: D.Op, e: nat, f: nat)
    ensures FinalAcceptance.TypeOk(DeferScript.Written(i, e, f))
  {}

  /** The last instruction is RET, so no label is behind it. */
  lemma LabelsInside(items: seq<D.Item>)
    ensures var c := D.EmitFunction(items); forall i :: 0 <= i < |c.l| ==> 0 <= c.l[i] < |c.prog|
  {
    hide D.EmitItems, D.ProcessDefers;
    var (c, ds) := D.EmitItems(items, [], D.Code([], []));
    DeferScript.ItemsPlaced(items, [], D.Code([], []));
    DeferScript.DefersPlaced(ds, c);
  }
}
