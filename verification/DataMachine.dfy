/**
 * The virtual machine on data: what each opcode byte does to the evaluation stack, the slots and the flow of control
 * (pkg/vm/vm.go). Its control part is that of the Machine module, with every choice made by the data.
 */
module DataMachine {
  import opened Bytes
  import opened Opcodes
  import opened Common
  import opened Context
  import opened Machine
  import opened StackCode

  /** What a call through SYSCALL comes to: a return without a value, a value, or an exception. */
  datatype Reply = Silent | Yields(v: Value) | Throws(v: Value)

  /** Replies may depend on all calls made before. */
  type Calls = (nat, seq<nat>) -> Reply

  type Slots = Option<seq<Value>>

  /** What an instruction works on; pending is an exception on its way through finally blocks. The top is last. */
  datatype Memory = Memory(stack: seq<Value>, locals: Slots, statics: Slots, trace: seq<nat>, pending: Option<Value>)

  /** The data after an instruction, whether its condition holds, and the exception it raises. */
  datatype Effect =
    | Works(data: Memory, holds: bool, raised: Option<Value>)
    | Fails
    | NotModelled

  // ----- values -----

  /** Little-endian two's complement. */
  function SignedBytes(s: seq<Byte>): int {
    if s == [] then 0 else if |s| == 1 then Signed8(s[0]) else s[0] as int + 0x100 * SignedBytes(s[1..])
  }

  function AsInteger(v: Value): Option<int> {
    match v
    case Int(n) => Some(n)
    case Bool(b) => Some(if b then 1 else 0)
    case Null => None
    case Arr(_) => None
  }

  function AsBoolean(v: Value): bool {
    match v
    case Int(n) => n != 0
    case Bool(b) => b
    case Null => false
    case Arr(_) => true
  }

  // ----- parts of the instruction set -----

  function Done(d: Memory): Effect { Works(d, true, None) }

  /** The topmost n items replaced by others. */
  function Replaced(d: Memory, n: nat, vs: seq<Value>): Effect
    requires n <= |d.stack|
  {
    Done(d.(stack := d.stack[..|d.stack| - n] + vs))
  }

  function Peek(d: Memory, n: nat): Value
    requires n < |d.stack|
  {
    d.stack[|d.stack| - 1 - n]
  }

  /** An integer result, which must fit 256 bits. */
  function NumberResult(d: Memory, n: nat, r: int): Effect
    requires n <= |d.stack|
  {
    if IsInt256(r) then Replaced(d, n, [Int(r)]) else Fails
  }

  function UnaryNumber(op: Byte, d: Memory): Effect {
    if |d.stack| < 1 || AsInteger(Peek(d, 0)).None? then Fails
    else NumberResult(d, 1, AsInteger(Peek(d, 0)).value + if op == 0x9C then 1 else -1)
  }

  function BinaryNumber(op: Byte, d: Memory): Effect {
    if |d.stack| < 2 || AsInteger(Peek(d, 0)).None? || AsInteger(Peek(d, 1)).None? then Fails
    else
      var a, b := AsInteger(Peek(d, 1)).value, AsInteger(Peek(d, 0)).value;
      NumberResult(d, 2, if op == 0x9E then a + b else if op == 0x9F then a - b else a * b)
  }

  /** How the comparison opcodes and the comparing jumps order their operands. */
  function Compares(op: Byte, a: int, b: int): bool {
    if op in {0xB3, JMPEQ, JMPEQL} then a == b
    else if op in {0xB4, JMPNE, JMPNEL} then a != b
    else if op in {0xB5, JMPLT, JMPLTL} then a < b
    else if op in {0xB6, JMPLE, JMPLEL} then a <= b
    else if op in {0xB7, JMPGT, JMPGTL} then a > b
    else a >= b
  }

  function Comparison(op: Byte, d: Memory): Effect {
    if |d.stack| < 2 then Fails
    else
      var a, b := Peek(d, 1), Peek(d, 0);
      if op >= 0xB5 && (a.Null? || b.Null?) then Replaced(d, 2, [Bool(false)])
      else if AsInteger(a).None? || AsInteger(b).None? then Fails
      else Replaced(d, 2, [Bool(Compares(op, AsInteger(a).value, AsInteger(b).value))])
  }

  /** Arrays are equal to themselves only; which ones are the same array is not modelled. */
  function Equality(op: Byte, d: Memory): Effect {
    if |d.stack| < 2 then Fails
    else
      var a, b := Peek(d, 1), Peek(d, 0);
      if a.Arr? && b.Arr? then NotModelled else Replaced(d, 2, [Bool((a == b) == (op == 0x97))])
  }

  /** PICKITEM on an array; an index out of range raises an exception with a text, which is not modelled. */
  function Element(d: Memory): Effect {
    if |d.stack| < 2 then Fails
    else
      var obj, key := Peek(d, 1), Peek(d, 0);
      if key.Null? || key.Arr? || obj.Null? then Fails
      else if !obj.Arr? then NotModelled
      else
        var i := AsInteger(key).value;
        if 0 <= i < |obj.elems| then Replaced(d, 2, [obj.elems[i]]) else NotModelled
  }

  /** The topmost n items, topmost first. */
  function TopFirst(s: seq<Value>, n: nat): seq<Value>
    requires n <= |s|
  {
    seq(n, i requires 0 <= i < n => s[|s| - 1 - i])
  }

  function StackOperation(op: Byte, d: Memory): Effect {
    var len := |d.stack|;
    if len < 1 then Fails
    else if op == 0x45 then Replaced(d, 1, [])
    else if op == 0x4A then Replaced(d, 0, [Peek(d, 0)])
    else if op == 0x4B then if len < 2 then Fails else Replaced(d, 0, [Peek(d, 1)])
    else if AsInteger(Peek(d, 0)).None? then Fails
    else
      var n := AsInteger(Peek(d, 0)).value;
      if op == 0x4D then if 0 <= n < len - 1 then Replaced(d, 1, [Peek(d, n + 1)]) else Fails
      else if 0 <= n <= len - 1 then Replaced(d, 1 + n, [Arr(TopFirst(d.stack[..len - 1], n))])
      else Fails
  }

  /** A slot read onto the stack, or the top of the stack written to a slot. */
  function LoadFrom(d: Memory, slots: Slots, i: nat): Effect {
    if slots.None? || i >= |slots.value| then Fails else Replaced(d, 0, [slots.value[i]])
  }

  function StoreTo(d: Memory, slots: Slots, i: nat): Option<seq<Value>> {
    if slots.None? || i >= |slots.value| || d.stack == [] then None else Some(slots.value[i := Peek(d, 0)])
  }

  /** The slot that a load or store names: the opcode's own, or its parameter after the first seven. */
  function SlotIndex(op: Byte, base: Byte, arg: seq<Byte>): nat {
    if base <= op < base + 7 then op - base else if |arg| == 1 then arg[0] else 0
  }

  function SlotOperation(op: Byte, arg: seq<Byte>, d: Memory): Effect {
    if 0x58 <= op < 0x60 then LoadFrom(d, d.statics, SlotIndex(op, 0x58, arg))
    else if 0x68 <= op < 0x70 then LoadFrom(d, d.locals, SlotIndex(op, 0x68, arg))
    else if 0x60 <= op < 0x68 then
      var r := StoreTo(d, d.statics, SlotIndex(op, 0x60, arg));
      if r.None? then Fails else Done(d.(stack := d.stack[..|d.stack| - 1], statics := r))
    else
      var r := StoreTo(d, d.locals, SlotIndex(op, 0x70, arg));
      if r.None? then Fails else Done(d.(stack := d.stack[..|d.stack| - 1], locals := r))
  }

  function Nulls(n: nat): seq<Value> { seq(n, _ => Null) }

  /** Fresh slots hold null. Arguments would be taken off the stack; functions with arguments are not modelled. */
  function Prologue(op: Byte, arg: seq<Byte>, d: Memory): Effect {
    if op == INITSSLOT then
      if d.statics.Some? || |arg| != 1 || arg[0] == 0 then Fails else Done(d.(statics := Some(Nulls(arg[0]))))
    else if d.locals.Some? || |arg| != 2 || arg == [0, 0] then Fails
    else if arg[1] > 0 then NotModelled
    else Done(d.(locals := Some(Nulls(arg[0]))))
  }

  /** JMPIF and JMPIFNOT take their condition off the stack, the comparing jumps two numbers. */
  function Branch(op: Byte, d: Memory): Effect {
    if op in {JMP, JMPL} then Done(d)
    else if op in {JMPIF, JMPIFL, JMPIFNOT, JMPIFNOTL} then
      if |d.stack| < 1 then Fails
      else
        Works(d.(stack := d.stack[..|d.stack| - 1]), AsBoolean(Peek(d, 0)) == (op in {JMPIF, JMPIFL}), None)
    else if |d.stack| < 2 || AsInteger(Peek(d, 0)).None? || AsInteger(Peek(d, 1)).None? then Fails
    else
      Works(d.(stack := d.stack[..|d.stack| - 2]),
            Compares(op, AsInteger(Peek(d, 1)).value, AsInteger(Peek(d, 0)).value), None)
  }

  /** A call is recorded under its number. */
  function SystemCall(w: Calls, arg: seq<Byte>, d: Memory): Effect {
    if |arg| != 4 then Fails
    else
      var f := U32(arg);
      var called := d.(trace := d.trace + [f]);
      match w(f, d.trace)
      case Silent => Done(called)
      case Yields(v) => Done(called.(stack := d.stack + [v]))
      case Throws(v) => Works(called, true, Some(v))
  }

  /** Opcodes that only move control: calls, returns and handlers. */
  predicate OnlyControl(op: Byte) {
    op in {NOP, CALL, CALLL, RET, ABORT, TRY, TRYL, ENDTRY, ENDTRYL}
  }

  // ----- the instruction set -----

  function EffectOf(w: Calls, op: Byte, arg: seq<Byte>, d: Memory): Effect {
    if op <= PUSHINT256 then Replaced(d, 0, [Int(SignedBytes(arg))])
    else if 0x0F <= op <= PUSH16 then Replaced(d, 0, [Int(op - 0x10)])
    else if op == PUSHNULL then Replaced(d, 0, [Null])
    else if JMP <= op <= JMPLEL then Branch(op, d)
    else if OnlyControl(op) then Done(d)
    else if op == SYSCALL then SystemCall(w, arg, d)
    else if op == THROW then
      if d.stack == [] then Fails else Works(d.(stack := d.stack[..|d.stack| - 1]), true, Some(Peek(d, 0)))
    else if op == ENDFINALLY then Works(d, true, d.pending)
    else if op in {0x45, 0x4A, 0x4B, 0x4D, 0xC0} then StackOperation(op, d)
    else if op in {INITSSLOT, INITSLOT} then Prologue(op, arg, d)
    else if 0x58 <= op < 0x78 then SlotOperation(op, arg, d)
    else if op in {0x97, 0x98} then Equality(op, d)
    else if op in {0x9C, 0x9D} then UnaryNumber(op, d)
    else if op in {0x9E, 0x9F, 0xA0} then BinaryNumber(op, d)
    else if 0xB3 <= op <= 0xB8 then Comparison(op, d)
    else if op == PICKITEM then Element(d)
    else if op in {0xAA, 0xCA, 0xD8, CONVERT} then Inspection(op, arg, d)
    else NotModelled
  }

  /** NOT, SIZE, ISNULL and the conversion to a boolean, which leaves null as it is. */
  function Inspection(op: Byte, arg: seq<Byte>, d: Memory): Effect {
    if |d.stack| < 1 then Fails
    else
      var v := Peek(d, 0);
      if op == 0xAA then Replaced(d, 1, [Bool(!AsBoolean(v))])
      else if op == 0xD8 then Replaced(d, 1, [Bool(v.Null?)])
      else if op == 0xCA then
        if v.Arr? then Replaced(d, 1, [Int(|v.elems|)]) else if v.Null? then Fails else NotModelled
      else if arg == [0x20] then Replaced(d, 1, [if v.Null? then v else Bool(AsBoolean(v))])
      else NotModelled
  }

  // ----- runs -----

  /** One set of local slots for each frame. Outside is where a run leaves what is modelled. */
  datatype Conf =
    | Conf(vm: State, stack: seq<Value>, locals: seq<Slots>, statics: Slots, exception: Value, trace: seq<nat>)
    | Outside

  /** The machine's choices, made by the data. An exception out of a call comes with a fee. */
  function ChoiceOf(op: Byte, e: Effect): Choice {
    Choice(e.Works? && e.holds, e.Fails?, e.Works? && e.raised.Some?, 0,
           if op == SYSCALL && e.Works? && e.raised.Some? then 1 else 0)
  }

  function DataOf(k: Conf): Memory
    requires k.Conf? && k.vm.Running? && k.locals != []
  {
    Memory(k.stack, k.locals[0], k.statics, k.trace, if k.vm.uncaught then Some(k.exception) else None)
  }

  /** Slots of the frames that are left, or of one more. */
  function SlotsFor(locals: seq<Slots>, n: nat): seq<Slots> {
    if n > |locals| then [None] + locals else locals[|locals| - n..]
  }

  /**
   * The machine has moved to vm after an instruction with this effect; a caught exception is pushed for its handler.
   */
  function After(k: Conf, e: Effect, vm: State): Conf
    requires k.Conf? && k.locals != []
  {
    if !e.Works? then k.(vm := vm)
    else
      var locals := [e.data.locals] + k.locals[1..];
      Conf(vm,
           if e.raised.Some? && vm.Running? && !vm.uncaught then e.data.stack + [e.raised.value] else e.data.stack,
           if vm.Running? then SlotsFor(locals, |vm.frames|) else locals,
           e.data.statics,
           if e.raised.Some? then e.raised.value else k.exception,
           e.data.trace)
  }

  function Step(w: Calls, script: seq<Byte>, cfg: Config, k: Conf): Conf {
    if k.Outside? || !k.vm.Running? || k.vm.frames == [] || k.locals == [] then k
    else if k.vm.frames[0].nextip < 0 then k.(vm := Crashed)
    else
      match FetchAt(script, k.vm.frames[0].nextip)
      case Malformed => k.(vm := Faulted(BadInstruction))
      case AtEnd =>
        var e := Done(DataOf(k));
        After(k, e, Machine.Step(script, cfg, k.vm, ChoiceOf(RET, e)))
      case Fetched(op, lo, hi) =>
        var e := EffectOf(w, op, script[lo..hi], DataOf(k));
        if e.NotModelled? then Outside else After(k, e, Machine.Step(script, cfg, k.vm, ChoiceOf(op, e)))
  }

  function Steps(w: Calls, script: seq<Byte>, cfg: Config, k: Conf, n: nat): Conf
    decreases n
  {
    if n == 0 then k else Steps(w, script, cfg, Step(w, script, cfg, k), n - 1)
  }

  ghost predicate Reaches(w: Calls, script: seq<Byte>, cfg: Config, k: Conf, j: Conf) {
    exists n: nat :: Steps(w, script, cfg, k, n) == j
  }

  lemma {:induction false} StepsAdd(w: Calls, script: seq<Byte>, cfg: Config, k: Conf, m: nat, n: nat)
    ensures Steps(w, script, cfg, k, m + n) == Steps(w, script, cfg, Steps(w, script, cfg, k, m), n)
    decreases m
  {
    hide Step;
    if m > 0 { StepsAdd(w, script, cfg, Step(w, script, cfg, k), m - 1, n); }
  }

  lemma Through(w: Calls, script: seq<Byte>, cfg: Config, k: Conf, j: Conf, i: Conf)
    requires Reaches(w, script, cfg, k, j) && Reaches(w, script, cfg, j, i)
    ensures Reaches(w, script, cfg, k, i)
  {
    hide Step;
    var m: nat :| Steps(w, script, cfg, k, m) == j;
    var n: nat :| Steps(w, script, cfg, j, n) == i;
    StepsAdd(w, script, cfg, k, m, n);
    assert Steps(w, script, cfg, k, m + n) == i;
  }

  lemma OneStep(w: Calls, script: seq<Byte>, cfg: Config, k: Conf)
    ensures Reaches(w, script, cfg, k, Step(w, script, cfg, k))
  {
    hide Step;
    var j := Step(w, script, cfg, k);
    assert Steps(w, script, cfg, j, 0) == j;
    assert Steps(w, script, cfg, k, 1) == j;
  }

  lemma Itself(w: Calls, script: seq<Byte>, cfg: Config, k: Conf)
    ensures Reaches(w, script, cfg, k, k)
  {
    assert Steps(w, script, cfg, k, 0) == k;
  }

  /** A script started at its first byte with an empty stack. */
  function Loaded(statics: Slots): Conf {
    Conf(Running([Frame(0, [])], false, [], 0), [], [None], statics, Null, [])
  }

  /** The machine has stopped. */
  predicate Ended(k: Conf) { k.Outside? || !k.vm.Running? }

  lemma {:induction false} EndStays(w: Calls, script: seq<Byte>, cfg: Config, k: Conf, n: nat)
    requires Ended(k)
    ensures Steps(w, script, cfg, k, n) == k
  {
    if n > 0 { EndStays(w, script, cfg, k, n - 1); }
  }

  /** A run ends in one way. */
  lemma OneEnd(w: Calls, script: seq<Byte>, cfg: Config, k: Conf, j: Conf, i: Conf)
    requires Reaches(w, script, cfg, k, j) && Reaches(w, script, cfg, k, i) && Ended(j) && Ended(i)
    ensures j == i
  {
    hide Step;
    var m: nat :| Steps(w, script, cfg, k, m) == j;
    var n: nat :| Steps(w, script, cfg, k, n) == i;
    if m <= n {
      StepsAdd(w, script, cfg, k, m, n - m);
      EndStays(w, script, cfg, j, n - m);
    } else {
      StepsAdd(w, script, cfg, k, n, m - n);
      EndStays(w, script, cfg, i, m - n);
    }
  }

  // ----- a run on data is a run of the control machine -----

  /** The choices that the data makes along a run. */
  function Choices(w: Calls, script: seq<Byte>, cfg: Config, k: Conf, n: nat): seq<Choice>
    decreases n
  {
    if n == 0 || Ended(k) || k.vm.frames == [] || k.locals == [] || k.vm.frames[0].nextip < 0 then []
    else
      var f := FetchAt(script, k.vm.frames[0].nextip);
      var e := if f.Fetched? then EffectOf(w, f.op, script[f.lo..f.hi], DataOf(k)) else Done(DataOf(k));
      [ChoiceOf(if f.Fetched? then f.op else RET, e)] + Choices(w, script, cfg, Step(w, script, cfg, k), n - 1)
  }

  /**
   * Every run on data is one of the runs of the control machine, so all that holds of those for every sequence of
   * choices holds of it.
   */
  lemma {:induction false} DataRunIsRun(w: Calls, script: seq<Byte>, cfg: Config, k: Conf, n: nat)
    requires k.Conf? && (k.vm.Running? ==> k.vm.frames != [] && |k.locals| == |k.vm.frames|)
    ensures var j := Steps(w, script, cfg, k, n);
            j.Conf? && !j.vm.Crashed? ==> j.vm == Run(script, cfg, k.vm, Choices(w, script, cfg, k, n))
    decreases n
  {
    hide EffectOf, FetchAt, Machine.Step;
    if n > 0 && k.vm.Running? {
      var j := Step(w, script, cfg, k);
      if j.Conf? && j.vm.Running? {
        var chs := Choices(w, script, cfg, k, n);
        FramesRemain(script, cfg, k.vm, chs[0]);
        StepAgrees(w, script, cfg, k);
        DataRunIsRun(w, script, cfg, j, n - 1);
        assert chs[1..] == Choices(w, script, cfg, j, n - 1);
      } else if j.Conf? && !j.vm.Crashed? {
        EndStays(w, script, cfg, j, n - 1);
        StepAgrees(w, script, cfg, k);
        var chs := Choices(w, script, cfg, k, n);
        FramesRemain(script, cfg, k.vm, chs[0]);
        assert chs[1..] == Choices(w, script, cfg, j, n - 1) == [];
      } else {
        EndStays(w, script, cfg, j, n - 1);
      }
    } else if n > 0 {
      EndStays(w, script, cfg, k, n);
    }
  }

  /** A step adds at most one frame. */
  lemma FramesGrow(script: seq<Byte>, cfg: Config, st: State, ch: Choice)
    requires st.Running? && st.frames != []
    ensures var t := Machine.Step(script, cfg, st, ch); t.Running? ==> 0 < |t.frames| <= |st.frames| + 1
  {
    hide FetchAt, OperationOf, Apply, Coefficient;
    FramesRemain(script, cfg, st, ch);
    var ip := st.frames[0].nextip;
    if ip >= 0 {
      var f := FetchAt(script, ip);
      if f.Fetched? {
        OperationGrows(cfg, OperationOf(script, ip, f.op, script[f.lo..f.hi]),
                       Machine.JumpTo(st.(gas := st.gas + Coefficient(f.op) * cfg.base), f.hi), ch);
      } else if f.AtEnd? {
        OperationGrows(cfg, Return, st, ch);
      }
    }
  }

  lemma OperationGrows(cfg: Config, o: Operation, st: State, ch: Choice)
    requires st.Running? && st.frames != []
    ensures var t := Apply(cfg, o, st, ch); t.Running? ==> |t.frames| <= |st.frames| + 1
  {
    hide HandleException;
    UnwindingShrinks(st.frames);
  }

  lemma {:induction false} UnwindingShrinks(frames: seq<Frame>)
    ensures HandleException(frames).Resumed? ==> |HandleException(frames).frames| <= |frames|
  {
    if frames != [] { UnwindingShrinks(frames[1..]); }
  }

  lemma StepAgrees(w: Calls, script: seq<Byte>, cfg: Config, k: Conf)
    requires k.Conf? && k.vm.Running? && k.vm.frames != [] && |k.locals| == |k.vm.frames|
    ensures var j, chs := Step(w, script, cfg, k), Choices(w, script, cfg, k, 1);
            && (j.Conf? && !j.vm.Crashed? ==> |chs| > 0 && j.vm == Machine.Step(script, cfg, k.vm, chs[0]))
            && (j.Conf? && j.vm.Running? ==> j.vm.frames != [] && |j.locals| == |j.vm.frames|)
  {
    hide EffectOf, FetchAt, Machine.Step;
    assert Choices(w, script, cfg, Step(w, script, cfg, k), 0) == [];
    if k.vm.frames[0].nextip >= 0 {
      var f := FetchAt(script, k.vm.frames[0].nextip);
      var e := if f.Fetched? then EffectOf(w, f.op, script[f.lo..f.hi], DataOf(k)) else Done(DataOf(k));
      FramesGrow(script, cfg, k.vm, ChoiceOf(if f.Fetched? then f.op else RET, e));
      if f.Malformed? { MalformedFaults(script, cfg, k.vm, ChoiceOf(RET, e)); }
      FailureFaults(script, cfg, w, k);
    }
  }

  lemma MalformedFaults(script: seq<Byte>, cfg: Config, st: State, ch: Choice)
    requires st.Running? && st.frames != [] && st.frames[0].nextip >= 0 &&
             FetchAt(script, st.frames[0].nextip).Malformed?
    ensures Machine.Step(script, cfg, st, ch) == Faulted(BadInstruction)
  {
    hide FetchAt;
  }

  /** An instruction that fails on its data stops the machine. */
  lemma FailureFaults(script: seq<Byte>, cfg: Config, w: Calls, k: Conf)
    requires k.Conf? && k.vm.Running? && k.vm.frames != [] && k.locals != [] && k.vm.frames[0].nextip >= 0
    ensures var f := FetchAt(script, k.vm.frames[0].nextip);
            f.Fetched? && EffectOf(w, f.op, script[f.lo..f.hi], DataOf(k)).Fails? ==>
              !Step(w, script, cfg, k).vm.Running?
  {
    hide FetchAt, Coefficient;
  }
}
