/**
 * What the instructions of the virtual machine do with data, said of the items they find: arithmetic and its range,
 * comparisons, slots, and the way of an exception's item to its handler (pkg/vm/vm.go).
 */
module DataLaws {
  import opened Bytes
  import opened Opcodes
  import opened Common
  import opened Machine
  import opened ControlLaws
  import opened Bytecode
  import opened DataMachine
  import opened DataSteps
  import Context
  import S = StackCode

  // ----- numbers -----

  /** The item stands for the number. */
  predicate Counts(v: S.Value, n: int) {
    v == S.Value.Int(n) || (n == 0 && v == S.Value.Bool(false)) || (n == 1 && v == S.Value.Bool(true))
  }

  predicate NoNumber(v: S.Value) { v.Null? || v.Arr? }

  /** The items below the operands stay, the result takes the place of the operands. */
  ghost predicate Leaves(e: Effect, d: Memory, s: seq<S.Value>, v: S.Value) {
    e == DataMachine.Done(d.(stack := s + [v]))
  }

  /** ADD, SUB and MUL; a result of more than 256 bits fails. */
  lemma ArithmeticLaw(w: Calls, op: Byte, d: Memory, s: seq<S.Value>, x: S.Value, y: S.Value, a: int, b: int)
    requires d.stack == s + [x, y] && Counts(x, a) && Counts(y, b) && op in {0x9E, 0x9F, 0xA0}
    ensures var r := if op == 0x9E then a + b else if op == 0x9F then a - b else a * b;
            if -0x8000_0000_0000_0000_0000_0000_0000_0000_0000_0000_0000_0000_0000_0000_0000_0000 <= r
               <= 0x7FFF_FFFF_FFFF_FFFF_FFFF_FFFF_FFFF_FFFF_FFFF_FFFF_FFFF_FFFF_FFFF_FFFF_FFFF_FFFF
            then Leaves(EffectOf(w, op, [], d), d, s, S.Value.Int(r)) else EffectOf(w, op, [], d) == Fails
  {
    assert d.stack[..|d.stack| - 2] == s;
  }

  /** INC and DEC are ADD and SUB of one. */
  lemma StepLaw(w: Calls, op: Byte, d: Memory)
    requires op in {0x9C, 0x9D} && d.stack != []
    ensures EffectOf(w, op, [], d) == EffectOf(w, op + 2, [], d.(stack := d.stack + [S.Value.Int(1)]))
  {
    var d' := d.(stack := d.stack + [S.Value.Int(1)]);
    assert d'.stack[..|d'.stack| - 2] == d.stack[..|d.stack| - 1];
  }

  /** NUMEQUAL, NUMNOTEQUAL, LT, LE, GT and GE on numbers. */
  lemma ComparisonLaw(w: Calls, op: Byte, d: Memory, s: seq<S.Value>, x: S.Value, y: S.Value, a: int, b: int)
    requires d.stack == s + [x, y] && Counts(x, a) && Counts(y, b) && 0xB3 <= op <= 0xB8
    ensures Leaves(EffectOf(w, op, [], d), d, s,
                   S.Value.Bool([a == b, a != b, a < b, a <= b, a > b, a >= b][op - 0xB3]))
  {
    assert d.stack[..|d.stack| - 2] == s;
  }

  /** With null, the order comparisons say no and the others fail. */
  lemma NullComparisonLaw(w: Calls, op: Byte, d: Memory, s: seq<S.Value>, x: S.Value, y: S.Value)
    requires d.stack == s + [x, y] && (x.Null? || y.Null?) && 0xB3 <= op <= 0xB8
    ensures if op >= 0xB5 then Leaves(EffectOf(w, op, [], d), d, s, S.Value.Bool(false))
            else EffectOf(w, op, [], d) == Fails
  {
    assert d.stack[..|d.stack| - 2] == s;
  }

  /** The comparison that a comparing jump makes. */
  function ComparisonOf(jump: Byte): Byte
    requires JMPEQ <= jump <= JMPLEL
  {
    [0xB3, 0xB4, 0xB7, 0xB8, 0xB5, 0xB6][(jump - JMPEQ) / 2]
  }

  /** A comparing jump takes two numbers off the stack and jumps exactly if their comparison holds. */
  lemma ComparingJumpLaw(w: Calls, op: Byte, arg: seq<Byte>, d: Memory, s: seq<S.Value>, x: S.Value, y: S.Value, a: int,
                         b: int)
    requires d.stack == s + [x, y] && Counts(x, a) && Counts(y, b) && JMPEQ <= op <= JMPLEL
    ensures exists holds ::
              && EffectOf(w, op, arg, d) == Works(d.(stack := s), holds, None)
              && Leaves(EffectOf(w, ComparisonOf(op), [], d), d, s, S.Value.Bool(holds))
  {
    assert d.stack[..|d.stack| - 2] == s;
    ComparisonLaw(w, ComparisonOf(op), d, s, x, y, a, b);
    var holds := Compares(ComparisonOf(op), a, b);
    assert EffectOf(w, op, arg, d) == Works(d.(stack := s), holds, None);
    assert Leaves(EffectOf(w, ComparisonOf(op), [], d), d, s, S.Value.Bool(holds));
  }

  /** Null and arrays are no operands for arithmetic and comparing jumps. */
  lemma NoNumberLaw(w: Calls, op: Byte, arg: seq<Byte>, d: Memory, s: seq<S.Value>, x: S.Value, y: S.Value)
    requires d.stack == s + [x, y] && (NoNumber(x) || NoNumber(y))
    requires op in {0x9E, 0x9F, 0xA0} || JMPEQ <= op <= JMPLEL
    ensures EffectOf(w, op, arg, d) == Fails
  {}

  // ----- truth -----

  /** What is true as a condition: everything but zero, false and null. */
  predicate IsTrue(v: S.Value) { !(v.Null? || Counts(v, 0)) }

  /** JMPIF jumps on what is true, JMPIFNOT on the rest; both take their condition off the stack. */
  lemma ConditionLaw(w: Calls, op: Byte, arg: seq<Byte>, d: Memory, s: seq<S.Value>, v: S.Value)
    requires d.stack == s + [v] && op in {JMPIF, JMPIFL, JMPIFNOT, JMPIFNOTL}
    ensures EffectOf(w, op, arg, d) == Works(d.(stack := s), IsTrue(v) <==> op in {JMPIF, JMPIFL}, None)
  {
    assert d.stack[..|d.stack| - 1] == s;
  }

  /** NOT, ISNULL and the conversion to a boolean, which leaves null alone. */
  lemma TruthLaw(w: Calls, d: Memory, s: seq<S.Value>, v: S.Value)
    requires d.stack == s + [v]
    ensures Leaves(EffectOf(w, 0xAA, [], d), d, s, S.Value.Bool(!IsTrue(v)))
    ensures Leaves(EffectOf(w, 0xD8, [], d), d, s, S.Value.Bool(v == S.Value.Null))
    ensures Leaves(EffectOf(w, 0xDB, [0x20], d), d, s, if v == S.Value.Null then v else S.Value.Bool(IsTrue(v)))
  {
    assert d.stack[..|d.stack| - 1] == s;
  }

  /** EQUAL and NOTEQUAL on items that are not both arrays. */
  lemma EqualityLaw(w: Calls, d: Memory, s: seq<S.Value>, x: S.Value, y: S.Value)
    requires d.stack == s + [x, y] && !(x.Arr? && y.Arr?)
    ensures Leaves(EffectOf(w, 0x97, [], d), d, s, S.Value.Bool(x == y))
    ensures Leaves(EffectOf(w, 0x98, [], d), d, s, S.Value.Bool(x != y))
  {
    assert d.stack[..|d.stack| - 2] == s;
  }

  // ----- too little on the stack -----

  /** How many items an instruction needs at least. */
  function Needs(op: Byte): nat {
    if op in {0x4B, 0x4D, 0xCE} then 2
    else if op in {0x97, 0x98, 0x9E, 0x9F, 0xA0} || 0xB3 <= op <= 0xB8 || JMPEQ <= op <= JMPLEL then 2
    else if JMPIF <= op <= JMPIFNOTL || 0x60 <= op <= 0x67 || 0x70 <= op <= 0x77 then 1
    else if op in {THROW, 0x45, 0x4A, 0xC0, 0x9C, 0x9D, 0xAA, 0xCA, 0xD8, 0xDB} then 1
    else 0
  }

  lemma UnderflowLaw(w: Calls, op: Byte, arg: seq<Byte>, d: Memory)
    requires |d.stack| < Needs(op)
    ensures EffectOf(w, op, arg, d) == Fails
  {}

  // ----- slots -----

  /** The bases of the instructions that load and store static slots, and of those for local ones. */
  function LoadBase(local: bool): Byte { if local then 0x68 else 0x58 }

  function StoreBase(local: bool): Byte { if local then 0x70 else 0x60 }

  function SlotsOf(d: Memory, local: bool): Slots { if local then d.locals else d.statics }

  /** A load pushes what the slot holds; a slot that is not there fails. */
  lemma LoadLaw(w: Calls, d: Memory, local: bool, i: nat)
    requires i <= 255
    ensures var load := SlotIns(LoadBase(local), i);
            var slots := SlotsOf(d, local);
            if slots.Some? && i < |slots.value|
            then Leaves(EffectOf(w, load.op, load.arg, d), d, d.stack, slots.value[i])
            else EffectOf(w, load.op, load.arg, d) == Fails
  {
    assert d.stack[..|d.stack| - 0] == d.stack;
  }

  /** A stored item is what that slot holds from then on; the other slots, of either kind, are as they were. */
  lemma StoreLaw(w: Calls, d: Memory, local: bool, i: nat, s: seq<S.Value>, v: S.Value)
    requires i <= 255 && d.stack == s + [v]
    ensures var store := SlotIns(StoreBase(local), i);
            var slots, e := SlotsOf(d, local), EffectOf(w, store.op, store.arg, d);
            if slots.Some? && i < |slots.value|
            then && e.Works? && e.raised.None? && e.data.stack == s && e.data.trace == d.trace
                 && SlotsOf(e.data, local) == Some(slots.value[i := v]) && SlotsOf(e.data, !local) == SlotsOf(d, !local)
            else e == Fails
  {
    assert d.stack[..|d.stack| - 1] == s;
  }

  /** INITSSLOT and INITSLOT without arguments make slots that hold null, but only where there are none yet. */
  lemma FreshSlotsLaw(w: Calls, d: Memory, n: Byte)
    ensures var e := EffectOf(w, INITSSLOT, [n], d);
            if n == 0 || d.statics.Some? then e == Fails
            else && e == DataMachine.Done(d.(statics := e.data.statics)) && e.data.statics.Some?
                 && |e.data.statics.value| == n && forall i :: 0 <= i < n ==> e.data.statics.value[i] == S.Value.Null
    ensures var e := EffectOf(w, INITSLOT, [n, 0], d);
            if n == 0 || d.locals.Some? then e == Fails
            else && e == DataMachine.Done(d.(locals := e.data.locals)) && e.data.locals.Some?
                 && |e.data.locals.value| == n && forall i :: 0 <= i < n ==> e.data.locals.value[i] == S.Value.Null
  {}

  /**
   * Every frame has its own local slots: a call begins without any, whatever the instruction the frames below keep
   * theirs, and a return uncovers them.
   */
  lemma OwnSlots(w: Calls, script: seq<Byte>, cfg: Config, k: Conf, n: nat)
    requires k.Conf? && k.vm.Running? && 0 < |k.locals| == |k.vm.frames| && n < |k.locals|
    requires var j := DataMachine.Step(w, script, cfg, k); j.Conf? && j.vm.Running?
    ensures var j := DataMachine.Step(w, script, cfg, k);
            && |j.locals| == |j.vm.frames|
            && (n <= |j.locals| ==> j.locals[|j.locals| - n..] == k.locals[|k.locals| - n..])
            && (|j.locals| > |k.locals| ==> j.locals[0] == None)
  {
    hide EffectOf, Machine.Step, Context.FetchAt, After;
    var f := Context.FetchAt(script, k.vm.frames[0].nextip);
    var e := if f.Fetched? then EffectOf(w, f.op, script[f.lo..f.hi], DataOf(k)) else DataMachine.Done(DataOf(k));
    FramesGrow(script, cfg, k.vm, ChoiceOf(if f.Fetched? then f.op else RET, e));
    if f.Fetched? && e.Fails? { FailingStops(w, script, cfg, k, f.op, f.lo, f.hi); }
    var vm := Machine.Step(script, cfg, k.vm, ChoiceOf(if f.Fetched? then f.op else RET, e));
    AfterIs(k, e, vm);
    SlotsAfter(k.locals, e.data.locals, |vm.frames|, n);
  }

  lemma AfterIs(k: Conf, e: Effect, vm: State)
    requires k.Conf? && k.locals != []
    ensures After(k, e, vm).Conf? && After(k, e, vm).vm == vm
    ensures e.Works? && vm.Running? ==>
              After(k, e, vm).locals == SlotsFor([e.data.locals] + k.locals[1..], |vm.frames|)
  {}

  lemma SlotsAfter(locals: seq<Slots>, top: Slots, count: nat, n: nat)
    requires 0 < count <= |locals| + 1 && n < |locals|
    ensures var now := SlotsFor([top] + locals[1..], count);
            && |now| == count && (n <= count ==> now[count - n..] == locals[|locals| - n..])
            && (count > |locals| ==> now[0] == None)
  {
    var moved := [top] + locals[1..];
    var now := SlotsFor(moved, count);
    if n <= count {
      var a, b := now[count - n..], locals[|locals| - n..];
      forall i | 0 <= i < n ensures a[i] == b[i] {
        assert now[count - n + i] == moved[|moved| - n + i];
      }
      assert a == b;
    }
  }

  /** Only instructions that look at data fail on it. */
  lemma FailsOnData(w: Calls, op: Byte, arg: seq<Byte>, d: Memory)
    requires EffectOf(w, op, arg, d) == Fails
    ensures LooksAtData(op)
  {}

  lemma FailingStops(w: Calls, script: seq<Byte>, cfg: Config, k: Conf, op: Byte, lo: nat, next: nat)
    requires k.Conf? && k.vm.Running? && k.vm.frames != [] && k.locals != [] && k.vm.frames[0].nextip >= 0
    requires Context.FetchAt(script, k.vm.frames[0].nextip) == Context.Fetched(op, lo, next)
    requires EffectOf(w, op, script[lo..next], DataOf(k)) == Fails
    ensures !Machine.Step(script, cfg, k.vm, ChoiceOf(op, Fails)).Running?
  {
    hide EffectOf, Machine.Step, Context.FetchAt, Coefficient, OffsetOf, LooksAtData;
    var arg := script[lo..next];
    FailsOnData(w, op, arg, DataOf(k));
    RefusalLaw(script, cfg, k.vm, ChoiceOf(op, Fails));
    if Executes(script, cfg, k.vm, op, arg, next) {
      if HasOffset(op) && !(0 <= k.vm.frames[0].nextip + OffsetOf(arg) <= |script|) {
        TargetLaw(script, cfg, k.vm, ChoiceOf(op, Fails), op, arg, next);
      } else {
        FailureLaw(script, cfg, k.vm, ChoiceOf(op, Fails), op, arg, next);
      }
    }
  }

  // ----- exceptions -----

  /** The item thrown is on top of the rest when its handler catches it, and kept while it is on its way. */
  lemma ThrownItem(w: Calls, script: seq<Byte>, cfg: Config, k: Conf, next: nat, s: seq<S.Value>, v: S.Value,
                   above: seq<Frame>, f: Frame, done: seq<Handler>, h: Handler, rest: seq<Handler>, below: seq<Frame>)
    requires k.Conf? && Executes(script, cfg, k.vm, THROW, [], next) && k.locals != [] && k.stack == s + [v]
    requires k.vm.frames == above + [f] + below && forall i :: 0 <= i < |above| ==> AllFinished(above[i].handlers)
    requires f.handlers == done + [h] + rest && AllFinished(done) && !AllFinished([h])
    ensures var j := DataMachine.Step(w, script, cfg, k);
            && j.Conf? && j.vm.Running? && j.exception == v && j.trace == k.trace && j.statics == k.statics
            && j.vm.uncaught == !(h.phase == InTry && h.catchOffset >= 0)
            && j.stack == (if j.vm.uncaught then s else s + [v])
  {
    hide Machine.Step, Coefficient, Context.FetchAt, AllFinished;
    var e := EffectOf(w, THROW, [], DataOf(k));
    assert k.stack[..|k.stack| - 1] == s;
    DataStep(w, script, cfg, k, THROW, [], next);
    ExceptionLaw(script, cfg, k.vm, ChoiceOf(THROW, e), THROW, [], next, above, f, done, h, rest, below);
  }

  /** At the end of a finally block it goes on to the next handler. */
  lemma RethrownItem(w: Calls, script: seq<Byte>, cfg: Config, k: Conf, next: nat,
                     above: seq<Frame>, f: Frame, done: seq<Handler>, h: Handler, rest: seq<Handler>, below: seq<Frame>)
    requires k.Conf? && Executes(script, cfg, k.vm, ENDFINALLY, [], next) && k.vm.uncaught && k.locals != []
    requires k.vm.frames == above + [f] + below && forall i :: 0 <= i < |above| ==> AllFinished(above[i].handlers)
    requires f.handlers == done + [h] + rest && AllFinished(done) && !AllFinished([h])
    ensures var j := DataMachine.Step(w, script, cfg, k);
            && j.Conf? && j.vm.Running? && j.exception == k.exception && j.trace == k.trace && j.statics == k.statics
            && j.vm.uncaught == !(h.phase == InTry && h.catchOffset >= 0)
            && j.stack == (if j.vm.uncaught then k.stack else k.stack + [k.exception])
  {
    hide Machine.Step, Coefficient, Context.FetchAt, AllFinished;
    var e := EffectOf(w, ENDFINALLY, [], DataOf(k));
    DataStep(w, script, cfg, k, ENDFINALLY, [], next);
    ExceptionLaw(script, cfg, k.vm, ChoiceOf(ENDFINALLY, e), ENDFINALLY, [], next, above, f, done, h, rest, below);
  }
}
