/** The code of functions with deferred calls as instructions. */
module DeferScript {
  import opened Bytes
  import opened Opcodes
  import opened Instructions
  import opened WriteJumps
  import opened FinalScript
  import opened Bytecode
  import opened Defers

  // ----- placement of labels -----

  /** Labels an operation refers to exist; those of a handler are still open or lie behind it. */
  predicate RefersAt(c: Code, open: set<nat>, k: nat)
    requires k < |c.prog|
  {
    match c.prog[k]
    case OpenTry(a, b) => Behind(c, open, k, a) && Behind(c, open, k, b)
    case CloseTry(lab) => lab < |c.l|
    case JumpIf(lab) => lab < |c.l|
    case _ => true
  }

  predicate Behind(c: Code, open: set<nat>, k: nat, lab: nat) { lab < |c.l| && (lab in open || c.l[lab] >= k) }

  /** All labels but the open ones are placed, and all references are good. */
  predicate AllPlaced(c: Code, open: set<nat>) {
    && (forall i :: i in open ==> i < |c.l|)
    && (forall i :: 0 <= i < |c.l| && i !in open ==> 0 <= c.l[i] <= |c.prog|)
    && (forall k :: 0 <= k < |c.prog| ==> RefersAt(c, open, k))
  }

  lemma EmitPlaced(c: Code, ops: seq<Op>, open: set<nat>)
    requires AllPlaced(c, open)
    requires forall k :: 0 <= k < |ops| ==>
               match ops[k]
               case OpenTry(a, b) => a in open && b in open
               case CloseTry(lab) => lab < |c.l|
               case JumpIf(lab) => lab < |c.l|
               case _ => true
    ensures AllPlaced(Emit(c, ops), open)
  {
    var d := Emit(c, ops);
    forall k | 0 <= k < |d.prog| ensures RefersAt(d, open, k) {
      if k < |c.prog| { assert RefersAt(c, open, k); } else { assert d.prog[k] == ops[k - |c.prog|]; }
    }
  }

  lemma AddLabelPlaced(c: Code, open: set<nat>)
    requires AllPlaced(c, open)
    ensures AllPlaced(AddLabel(c), open + {|c.l|})
  {
    var d := AddLabel(c);
    forall k | 0 <= k < |d.prog| ensures RefersAt(d, open + {|c.l|}, k) { assert RefersAt(c, open, k); }
  }

  lemma PlacePlaced(c: Code, lab: nat, open: set<nat>)
    requires AllPlaced(c, open) && lab < |c.l|
    ensures AllPlaced(Place(c, lab), open - {lab})
  {
    var d := Place(c, lab);
    forall k | 0 <= k < |d.prog| ensures RefersAt(d, open - {lab}, k) { assert RefersAt(c, open, k); }
  }

  lemma OpenExist(c: Code, open: set<nat>)
    requires AllPlaced(c, open)
    ensures forall i :: i in open ==> i < |c.l|
  {}

  /** A handler block places the labels of its deferred call and its own two. */
  lemma DeferPlaced(d: Deferred, c: Code, open: set<nat>)
    requires AllPlaced(c, open) && d.catchLab < |c.l| && d.finallyLab < |c.l|
    ensures AllPlaced(EmitDefer(d, c), open - {d.catchLab, d.finallyLab})
  {
    hide AllPlaced;
    var after, before := |c.l|, |c.l| + 1;
    OpenExist(c, open);
    var c0 := AddLabel(c);
    var o0 := open + {after};
    AddLabelPlaced(c, open);
    EmitPlaced(c0, [CloseTry(after)], o0);
    var c1 := Place(Emit(c0, [CloseTry(after)]), d.catchLab);
    PlacePlaced(Emit(c0, [CloseTry(after)]), d.catchLab, o0);
    var body := [StoreException, Const(1), StoreFlag, Perform(d.call), CloseTry(after)];
    EmitPlaced(c1, body, o0 - {d.catchLab});
    var c2 := Place(Emit(c1, body), d.finallyLab);
    var o2 := o0 - {d.catchLab} - {d.finallyLab};
    PlacePlaced(Emit(c1, body), d.finallyLab, o0 - {d.catchLab});
    AddLabelPlaced(c2, o2);
    var rest := [LoadFlag, JumpIf(before), Perform(d.call)];
    EmitPlaced(AddLabel(c2), rest, o2 + {before});
    var c3 := Place(Emit(AddLabel(c2), rest), before);
    PlacePlaced(Emit(AddLabel(c2), rest), before, o2 + {before});
    EmitPlaced(c3, [Const(0), StoreFlag, CloseFinally], o2 + {before} - {before});
    PlacePlaced(Emit(c3, [Const(0), StoreFlag, CloseFinally]), after, o2 + {before} - {before});
    assert o2 + {before} - {before} - {after} == open - {d.catchLab, d.finallyLab};
  }

  function LabelsOf(stack: seq<Deferred>): (r: set<nat>)
  {
    if stack == [] then {}
    else LabelsOf(stack[..|stack| - 1]) + {stack[|stack| - 1].catchLab, stack[|stack| - 1].finallyLab}
  }

  lemma FewerOpen(c: Code, open: set<nat>, fewer: set<nat>)
    requires AllPlaced(c, fewer) && fewer <= open && forall i :: i in open ==> i < |c.l|
    ensures AllPlaced(c, open)
  {
    forall k | 0 <= k < |c.prog| ensures RefersAt(c, open, k) { assert RefersAt(c, fewer, k); }
  }

  lemma {:induction false} DefersPlaced(stack: seq<Deferred>, c: Code)
    requires LabelsExist(stack, |c.l|) && AllPlaced(c, LabelsOf(stack))
    ensures AllPlaced(ProcessDefers(stack, c), {})
    decreases |stack|
  {
    hide AllPlaced;
    if stack != [] {
      var rest, d := stack[..|stack| - 1], stack[|stack| - 1];
      var c' := EmitDefer(d, c);
      DeferPlaced(d, c, LabelsOf(stack));
      LabelsBelow(rest, |c'.l|);
      FewerOpen(c', LabelsOf(rest), LabelsOf(stack) - {d.catchLab, d.finallyLab});
      DefersPlaced(rest, c');
    }
  }

  lemma {:induction false} LabelsBelow(stack: seq<Deferred>, n: nat)
    requires LabelsExist(stack, n)
    ensures forall i :: i in LabelsOf(stack) ==> i < n
  {
    if stack != [] { LabelsBelow(stack[..|stack| - 1], n); }
  }

  lemma {:induction false} ItemsPlaced(items: seq<Item>, stack: seq<Deferred>, c: Code)
    requires LabelsExist(stack, |c.l|) && AllPlaced(c, LabelsOf(stack))
    ensures var (d, ds) := EmitItems(items, stack, c); LabelsExist(ds, |d.l|) && AllPlaced(d, LabelsOf(ds))
    decreases |items|
  {
    hide AllPlaced;
    if items != [] {
      match items[0]
      case Work(f) =>
        EmitPlaced(c, [Perform(f)], LabelsOf(stack));
        ItemsPlaced(items[1..], stack, Emit(c, [Perform(f)]));
      case Defer(f) =>
        var n := |c.l|;
        var stack' := stack + [Deferred(n, n + 1, f)];
        AddLabelPlaced(c, LabelsOf(stack));
        AddLabelPlaced(AddLabel(c), LabelsOf(stack) + {n});
        assert stack'[..|stack|] == stack;
        assert LabelsOf(stack') == LabelsOf(stack) + {n} + {n + 1};
        var c' := AddLabel(AddLabel(c));
        EmitPlaced(c', [OpenTry(n, n + 1)], LabelsOf(stack'));
        ItemsPlaced(items[1..], stack', Emit(c', [OpenTry(n, n + 1)]));
    }
  }

  lemma FunctionPlaced(items: seq<Item>)
    ensures AllPlaced(EmitFunction(items), {})
  {
    hide EmitItems, ProcessDefers;
    var (c, ds) := EmitItems(items, [], Code([], []));
    ItemsPlaced(items, [], Code([], []));
    DefersPlaced(ds, c);
    EmitPlaced(ProcessDefers(ds, c), [Exit], {});
  }

  // ----- instructions -----

  /** The exception goes to a static slot, the flag to a local one; calls are written as system calls. */
  function Written(i: Op, exceptionIndex: nat, finalIndex: nat): Ins {
    match i
    case Perform(f) => Ins(SYSCALL, LE32(f))
    case OpenTry(a, b) => TryIns(a, b)
    case CloseTry(lab) => JumpIns(ENDTRYL, lab)
    case StoreException => SlotIns(0x60, exceptionIndex)
    case StoreFlag => SlotIns(0x70, finalIndex)
    case LoadFlag => SlotIns(0x68, finalIndex)
    case Const(n) => IntIns(n)
    case JumpIf(lab) => JumpIns(JMPIFL, lab)
    case CloseFinally => Ins(ENDFINALLY, [])
    case Exit => Ins(RET, [])
  }

  function Script(c: Code, exceptionIndex: nat, finalIndex: nat): (p: seq<Ins>)
    ensures |p| == |c.prog| && forall i :: 0 <= i < |p| ==> p[i] == Written(c.prog[i], exceptionIndex, finalIndex)
  {
    seq(|c.prog|, i requires 0 <= i < |c.prog| => Written(c.prog[i], exceptionIndex, finalIndex))
  }

  lemma WrittenFits(i: Op, e: nat, f: nat)
    ensures var ins := Written(i, e, f);
            && IsValid(ins.op) && ins.op !in {PUSHDATA1, PUSHDATA2, PUSHDATA4} && |ins.arg| == ParameterSize(ins.op)
            && ins.op !in {TRY, PUSHA, INITSLOT} && !IsShortJump(ins.op)
            && (IsLongJump(ins.op) ==> (i.CloseTry? || i.JumpIf?) && ins.arg == LabelBytes(i.lab))
            && (ins.op == TRYL ==> i.OpenTry? && ins.arg == LabelBytes(i.catchLab) + LabelBytes(i.finallyLab))
  {
    hide LabelBytes, LE32, LittleEndian;
  }

  lemma TryBytes(a: nat, b: nat)
    requires a < 0x1_0000 && b < 0x1_0000
    ensures var s := LabelBytes(a) + LabelBytes(b); U16(s[..2]) == a && U16(s[4..6]) == b
  {
    hide LabelBytes, U16;
    var s := LabelBytes(a) + LabelBytes(b);
    assert s[..2] == LabelBytes(a)[..2] && s[4..6] == LabelBytes(b)[..2];
  }

  lemma WrittenLabelled(c: Code, e: nat, f: nat, i: nat)
    requires i < |c.prog| && |c.l| <= 0x1_0000 && AllPlaced(c, {})
    ensures Labelled(Script(c, e, f), c.l, i)
  {
    hide LabelBytes, Written, IsValid, IsShortJump, IsLongJump, ParameterSize, U16;
    assert Script(c, e, f)[i] == Written(c.prog[i], e, f);
    WrittenFits(c.prog[i], e, f);
    assert RefersAt(c, {}, i);
    if c.prog[i].OpenTry? { TryBytes(c.prog[i].catchLab, c.prog[i].finallyLab); }
  }

  /** A whole function: its prologue, then its body and its handler blocks. */
  function Program(items: seq<Item>, exceptionIndex: nat, finalIndex: nat): seq<Ins> {
    WithPrologue(Script(EmitFunction(items), exceptionIndex, finalIndex))
  }

  function Labels(items: seq<Item>): seq<int> { Shifted(EmitFunction(items).l) }

  ghost predicate WithinLimits(items: seq<Item>, e: nat, f: nat, slots: nat) {
    && |EmitFunction(items).l| <= 0x1_0000 && f < slots <= 255 && e < 255
    && Addr(Program(items, e, f), |Program(items, e, f)|) < 0x8000_0000
  }

  /** The same for functions with deferred calls: their handlers lie behind the TRYL that names them. */
  lemma DefersCompile(items: seq<Item>, e: nat, f: nat, slots: nat)
    requires WithinLimits(items, e, f, slots)
    ensures Compiles(Program(items, e, f), Labels(items), map[0 := slots])
  {
    hide Labelled, Emitted, Resolve, Written, EmitFunction, Addr, RefersAt;
    var c := EmitFunction(items);
    var body := Script(c, e, f);
    FunctionPlaced(items);
    forall i | 0 <= i < |body| ensures Labelled(body, c.l, i) { WrittenLabelled(c, e, f, i); }
    PrologueLabelled(body, c.l);
    LabelledIsEmitted(Program(items, e, f), Labels(items));
    LabelledResolves(Program(items, e, f), Labels(items), map[0 := slots], |Program(items, e, f)|);
  }
}
