/**
 * Deferred calls: each defer statement opens a handler, and the function's exit is followed by one block of handler
 * code for each of them (pkg/compiler/codegen.go). The blocks run on the handler semantics of the Machine module.
 */
module Defers {
  import opened Machine

  // ----- source -----

  /** A straight-line body: calls that may throw, and defer statements. */
  datatype Item = Work(call: nat) | Defer(call: nat)

  /** Which calls throw; a call may depend on all calls made before it. */
  type World = (nat, seq<nat>) -> bool

  datatype BodyRun = BodyRun(trace: seq<nat>, pending: seq<nat>, threw: bool)

  /** The calls a body makes, the deferred calls registered by its end, and whether a call ended it by throwing. */
  function RunBody(w: World, items: seq<Item>, run: BodyRun): BodyRun
    decreases |items|
  {
    if items == [] || run.threw then run
    else
      match items[0]
      case Work(f) => RunBody(w, items[1..], run.(trace := run.trace + [f], threw := w(f, run.trace)))
      case Defer(f) => RunBody(w, items[1..], run.(pending := run.pending + [f]))
  }

  function LastFirst(s: seq<nat>): seq<nat> {
    if s == [] then [] else [s[|s| - 1]] + LastFirst(s[..|s| - 1])
  }

  // ----- emission -----

  datatype Op =
    | Perform(call: nat)
    | OpenTry(catchLab: nat, finallyLab: nat)
    | CloseTry(lab: nat)
    | StoreException
    | StoreFlag
    | LoadFlag
    | Const(n: int)
    | JumpIf(lab: nat)
    | CloseFinally
    | Exit

  datatype Code = Code(prog: seq<Op>, l: seq<int>)

  datatype Deferred = Deferred(catchLab: nat, finallyLab: nat, call: nat)

  function Emit(c: Code, ops: seq<Op>): Code { c.(prog := c.prog + ops) }

  function AddLabel(c: Code): Code { c.(l := c.l + [-1]) }

  function Place(c: Code, lab: nat): Code
    requires lab < |c.l|
  {
    c.(l := c.l[lab := |c.prog|])
  }

  /** The handler code of one deferred call. */
  function EmitDefer(d: Deferred, c: Code): (r: Code)
    requires d.catchLab < |c.l| && d.finallyLab < |c.l|
    ensures r.prog == c.prog + Block(d, |c.l|, |c.l| + 1)
    ensures |r.l| == |c.l| + 2
    ensures r.l[|c.l|] == |c.prog| + 12 && r.l[|c.l| + 1] == |c.prog| + 9
    ensures r.l[d.finallyLab] == |c.prog| + 6 && (d.catchLab != d.finallyLab ==> r.l[d.catchLab] == |c.prog| + 1)
    ensures forall i :: 0 <= i < |c.l| && i != d.catchLab && i != d.finallyLab ==> r.l[i] == c.l[i]
  {
    var after, before := |c.l|, |c.l| + 1;
    var c1 := Place(Emit(AddLabel(c), [CloseTry(after)]), d.catchLab);
    var c2 := Place(Emit(c1, [StoreException, Const(1), StoreFlag, Perform(d.call), CloseTry(after)]), d.finallyLab);
    var c3 := Place(Emit(AddLabel(c2), [LoadFlag, JumpIf(before), Perform(d.call)]), before);
    Place(Emit(c3, [Const(0), StoreFlag, CloseFinally]), after)
  }

  /** The twelve instructions of a block. */
  function Block(d: Deferred, after: nat, before: nat): (b: seq<Op>)
    ensures |b| == 12
  {
    [CloseTry(after), StoreException, Const(1), StoreFlag, Perform(d.call), CloseTry(after),
     LoadFlag, JumpIf(before), Perform(d.call), Const(0), StoreFlag, CloseFinally]
  }

  predicate LabelsExist(stack: seq<Deferred>, n: nat) {
    forall i :: 0 <= i < |stack| ==> stack[i].catchLab < n && stack[i].finallyLab < n
  }

  /** Blocks for the deferred calls from the last down to the first. */
  function ProcessDefers(stack: seq<Deferred>, c: Code): Code
    requires LabelsExist(stack, |c.l|)
    decreases |stack|
  {
    if stack == [] then c else ProcessDefers(stack[..|stack| - 1], EmitDefer(stack[|stack| - 1], c))
  }

  /** The statements of the body; a defer statement opens a handler and is remembered. */
  function EmitItems(items: seq<Item>, stack: seq<Deferred>, c: Code): (r: (Code, seq<Deferred>))
    ensures |r.0.l| >= |c.l|
    decreases |items|
  {
    if items == [] then (c, stack)
    else
      match items[0]
      case Work(f) => EmitItems(items[1..], stack, Emit(c, [Perform(f)]))
      case Defer(f) =>
        var n := |c.l|;
        EmitItems(items[1..], stack + [Deferred(n, n + 1, f)], Emit(AddLabel(AddLabel(c)), [OpenTry(n, n + 1)]))
  }

  lemma {:induction false} ItemsLabels(items: seq<Item>, stack: seq<Deferred>, c: Code)
    requires LabelsExist(stack, |c.l|)
    ensures var (d, ds) := EmitItems(items, stack, c); LabelsExist(ds, |d.l|)
    decreases |items|
  {
    if items != [] {
      match items[0]
      case Work(f) => ItemsLabels(items[1..], stack, Emit(c, [Perform(f)]));
      case Defer(f) =>
        var n := |c.l|;
        ItemsLabels(items[1..], stack + [Deferred(n, n + 1, f)], Emit(AddLabel(AddLabel(c)), [OpenTry(n, n + 1)]));
    }
  }

  function EmitFunction(items: seq<Item>): Code {
    var (c, stack) := EmitItems(items, [], Code([], []));
    ItemsLabels(items, [], Code([], []));
    Emit(ProcessDefers(stack, c), [Exit])
  }

  /** The emitter's state, changed in place. */
  class Emitter {
    var prog: seq<Op>
    var l: seq<int>
    var deferStack: seq<Deferred>

    function Written(): Code
      reads this
    {
      Code(prog, l)
    }

    constructor ()
      ensures Written() == Code([], []) && deferStack == []
    {
      prog, l, deferStack := [], [], [];
    }

    method NewLabel() returns (lab: nat)
      modifies this`l
      ensures lab == old(|l|) && Written() == old(AddLabel(Written()))
    {
      lab := |l|;
      l := l + [-1];
    }

    method SetLabel(lab: nat)
      requires lab < |l|
      modifies this`l
      ensures Written() == old(Place(Written(), lab))
    {
      l := l[lab := |prog|];
    }

    method Write(ops: seq<Op>)
      modifies this`prog
      ensures Written() == old(Emit(Written(), ops))
    {
      prog := prog + ops;
    }

    method VisitWork(f: nat)
      modifies this`prog
      ensures Written() == old(Emit(Written(), [Perform(f)]))
    {
      Write([Perform(f)]);
    }

    method VisitDefer(f: nat)
      modifies this
      ensures var n := old(|l|);
              && Written() == old(Emit(AddLabel(AddLabel(Written())), [OpenTry(n, n + 1)]))
              && deferStack == old(deferStack) + [Deferred(n, n + 1, f)]
    {
      var catchLab := NewLabel();
      var finallyLab := NewLabel();
      Write([OpenTry(catchLab, finallyLab)]);
      deferStack := deferStack + [Deferred(catchLab, finallyLab, f)];
    }

    /** The handler code of one deferred call. */
    method WriteDefer(d: Deferred)
      requires d.catchLab < |l| && d.finallyLab < |l|
      modifies this`prog, this`l
      ensures Written() == old(EmitDefer(d, Written()))
    {
      var after := NewLabel();
      Write([CloseTry(after)]);
      SetLabel(d.catchLab);
      Write([StoreException, Const(1), StoreFlag, Perform(d.call), CloseTry(after)]);
      SetLabel(d.finallyLab);
      var before := NewLabel();
      Write([LoadFlag, JumpIf(before), Perform(d.call)]);
      SetLabel(before);
      Write([Const(0), StoreFlag, CloseFinally]);
      SetLabel(after);
    }

    /** The handler blocks, last deferred call first. */
    method WriteDefers()
      requires LabelsExist(deferStack, |l|)
      modifies this`prog, this`l
      ensures Written() == old(ProcessDefers(deferStack, Written()))
    {
      hide EmitDefer;
      var i := |deferStack|;
      assert deferStack[..i] == deferStack;
      while i > 0
        invariant 0 <= i <= |deferStack| && LabelsExist(deferStack, |l|)
        invariant ProcessDefers(deferStack[..i], Written()) == old(ProcessDefers(deferStack, Written()))
      {
        i := i - 1;
        assert deferStack[..i + 1][..i] == deferStack[..i];
        WriteDefer(deferStack[i]);
      }
    }

    /** A whole function body. */
    method Convert(items: seq<Item>)
      requires Written() == Code([], []) && deferStack == []
      modifies this
      ensures Written() == EmitFunction(items)
    {
      for i := 0 to |items|
        invariant LabelsExist(deferStack, |l|)
        invariant EmitItems(items[i..], deferStack, Written()) == EmitItems(items, [], Code([], []))
      {
        assert items[i..][1..] == items[i + 1..];
        match items[i]
        case Work(f) => VisitWork(f);
        case Defer(f) => VisitDefer(f);
      }
      WriteDefers();
      Write([Exit]);
    }
  }
}
