/** Every registered deferred call runs exactly once, last first, whether the body returns or throws. */
module DefersRun {
  import opened Machine
  import opened Defers

  datatype Cell = Exception | Number(n: int)

  /** Control state of the virtual machine and the data that the handler code uses. */
  datatype Conf = Conf(vm: State, stack: seq<Cell>, flag: int, trace: seq<nat>)

  const CFG := Config(1, -1)
  const CHOICE := Choice(false, false, false, 0, 0)

  /** The function's frame on top of its callers'. */
  function Control(pc: int, handlers: seq<Handler>, below: seq<Frame>): (st: State)
    ensures st.Running? && st.frames != []
  {
    Running([Frame(pc, handlers)] + below, false, [], 0)
  }

  function Do(o: Operation, st: State): State
    requires st.Running? && st.frames != []
  {
    Apply(CFG, o, st, CHOICE)
  }

  /** An exception that a catch block takes is pushed for it. */
  function Thrown(k: Conf, st: State): Conf
    requires st.Running? && st.frames != []
  {
    var vm := Do(Throw, st);
    Conf(vm, if vm.Running? && !vm.uncaught then k.stack + [Exception] else k.stack, k.flag, k.trace)
  }

  function Target(l: seq<int>, lab: nat): int { if lab < |l| then l[lab] else -1 }

  function Step(w: World, p: seq<Op>, l: seq<int>, k: Conf): Conf {
    if !k.vm.Running? || k.vm.frames == [] then k
    else
      var pc := k.vm.frames[0].nextip;
      if !(0 <= pc < |p|) then k.(vm := Crashed)
      else
        var st := JumpTo(k.vm, pc + 1);
        match p[pc]
        case Perform(f) =>
          var k' := k.(vm := st, trace := k.trace + [f]);
          if w(f, k.trace) then Thrown(k', st) else k'
        case OpenTry(c, f) =>
          var c', f' := Target(l, c), Target(l, f);
          k.(vm := Do(Try(if c' == pc then -1 else c', if f' == pc then -1 else f'), st))
        case CloseTry(lab) => if Target(l, lab) < 0 then k.(vm := Crashed) else k.(vm := Do(EndTry(Target(l, lab)), st))
        case CloseFinally => if st.uncaught then Thrown(k, st) else k.(vm := Do(EndFinally, st))
        case StoreException =>
          if k.stack == [] then k.(vm := Crashed) else k.(vm := st, stack := k.stack[..|k.stack| - 1])
        case StoreFlag =>
          if k.stack == [] || !k.stack[|k.stack| - 1].Number? then k.(vm := Crashed)
          else k.(vm := st, stack := k.stack[..|k.stack| - 1], flag := k.stack[|k.stack| - 1].n)
        case LoadFlag => k.(vm := st, stack := k.stack + [Number(k.flag)])
        case Const(n) => k.(vm := st, stack := k.stack + [Number(n)])
        case JumpIf(lab) =>
          if k.stack == [] || !k.stack[|k.stack| - 1].Number? then k.(vm := Crashed)
          else
            var yes := k.stack[|k.stack| - 1] != Number(0);
            k.(vm := if yes then JumpTo(st, Target(l, lab)) else st, stack := k.stack[..|k.stack| - 1])
        case Exit => k.(vm := Do(Return, st))
  }

  function Steps(w: World, p: seq<Op>, l: seq<int>, k: Conf, n: nat): Conf
    decreases n
  {
    if n == 0 then k else Steps(w, p, l, Step(w, p, l, k), n - 1)
  }

  ghost predicate Reaches(w: World, p: seq<Op>, l: seq<int>, k: Conf, j: Conf) {
    exists n: nat :: Steps(w, p, l, k, n) == j
  }

  lemma {:induction false} StepsAdd(w: World, p: seq<Op>, l: seq<int>, k: Conf, m: nat, n: nat)
    ensures Steps(w, p, l, k, m + n) == Steps(w, p, l, Steps(w, p, l, k, m), n)
    decreases m
  {
    hide Step;
    if m > 0 { StepsAdd(w, p, l, Step(w, p, l, k), m - 1, n); }
  }

  lemma Through(w: World, p: seq<Op>, l: seq<int>, k: Conf, j: Conf, i: Conf)
    requires Reaches(w, p, l, k, j) && Reaches(w, p, l, j, i)
    ensures Reaches(w, p, l, k, i)
  {
    hide Step;
    var m: nat :| Steps(w, p, l, k, m) == j;
    var n: nat :| Steps(w, p, l, j, n) == i;
    StepsAdd(w, p, l, k, m, n);
    assert Steps(w, p, l, k, m + n) == i;
  }

  lemma OneStep(w: World, p: seq<Op>, l: seq<int>, k: Conf, j: Conf)
    requires Step(w, p, l, k) == j
    ensures Reaches(w, p, l, k, j)
  {
    hide Step;
    assert Steps(w, p, l, j, 0) == j;
    assert Steps(w, p, l, k, 1) == j;
  }

  lemma Then(w: World, p: seq<Op>, l: seq<int>, k: Conf, j: Conf, i: Conf)
    requires Reaches(w, p, l, k, j) && Step(w, p, l, j) == i
    ensures Reaches(w, p, l, k, i)
  {
    hide Step, Reaches;
    OneStep(w, p, l, j, i);
    Through(w, p, l, k, j, i);
  }

  // ----- one block -----

  /** The code of a deferred call starts at b, and its labels are where they belong. */
  ghost predicate BlockAt(p: seq<Op>, l: seq<int>, d: Deferred, b: nat) {
    exists after: nat, before: nat :: BlockWith(p, l, d, b, after, before)
  }

  predicate BlockWith(p: seq<Op>, l: seq<int>, d: Deferred, b: nat, after: nat, before: nat) {
    && b + 12 <= |p| && p[b..b + 12] == Block(d, after, before)
    && after < |l| && before < |l| && d.catchLab < |l| && d.finallyLab < |l|
    && l[after] == b + 12 && l[before] == b + 9 && l[d.catchLab] == b + 1 && l[d.finallyLab] == b + 6
  }

  lemma BlockOps(p: seq<Op>, l: seq<int>, d: Deferred, b: nat, after: nat, before: nat)
    requires BlockWith(p, l, d, b, after, before)
    ensures p[b] == CloseTry(after) && p[b + 1] == StoreException && p[b + 2] == Const(1) && p[b + 3] == StoreFlag
    ensures p[b + 4] == Perform(d.call) && p[b + 5] == CloseTry(after) && p[b + 6] == LoadFlag &&
            p[b + 7] == JumpIf(before)
    ensures p[b + 8] == Perform(d.call) && p[b + 9] == Const(0) && p[b + 10] == StoreFlag && p[b + 11] == CloseFinally
  {
    var s := p[b..b + 12];
    assert forall i :: 0 <= i < 12 ==> p[b + i] == s[i];
  }

  function HandlerOf(l: seq<int>, d: Deferred): Handler {
    Handler(Target(l, d.catchLab), Target(l, d.finallyLab), -1, InTry)
  }

  /** From the finally part on, with the flag as the catch part or the normal path left it. */
  lemma FinallyRuns(w: World, p: seq<Op>, l: seq<int>, d: Deferred, b: nat, after: nat, before: nat,
                    rest: seq<Handler>, below: seq<Frame>, flag: int, tr: seq<nat>)
    requires BlockWith(p, l, d, b, after, before) && (flag == 0 ==> !w(d.call, tr))
    ensures Reaches(w, p, l,
                    Conf(Control(b + 6, [HandlerOf(l, d).(phase := InFinally, endOffset := b + 12)] + rest, below), [],
                         flag, tr),
                    Conf(Control(b + 12, rest, below), [], 0, if flag == 0 then tr + [d.call] else tr))
  {
    hide Reaches, HandlerOf, Block, Step;
    BlockOps(p, l, d, b, after, before);
    var hs := [HandlerOf(l, d).(phase := InFinally, endOffset := b + 12)] + rest;
    var tr' := if flag == 0 then tr + [d.call] else tr;
    FinallyStarts(w, p, l, d, b, before, hs, below, flag, tr);
    FinallyEnds(w, p, l, b, hs, below, flag, tr');
    Through(w, p, l, Conf(Control(b + 6, hs, below), [], flag, tr), Conf(Control(b + 9, hs, below), [], flag, tr'),
            Conf(Control(b + 12, rest, below), [], 0, tr'));
  }

  /** The test of the flag, and the call unless the catch part has made it. */
  lemma FinallyStarts(w: World, p: seq<Op>, l: seq<int>, d: Deferred, b: nat, before: nat, hs: seq<Handler>,
                      below: seq<Frame>, flag: int, tr: seq<nat>)
    requires b + 12 <= |p| && p[b + 6] == LoadFlag && p[b + 7] == JumpIf(before) && p[b + 8] == Perform(d.call)
    requires before < |l| && l[before] == b + 9 && (flag == 0 ==> !w(d.call, tr))
    ensures Reaches(w, p, l, Conf(Control(b + 6, hs, below), [], flag, tr),
                    Conf(Control(b + 9, hs, below), [], flag, if flag == 0 then tr + [d.call] else tr))
  {
    hide Reaches, Do, Thrown;
    var k6 := Conf(Control(b + 6, hs, below), [], flag, tr);
    var k7 := Conf(Control(b + 7, hs, below), [Number(flag)], flag, tr);
    OneStep(w, p, l, k6, k7);
    if flag == 0 {
      var k8 := Conf(Control(b + 8, hs, below), [], flag, tr);
      Then(w, p, l, k6, k7, k8);
      Then(w, p, l, k6, k8, Conf(Control(b + 9, hs, below), [], flag, tr + [d.call]));
    } else {
      Then(w, p, l, k6, k7, Conf(Control(b + 9, hs, below), [], flag, tr));
    }
  }

  /** The last three instructions of a block. */
  lemma FinallyEnds(w: World, p: seq<Op>, l: seq<int>, b: nat, hs: seq<Handler>, below: seq<Frame>, flag: int,
                    tr: seq<nat>)
    requires b + 12 <= |p| && p[b + 9] == Const(0) && p[b + 10] == StoreFlag && p[b + 11] == CloseFinally
    requires hs != [] && hs[0].endOffset == b + 12
    ensures Reaches(w, p, l, Conf(Control(b + 9, hs, below), [], flag, tr),
                    Conf(Control(b + 12, hs[1..], below), [], 0, tr))
  {
    hide Reaches;
    var k9 := Conf(Control(b + 9, hs, below), [], flag, tr);
    var k10 := Conf(Control(b + 10, hs, below), [Number(0)], flag, tr);
    var k11 := Conf(Control(b + 11, hs, below), [], 0, tr);
    OneStep(w, p, l, k9, k10);
    Then(w, p, l, k9, k10, k11);
    Then(w, p, l, k9, k11, Conf(Control(b + 12, hs[1..], below), [], 0, tr));
  }

  /** Entered in order, a block runs its call in the finally part. */
  lemma NormalBlock(w: World, p: seq<Op>, l: seq<int>, d: Deferred, b: nat, rest: seq<Handler>, below: seq<Frame>,
                    tr: seq<nat>)
    requires BlockAt(p, l, d, b) && !w(d.call, tr)
    ensures Reaches(w, p, l, Conf(Control(b, [HandlerOf(l, d)] + rest, below), [], 0, tr),
                    Conf(Control(b + 12, rest, below), [], 0, tr + [d.call]))
  {
    hide Reaches, Block;
    var after: nat, before: nat :| BlockWith(p, l, d, b, after, before);
    BlockOps(p, l, d, b, after, before);
    var k := Conf(Control(b, [HandlerOf(l, d)] + rest, below), [], 0, tr);
    var j := Conf(Control(b + 6, [HandlerOf(l, d).(phase := InFinally, endOffset := b + 12)] + rest, below), [], 0, tr);
    ClosesTry(w, p, l, k, b, after, HandlerOf(l, d), rest, below);
    OneStep(w, p, l, k, j);
    FinallyRuns(w, p, l, d, b, after, before, rest, below, 0, tr);
    Through(w, p, l, k, j, Conf(Control(b + 12, rest, below), [], 0, tr + [d.call]));
  }

  lemma ClosesTry(w: World, p: seq<Op>, l: seq<int>, k: Conf, pc: nat, after: nat, h: Handler, rest: seq<Handler>,
                  below: seq<Frame>)
    requires pc < |p| && p[pc] == CloseTry(after) && after < |l| && l[after] >= 0
    requires k.vm == Control(pc, [h] + rest, below) && h.phase != InFinally && h.HasFinally()
    ensures Step(w, p, l, k) == k.(vm := Control(h.finallyOffset,
                                                 [h.(phase := InFinally, endOffset := l[after])] + rest, below))
  {}

  /** Entered by an exception, a block runs its call in the catch part and skips it in the finally part. */
  lemma CatchBlock(w: World, p: seq<Op>, l: seq<int>, d: Deferred, b: nat, rest: seq<Handler>, below: seq<Frame>,
                   tr: seq<nat>)
    requires BlockAt(p, l, d, b) && !w(d.call, tr)
    ensures Reaches(w, p, l, Conf(Control(b + 1, [HandlerOf(l, d).(phase := InCatch)] + rest, below), [Exception], 0,
                                  tr),
                    Conf(Control(b + 12, rest, below), [], 0, tr + [d.call]))
  {
    hide Reaches, Block;
    var after: nat, before: nat :| BlockWith(p, l, d, b, after, before);
    BlockOps(p, l, d, b, after, before);
    var h := HandlerOf(l, d).(phase := InCatch);
    var k1 := Conf(Control(b + 1, [h] + rest, below), [Exception], 0, tr);
    var k5 := Conf(Control(b + 5, [h] + rest, below), [], 1, tr + [d.call]);
    var k6 := Conf(Control(b + 6, [h.(phase := InFinally, endOffset := b + 12)] + rest, below), [], 1, tr + [d.call]);
    CatchStarts(w, p, l, d, b, [h] + rest, below, tr);
    ClosesTry(w, p, l, k5, b + 5, after, h, rest, below);
    Then(w, p, l, k1, k5, k6);
    FinallyRuns(w, p, l, d, b, after, before, rest, below, 1, tr + [d.call]);
    Through(w, p, l, k1, k6, Conf(Control(b + 12, rest, below), [], 0, tr + [d.call]));
  }

  lemma CatchStarts(w: World, p: seq<Op>, l: seq<int>, d: Deferred, b: nat, hs: seq<Handler>, below: seq<Frame>,
                    tr: seq<nat>)
    requires b + 12 <= |p| && p[b + 1] == StoreException && p[b + 2] == Const(1) && p[b + 3] == StoreFlag &&
             p[b + 4] == Perform(d.call)
    requires !w(d.call, tr)
    ensures Reaches(w, p, l, Conf(Control(b + 1, hs, below), [Exception], 0, tr),
                    Conf(Control(b + 5, hs, below), [], 1, tr + [d.call]))
  {
    hide Reaches, Do, Thrown;
    var k1 := Conf(Control(b + 1, hs, below), [Exception], 0, tr);
    var k2 := Conf(Control(b + 2, hs, below), [], 0, tr);
    var k3 := Conf(Control(b + 3, hs, below), [Number(1)], 0, tr);
    var k4 := Conf(Control(b + 4, hs, below), [], 1, tr);
    OneStep(w, p, l, k1, k2);
    Then(w, p, l, k1, k2, k3);
    Then(w, p, l, k1, k3, k4);
    Then(w, p, l, k1, k4, Conf(Control(b + 5, hs, below), [], 1, tr + [d.call]));
  }

  // ----- where the blocks are -----

  /** Labels in the order in which defer statements create them. */
  predicate Ordered(ds: seq<Deferred>) {
    && (forall i :: 0 <= i < |ds| ==> ds[i].finallyLab == ds[i].catchLab + 1)
    && (forall i, j :: 0 <= i < j < |ds| ==> ds[i].catchLab + 2 <= ds[j].catchLab)
  }

  predicate Mentions(ds: seq<Deferred>, lab: nat) {
    exists i :: 0 <= i < |ds| && (ds[i].catchLab == lab || ds[i].finallyLab == lab)
  }

  lemma {:induction false} DefersKeep(ds: seq<Deferred>, c: Code, lab: nat)
    requires LabelsExist(ds, |c.l|) && lab < |c.l| && !Mentions(ds, lab)
    ensures var d := ProcessDefers(ds, c); |d.l| >= |c.l| && d.l[lab] == c.l[lab]
    decreases |ds|
  {
    hide EmitDefer, Block;
    if ds != [] {
      var pre, last := ds[..|ds| - 1], ds[|ds| - 1];
      assert ds[|ds| - 1] == last;
      DefersKeep(pre, EmitDefer(last, c), lab);
    }
  }

  lemma {:induction false} DefersAppend(ds: seq<Deferred>, c: Code)
    requires LabelsExist(ds, |c.l|)
    ensures var d := ProcessDefers(ds, c); c.prog <= d.prog && |d.prog| == |c.prog| + 12 * |ds| && |d.l| >= |c.l|
    decreases |ds|
  {
    if ds != [] { DefersAppend(ds[..|ds| - 1], EmitDefer(ds[|ds| - 1], c)); }
  }

  lemma {:induction false} DefersPlaced(p: seq<Op>, ds: seq<Deferred>, c: Code, i: nat)
    requires LabelsExist(ds, |c.l|) && Ordered(ds) && i < |ds| && ProcessDefers(ds, c).prog <= p
    ensures BlockAt(p, ProcessDefers(ds, c).l, ds[i], |c.prog| + 12 * (|ds| - 1 - i))
    decreases |ds|
  {
    hide EmitDefer, Block, BlockAt;
    var pre, last := ds[..|ds| - 1], ds[|ds| - 1];
    var c1 := EmitDefer(last, c);
    if i < |pre| {
      DefersPlaced(p, pre, c1, i);
      assert |c1.prog| + 12 * (|pre| - 1 - i) == |c.prog| + 12 * (|ds| - 1 - i);
    } else {
      FirstBlock(p, pre, last, c);
    }
  }

  lemma FirstBlock(p: seq<Op>, pre: seq<Deferred>, last: Deferred, c: Code)
    requires LabelsExist(pre, |c.l|) && last.catchLab < |c.l| && last.finallyLab < |c.l| && Ordered(pre + [last])
    requires ProcessDefers(pre, EmitDefer(last, c)).prog <= p
    ensures BlockAt(p, ProcessDefers(pre, EmitDefer(last, c)).l, last, |c.prog|)
  {
    hide EmitDefer, Block, ProcessDefers;
    var ds, c1 := pre + [last], EmitDefer(last, c);
    var d := ProcessDefers(pre, c1);
    assert ds[|pre|] == last && forall i :: 0 <= i < |pre| ==> ds[i] == pre[i];
    DefersAppend(pre, c1);
    DefersKeep(pre, c1, |c.l|);
    DefersKeep(pre, c1, |c.l| + 1);
    DefersKeep(pre, c1, last.catchLab);
    DefersKeep(pre, c1, last.finallyLab);
    SliceAt(p, c.prog, Block(last, |c.l|, |c.l| + 1));
    assert BlockWith(p, d.l, last, |c.prog|, |c.l|, |c.l| + 1);
  }

  lemma SliceAt<T>(p: seq<T>, a: seq<T>, b: seq<T>)
    requires a + b <= p
    ensures p[|a|..|a| + |b|] == b
  {}

  /** All blocks are in place, the last deferred call's first, and the exit after them. */
  ghost predicate Layout(p: seq<Op>, l: seq<int>, ds: seq<Deferred>, base: nat) {
    && (forall i :: 0 <= i < |ds| ==> BlockAt(p, l, ds[i], base + 12 * (|ds| - 1 - i)))
    && base + 12 * |ds| < |p| && p[base + 12 * |ds|] == Exit
  }

  lemma {:induction false} ItemsExtend(items: seq<Item>, stack: seq<Deferred>, c: Code)
    requires LabelsExist(stack, |c.l|) && Ordered(stack)
    ensures var (d, ds) := EmitItems(items, stack, c);
            c.prog <= d.prog && stack <= ds && LabelsExist(ds, |d.l|) && Ordered(ds)
    decreases |items|
  {
    if items != [] {
      match items[0]
      case Work(f) => ItemsExtend(items[1..], stack, Emit(c, [Perform(f)]));
      case Defer(f) =>
        var n := |c.l|;
        ItemsExtend(items[1..], stack + [Deferred(n, n + 1, f)], Emit(AddLabel(AddLabel(c)), [OpenTry(n, n + 1)]));
    }
  }

  lemma FunctionLayout(items: seq<Item>)
    ensures var (c, ds) := EmitItems(items, [], Code([], []));
            var d := EmitFunction(items);
            c.prog <= d.prog && Layout(d.prog, d.l, ds, |c.prog|)
  {
    hide ProcessDefers, EmitItems;
    var (c, ds) := EmitItems(items, [], Code([], []));
    var d := EmitFunction(items);
    ItemsExtend(items, [], Code([], []));
    DefersAppend(ds, c);
    forall i | 0 <= i < |ds|
      ensures BlockAt(d.prog, d.l, ds[i], |c.prog| + 12 * (|ds| - 1 - i))
    {
      DefersPlaced(d.prog, ds, c, i);
    }
  }

  // ----- the whole function -----

  function Calls(ds: seq<Deferred>): (s: seq<nat>)
    ensures |s| == |ds| && forall i :: 0 <= i < |ds| ==> s[i] == ds[i].call
  {
    seq(|ds|, i requires 0 <= i < |ds| => ds[i].call)
  }

  /** The handlers open while the given calls are pending, innermost first. */
  function Handlers(l: seq<int>, ds: seq<Deferred>): (hs: seq<Handler>)
    ensures |hs| == |ds|
  {
    if ds == [] then [] else [HandlerOf(l, ds[|ds| - 1])] + Handlers(l, ds[..|ds| - 1])
  }

  /** Deferred calls do not throw. */
  ghost predicate Quiet(w: World, ds: seq<Deferred>) {
    forall i, tr :: 0 <= i < |ds| ==> !w(ds[i].call, tr)
  }

  /** The state in which the function has returned to its caller. */
  function Back(below: seq<Frame>): State { Leave(Control(0, [], below)) }

  /** From the first block that matters, the pending calls run last first and the function returns. */
  lemma {:induction false} BlocksRun(w: World, p: seq<Op>, l: seq<int>, ds: seq<Deferred>, base: nat, n: nat,
                                     below: seq<Frame>, tr: seq<nat>)
    requires Layout(p, l, ds, base) && n <= |ds| && Quiet(w, ds)
    ensures Reaches(w, p, l, Conf(Control(base + 12 * (|ds| - n), Handlers(l, ds[..n]), below), [], 0, tr),
                    Conf(Back(below), [], 0, tr + LastFirst(Calls(ds[..n]))))
    decreases n
  {
    hide Reaches, BlockAt, HandlerOf;
    var b := base + 12 * (|ds| - n);
    var k := Conf(Control(b, Handlers(l, ds[..n]), below), [], 0, tr);
    if n == 0 {
      assert tr + LastFirst(Calls(ds[..0])) == tr;
      OneStep(w, p, l, k, Conf(Back(below), [], 0, tr));
    } else {
      var d := ds[n - 1];
      assert ds[..n][..n - 1] == ds[..n - 1];
      assert Calls(ds[..n])[..n - 1] == Calls(ds[..n - 1]);
      NormalBlock(w, p, l, d, b, Handlers(l, ds[..n - 1]), below, tr);
      BlocksRun(w, p, l, ds, base, n - 1, below, tr + [d.call]);
      assert tr + [d.call] + LastFirst(Calls(ds[..n - 1])) == tr + LastFirst(Calls(ds[..n]));
      Through(w, p, l, k, Conf(Control(b + 12, Handlers(l, ds[..n - 1]), below), [], 0, tr + [d.call]),
              Conf(Back(below), [], 0, tr + LastFirst(Calls(ds[..n]))));
    }
  }

  /** An exception with pending calls: the innermost block catches it, the others run in order. */
  lemma CaughtRuns(w: World, p: seq<Op>, l: seq<int>, ds: seq<Deferred>, base: nat, n: nat, pc: nat, f: nat,
                   below: seq<Frame>, tr: seq<nat>)
    requires Layout(p, l, ds, base) && 0 < n <= |ds| && Quiet(w, ds) && pc < |p| && p[pc] == Perform(f) && w(f, tr)
    ensures Reaches(w, p, l, Conf(Control(pc, Handlers(l, ds[..n]), below), [], 0, tr),
                    Conf(Back(below), [], 0, tr + [f] + LastFirst(Calls(ds[..n]))))
  {
    hide Reaches, Block;
    var d, b := ds[n - 1], base + 12 * (|ds| - n);
    var rest := Handlers(l, ds[..n - 1]);
    assert ds[..n][..n - 1] == ds[..n - 1];
    assert Calls(ds[..n])[..n - 1] == Calls(ds[..n - 1]);
    var k := Conf(Control(pc, Handlers(l, ds[..n]), below), [], 0, tr);
    var j := Conf(Control(b + 1, [HandlerOf(l, d).(phase := InCatch)] + rest, below), [Exception], 0, tr + [f]);
    assert BlockAt(p, l, d, b);
    Catches(w, p, l, k, d, b, rest, pc, f, below);
    OneStep(w, p, l, k, j);
    CatchBlock(w, p, l, d, b, rest, below, tr + [f]);
    var i := Conf(Control(b + 12, rest, below), [], 0, tr + [f] + [d.call]);
    Through(w, p, l, k, j, i);
    BlocksRun(w, p, l, ds, base, n - 1, below, tr + [f] + [d.call]);
    assert tr + [f] + [d.call] + LastFirst(Calls(ds[..n - 1])) == tr + [f] + LastFirst(Calls(ds[..n]));
    Through(w, p, l, k, i, Conf(Back(below), [], 0, tr + [f] + LastFirst(Calls(ds[..n]))));
  }

  lemma Catches(w: World, p: seq<Op>, l: seq<int>, k: Conf, d: Deferred, b: nat, rest: seq<Handler>, pc: nat, f: nat,
                below: seq<Frame>)
    requires BlockAt(p, l, d, b) && pc < |p| && p[pc] == Perform(f) && w(f, k.trace) && k.stack == []
    requires k.vm == Control(pc, [HandlerOf(l, d)] + rest, below)
    ensures Step(w, p, l, k) == Conf(Control(b + 1, [HandlerOf(l, d).(phase := InCatch)] + rest, below), [Exception],
                                     k.flag, k.trace + [f])
  {}

  /** How a function must end, given what its body did. */
  ghost predicate EndsAs(w: World, p: seq<Op>, l: seq<int>, k: Conf, r: BodyRun, below: seq<Frame>) {
    if |r.pending| > MAX_TRY_NESTING_DEPTH then
      exists tr :: Reaches(w, p, l, k, Conf(Faulted(Rejected), [], 0, tr))
    else if r.threw && r.pending == [] then
      Reaches(w, p, l, k, Thrown(Conf(Control(0, [], below), [], 0, r.trace), Control(0, [], below)))
    else
      Reaches(w, p, l, k, Conf(Back(below), [], 0, r.trace + LastFirst(r.pending)))
  }

  lemma EndsAfter(w: World, p: seq<Op>, l: seq<int>, k: Conf, j: Conf, r: BodyRun, below: seq<Frame>)
    requires Reaches(w, p, l, k, j) && EndsAs(w, p, l, j, r, below)
    ensures EndsAs(w, p, l, k, r, below)
  {
    hide Reaches;
    if |r.pending| > MAX_TRY_NESTING_DEPTH {
      var tr :| Reaches(w, p, l, j, Conf(Faulted(Rejected), [], 0, tr));
      Through(w, p, l, k, j, Conf(Faulted(Rejected), [], 0, tr));
    } else if r.threw && r.pending == [] {
      Through(w, p, l, k, j, Thrown(Conf(Control(0, [], below), [], 0, r.trace), Control(0, [], below)));
    } else {
      Through(w, p, l, k, j, Conf(Back(below), [], 0, r.trace + LastFirst(r.pending)));
    }
  }

  lemma {:induction false} PendingGrows(w: World, items: seq<Item>, r: BodyRun)
    ensures |RunBody(w, items, r).pending| >= |r.pending|
    decreases |items|
  {
    if items != [] && !r.threw {
      match items[0]
      case Work(f) => PendingGrows(w, items[1..], r.(trace := r.trace + [f], threw := w(f, r.trace)));
      case Defer(f) => PendingGrows(w, items[1..], r.(pending := r.pending + [f]));
    }
  }

  lemma StoppedBody(w: World, items: seq<Item>, r: BodyRun)
    requires r.threw || items == []
    ensures RunBody(w, items, r) == r
  {}

  /** What the rest of the body assumes about its surroundings. */
  ghost predicate BodyReady(w: World, p: seq<Op>, l: seq<int>, items: seq<Item>, stack: seq<Deferred>, c: Code) {
    && LabelsExist(stack, |c.l|) && Ordered(stack) && |stack| <= MAX_TRY_NESTING_DEPTH
    && var (e, ds) := EmitItems(items, stack, c);
       e.prog <= p && Layout(p, l, ds, |e.prog|) && Quiet(w, ds)
  }

  lemma {:induction false} BodyRuns(w: World, p: seq<Op>, l: seq<int>, items: seq<Item>, stack: seq<Deferred>, c: Code,
                                    below: seq<Frame>, tr: seq<nat>)
    requires BodyReady(w, p, l, items, stack, c)
    ensures EndsAs(w, p, l, Conf(Control(|c.prog|, Handlers(l, stack), below), [], 0, tr),
                   RunBody(w, items, BodyRun(tr, Calls(stack), false)), below)
    decreases |items|
  {
    hide Reaches, Layout, Quiet, HandlerOf;
    var k := Conf(Control(|c.prog|, Handlers(l, stack), below), [], 0, tr);
    var (e, ds) := EmitItems(items, stack, c);
    ItemsExtend(items, stack, c);
    if items == [] {
      assert ds[..|ds|] == ds;
      BlocksRun(w, p, l, ds, |e.prog|, |ds|, below, tr);
    } else {
      match items[0]
      case Work(f) => WorkRuns(w, p, l, items, stack, c, below, tr, f);
      case Defer(f) => DeferRuns(w, p, l, items, stack, c, below, tr, f);
    }
  }

  lemma {:induction false} WorkRuns(w: World, p: seq<Op>, l: seq<int>, items: seq<Item>, stack: seq<Deferred>, c: Code,
                                    below: seq<Frame>, tr: seq<nat>, f: nat)
    requires BodyReady(w, p, l, items, stack, c) && items != [] && items[0] == Work(f)
    ensures EndsAs(w, p, l, Conf(Control(|c.prog|, Handlers(l, stack), below), [], 0, tr),
                   RunBody(w, items, BodyRun(tr, Calls(stack), false)), below)
    decreases |items|, 0
  {
    hide Reaches, Layout, Quiet, HandlerOf;
    var k := Conf(Control(|c.prog|, Handlers(l, stack), below), [], 0, tr);
    var c1 := Emit(c, [Perform(f)]);
    var (e, ds) := EmitItems(items, stack, c);
    ItemsExtend(items[1..], stack, c1);
    assert p[|c.prog|] == Perform(f);
    if !w(f, tr) {
      var j := Conf(Control(|c1.prog|, Handlers(l, stack), below), [], 0, tr + [f]);
      OneStep(w, p, l, k, j);
      BodyRuns(w, p, l, items[1..], stack, c1, below, tr + [f]);
      EndsAfter(w, p, l, k, j, RunBody(w, items, BodyRun(tr, Calls(stack), false)), below);
    } else {
      StoppedBody(w, items[1..], BodyRun(tr + [f], Calls(stack), true));
      if stack == [] {
        OneStep(w, p, l, k, Step(w, p, l, k));
        Escapes(w, p, l, k, |c.prog|, f, below);
      } else {
        assert stack == ds[..|stack|];
        CaughtRuns(w, p, l, ds, |e.prog|, |stack|, |c.prog|, f, below, tr);
      }
    }
  }

  lemma Escapes(w: World, p: seq<Op>, l: seq<int>, k: Conf, pc: nat, f: nat, below: seq<Frame>)
    requires pc < |p| && p[pc] == Perform(f) && w(f, k.trace) && k.stack == [] && k.flag == 0
    requires k.vm == Control(pc, [], below)
    ensures Step(w, p, l, k) == Thrown(Conf(Control(0, [], below), [], 0, k.trace + [f]), Control(0, [], below))
  {}

  lemma {:induction false} DeferRuns(w: World, p: seq<Op>, l: seq<int>, items: seq<Item>, stack: seq<Deferred>, c: Code,
                                     below: seq<Frame>, tr: seq<nat>, f: nat)
    requires BodyReady(w, p, l, items, stack, c) && items != [] && items[0] == Defer(f)
    ensures EndsAs(w, p, l, Conf(Control(|c.prog|, Handlers(l, stack), below), [], 0, tr),
                   RunBody(w, items, BodyRun(tr, Calls(stack), false)), below)
    decreases |items|, 0
  {
    hide Reaches, Layout, Quiet, HandlerOf, Step, Handlers;
    var k := Conf(Control(|c.prog|, Handlers(l, stack), below), [], 0, tr);
    var n := |c.l|;
    var d := Deferred(n, n + 1, f);
    var c1 := Emit(AddLabel(AddLabel(c)), [OpenTry(n, n + 1)]);
    var (e, ds) := EmitItems(items, stack, c);
    ItemsExtend(items[1..], stack + [d], c1);
    assert p[|c.prog|] == OpenTry(n, n + 1);
    assert Calls(stack + [d]) == Calls(stack) + [f];
    var r := RunBody(w, items, BodyRun(tr, Calls(stack), false));
    if |stack| == MAX_TRY_NESTING_DEPTH {
      PendingGrows(w, items[1..], BodyRun(tr, Calls(stack) + [f], false));
      TooDeep(w, p, l, k, |c.prog|, d, Handlers(l, stack), below);
      OneStep(w, p, l, k, Conf(Faulted(Rejected), [], 0, tr));
    } else {
      var j := Conf(Control(|c1.prog|, Handlers(l, stack + [d]), below), [], 0, tr);
      OpensHandler(w, p, l, k, d, stack, c, ds, |e.prog|, below);
      OneStep(w, p, l, k, j);
      BodyRuns(w, p, l, items[1..], stack + [d], c1, below, tr);
      EndsAfter(w, p, l, k, j, r, below);
    }
  }

  lemma TooDeep(w: World, p: seq<Op>, l: seq<int>, k: Conf, pc: nat, d: Deferred, hs: seq<Handler>, below: seq<Frame>)
    requires pc < |p| && p[pc] == OpenTry(d.catchLab, d.finallyLab) && |hs| >= MAX_TRY_NESTING_DEPTH &&
             k.vm == Control(pc, hs, below)
    ensures Step(w, p, l, k) == k.(vm := Faulted(Rejected))
  {}

  lemma OpensHandler(w: World, p: seq<Op>, l: seq<int>, k: Conf, d: Deferred, stack: seq<Deferred>, c: Code,
                     ds: seq<Deferred>, base: nat, below: seq<Frame>)
    requires Layout(p, l, ds, base) && stack + [d] <= ds && |c.prog| < base <= |p| && |stack| < MAX_TRY_NESTING_DEPTH
    requires p[|c.prog|] == OpenTry(d.catchLab, d.finallyLab) && k.vm == Control(|c.prog|, Handlers(l, stack), below)
    ensures Step(w, p, l, k) == k.(vm := Control(|c.prog| + 1, Handlers(l, stack + [d]), below))
  {
    hide Block;
    assert ds[|stack|] == d;
    assert BlockAt(p, l, d, base + 12 * (|ds| - 1 - |stack|));
    assert (stack + [d])[..|stack|] == stack;
  }

  /** The deferred calls of a body do not throw. */
  ghost predicate DefersQuiet(w: World, items: seq<Item>) {
    forall i, tr :: 0 <= i < |items| && items[i].Defer? ==> !w(items[i].call, tr)
  }

  lemma {:induction false} ItemsQuiet(w: World, items: seq<Item>, stack: seq<Deferred>, c: Code)
    requires DefersQuiet(w, items) && forall i, tr :: 0 <= i < |stack| ==> !w(stack[i].call, tr)
    ensures Quiet(w, EmitItems(items, stack, c).1)
    decreases |items|
  {
    if items != [] {
      assert forall i, tr :: 0 <= i < |items| - 1 && items[1..][i].Defer? ==> !w(items[1..][i].call, tr);
      match items[0]
      case Work(f) => ItemsQuiet(w, items[1..], stack, Emit(c, [Perform(f)]));
      case Defer(f) =>
        assert forall tr :: !w(items[0].call, tr);
        var n := |c.l|;
        ItemsQuiet(w, items[1..], stack + [Deferred(n, n + 1, f)], Emit(AddLabel(AddLabel(c)), [OpenTry(n, n + 1)]));
    }
  }

  /**
   * Deferred calls run exactly once, last first, after the calls of the body: both when the body returns and when it
   * throws. Only an exception before the first defer statement leaves the function, and only a seventeenth defer
   * statement faults.
   */
  lemma DefersRunOnce(w: World, items: seq<Item>, below: seq<Frame>)
    requires DefersQuiet(w, items)
    ensures var d := EmitFunction(items);
            EndsAs(w, d.prog, d.l, Conf(Control(0, [], below), [], 0, []), RunBody(w, items, BodyRun([], [], false)),
                   below)
  {
    hide Reaches, Layout, Quiet, EmitItems, RunBody, EmitFunction, EndsAs, DefersQuiet;
    FunctionLayout(items);
    ItemsQuiet(w, items, [], Code([], []));
    var d := EmitFunction(items);
    assert Calls([]) == [] && Handlers(d.l, []) == [];
    BodyRuns(w, d.prog, d.l, items, [], Code([], []), below, []);
  }
}
