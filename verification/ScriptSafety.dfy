/** Every run of an accepted script stays on its instruction boundaries, up to one exactly described exception. */
module ScriptSafety {
  import opened Bytes
  import opened Opcodes
  import opened Context
  import opened Machine
  import opened ScriptCheck

  // ----- what acceptance says about each instruction -----

  predicate Accepted(b: seq<Byte>) { CheckVerdict(b, AnyMethods) == Correct }

  lemma {:induction false} ScanFacts(b: seq<Byte>, ip: nat, x: nat)
    requires ScanFrom(b, ip).Scanned? && x in ScanFrom(b, ip).starts
    ensures var f := FetchAt(b, x);
            && f.Fetched? && (f.hi in ScanFrom(b, ip).starts || f.hi == |b|)
            && var c := CheckInstruction(|b|, x, f.op, b[f.lo..f.hi]);
               c.Scanned? && c.jumps <= ScanFrom(b, ip).jumps
    decreases |b| - ip
  {
    hide FetchAt, CheckInstruction;
    var f := FetchAt(b, ip);
    if x != ip { ScanFacts(b, f.hi, x); }
  }

  lemma {:induction false} RecordFacts(length: nat, targets: seq<int>, t: int)
    requires Record(length, targets).Scanned? && t in targets
    ensures 0 <= t <= length && t as nat in Record(length, targets).jumps
  {
    if t != targets[0] { RecordFacts(length, targets[1..], t); }
  }

  predicate OperationWithin(o: Operation, s: set<nat>) {
    match o
    case Misdirected => false
    case Jump(_, t) => t in s
    case CallTo(t) => t in s
    case PushPointer(t) => t in s
    case EndTry(t) => t in s
    case Try(c, f) => (c == -1 || (c >= 0 && c as nat in s)) && (f == -1 || (f >= 0 && f as nat in s))
    case _ => true
  }

  lemma OperationFacts(b: seq<Byte>, x: nat)
    requires Accepted(b) && x in Starts(b)
    ensures var f := FetchAt(b, x);
            && f.Fetched? && (f.hi in Starts(b) || f.hi == |b|)
            && OperationWithin(OperationOf(b, x, f.op, b[f.lo..f.hi]), Starts(b))
  {
    hide FetchAt, TypeParameterOk, OffsetOf;
    ScanFacts(b, 0, x);
    var f := FetchAt(b, x);
    var targets := TargetsOf(x, f.op, b[f.lo..f.hi]);
    forall t | t in targets ensures 0 <= t <= |b| && t as nat in Starts(b) { RecordFacts(|b|, targets, t); }
    if HasOffset(f.op) {
      assert targets[0] in targets;
    } else if f.op == TRY || f.op == TRYL {
      assert targets[0] in targets && targets[1] in targets;
    }
  }

  // ----- the invariant of a run -----

  predicate OnBoundary(b: seq<Byte>, x: int) { x >= 0 && (x as nat in Starts(b) || x == |b|) }

  predicate BlockStart(b: seq<Byte>, x: int) { x == -1 || (x >= 0 && x as nat in Starts(b)) }

  predicate GoodHandler(b: seq<Byte>, h: Handler) {
    && BlockStart(b, h.catchOffset) && BlockStart(b, h.finallyOffset) && BlockStart(b, h.endOffset)
    && (h.HasCatch() || h.HasFinally())
  }

  predicate GoodHandlers(b: seq<Byte>, hs: seq<Handler>) { forall i :: 0 <= i < |hs| ==> GoodHandler(b, hs[i]) }

  predicate GoodFrame(b: seq<Byte>, f: Frame) { OnBoundary(b, f.nextip) && GoodHandlers(b, f.handlers) }

  predicate GoodFrames(b: seq<Byte>, fs: seq<Frame>) { forall i :: 0 <= i < |fs| ==> GoodFrame(b, fs[i]) }

  /** Every instruction pointer, handler and code pointer of the state is a decoded boundary of the script. */
  predicate Good(b: seq<Byte>, st: State) {
    && st.Running? && st.frames != []
    && GoodFrames(b, st.frames)
    && forall i :: 0 <= i < |st.pointers| ==> st.pointers[i] in Starts(b)
  }

  /**
   * The next instruction is an ENDFINALLY of a block that was not entered through ENDTRY, with no exception pending.
   */
  predicate LeavesOpenHandler(b: seq<Byte>, cfg: Config, st: State)
    requires st.Running? && st.frames != []
  {
    var top := st.frames[0];
    && top.nextip >= 0 && FetchAt(b, top.nextip).Fetched? && FetchAt(b, top.nextip).op == ENDFINALLY
    && !st.uncaught && top.handlers != [] && top.handlers[0].endOffset == -1
    && WithinLimit(cfg, st.gas + Coefficient(ENDFINALLY) * cfg.base)
  }

  lemma {:induction false} DropFinishedKeeps(b: seq<Byte>, hs: seq<Handler>)
    requires GoodHandlers(b, hs)
    ensures GoodHandlers(b, DropFinished(hs))
    ensures DropFinished(hs) != [] ==> !DropFinished(hs)[0].Finished()
  {
    if hs != [] && hs[0].Finished() { DropFinishedKeeps(b, hs[1..]); }
  }

  lemma {:induction false} UnwindingStaysGood(b: seq<Byte>, fs: seq<Frame>)
    requires GoodFrames(b, fs)
    ensures HandleException(fs).Resumed? ==>
              HandleException(fs).frames != [] && GoodFrames(b, HandleException(fs).frames)
  {
    hide Starts;
    if fs != [] {
      assert GoodFrame(b, fs[0]);
      DropFinishedKeeps(b, fs[0].handlers);
      var left := DropFinished(fs[0].handlers);
      if left == [] {
        UnwindingStaysGood(b, fs[1..]);
      } else {
        assert GoodHandler(b, left[0]);
      }
    }
  }

  lemma RaiseStaysGood(b: seq<Byte>, st: State)
    requires Good(b, st)
    ensures Raise(st).Running? ==> Good(b, Raise(st))
    ensures !Raise(st).Running? ==> Raise(st) == Faulted(Rejected)
  {
    UnwindingStaysGood(b, st.frames);
  }

  /** One operation of an accepted script, taken from a good state. */
  lemma ApplyStaysGood(b: seq<Byte>, cfg: Config, o: Operation, st: State, ch: Choice)
    requires Good(b, st) && OperationWithin(o, Starts(b))
    ensures var st' := Apply(cfg, o, st, ch);
            var open := o.EndFinally? && !st.uncaught && st.frames[0].handlers != []
                        && st.frames[0].handlers[0].endOffset == -1;
            && (st'.Running? && !open ==> Good(b, st'))
            && (open ==> st'.Running? && st'.frames != [] && st'.frames[0].nextip == -1)
            && (!st'.Running? ==> st'.Halted? || st' == Faulted(Rejected) || st' == Faulted(OutOfGas))
  {
    hide Starts, HandleException;
    RaiseStaysGood(b, st);
    assert GoodFrame(b, st.frames[0]);
    var handlers := st.frames[0].handlers;
    assert handlers != [] ==> GoodHandler(b, handlers[0]);
  }

  /**
   * One step from a good state: never a decoding fault, never a wrong target, and good again unless an open handler is
   * left.
   */
  lemma StepStaysGood(b: seq<Byte>, cfg: Config, st: State, ch: Choice)
    requires Accepted(b) && Good(b, st)
    ensures var st' := Step(b, cfg, st, ch);
            && (st'.Running? ==> (Good(b, st') <==> !LeavesOpenHandler(b, cfg, st)))
            && (LeavesOpenHandler(b, cfg, st) ==> st'.Running? && st'.frames != [] && st'.frames[0].nextip == -1)
            && !st'.Crashed? && st' != Faulted(BadInstruction) && st' != Faulted(BadTarget)
  {
    hide Starts, FetchAt, OperationOf, HandleException, Apply;
    assert GoodFrame(b, st.frames[0]);
    var ip := st.frames[0].nextip;
    var f := FetchAt(b, ip);
    if ip == |b| {
      ApplyStaysGood(b, cfg, Return, st, ch);
    } else {
      OperationFacts(b, ip);
      var o := OperationOf(b, ip, f.op, b[f.lo..f.hi]);
      OperationKind(b, ip, f.op, b[f.lo..f.hi]);
      var gas := st.gas + Coefficient(f.op) * cfg.base;
      var moved := JumpTo(st.(gas := gas), f.hi);
      assert GoodFrames(b, moved.frames);
      ApplyStaysGood(b, cfg, o, moved, ch);
    }
  }

  lemma OperationKind(b: seq<Byte>, ip: nat, op: Byte, arg: seq<Byte>)
    ensures OperationOf(b, ip, op, arg).EndFinally? <==> op == ENDFINALLY
  {}

  // ----- whole runs -----

  /** Start of execution at a given offset with empty stacks. */
  function Entry(x: nat): State { Running([Frame(x, [])], false, [], 0) }

  /** Checked method entries are good places to start, and so is offset zero. */
  lemma EntriesAreGood(b: seq<Byte>, methods: Methods, x: nat)
    requires CheckVerdict(b, methods) == Correct
    requires x == 0 || (methods.Entries? && x in methods.field.bits)
    ensures Accepted(b) && Good(b, Entry(x))
  {}

  /** After these choices the machine is about to leave a handler that was never closed. */
  predicate OpenAfter(b: seq<Byte>, cfg: Config, st: State, choices: seq<Choice>)
    requires st.Running? ==> st.frames != []
  {
    var s := Run(b, cfg, st, choices);
    s.Running? && s.frames != [] && LeavesOpenHandler(b, cfg, s)
  }

  lemma RunUnfold(b: seq<Byte>, cfg: Config, st: State, choices: seq<Choice>, k: nat)
    requires st.Running? && st.frames != [] && 0 < k <= |choices|
    ensures var st' := Step(b, cfg, st, choices[0]);
            (st'.Running? ==> st'.frames != []) &&
                Run(b, cfg, st, choices[..k]) == Run(b, cfg, st', choices[1..][..k - 1])
  {
    hide Step;
    FramesRemain(b, cfg, st, choices[0]);
    assert choices[..k][1..] == choices[1..][..k - 1];
  }

  /** The boundary invariant holds throughout a run that leaves no open handler. */
  lemma {:induction false} RunStaysGood(b: seq<Byte>, cfg: Config, st: State, choices: seq<Choice>)
    requires Accepted(b) && Good(b, st)
    requires forall k :: 0 <= k < |choices| ==> !OpenAfter(b, cfg, st, choices[..k])
    ensures Run(b, cfg, st, choices).Running? ==> Good(b, Run(b, cfg, st, choices))
    decreases |choices|
  {
    hide Step, Good, LeavesOpenHandler, Accepted;
    GoodIsRunning(b, st);
    if choices != [] {
      StepStaysGood(b, cfg, st, choices[0]);
      var st' := Step(b, cfg, st, choices[0]);
      FramesRemain(b, cfg, st, choices[0]);
      assert !OpenAfter(b, cfg, st, choices[..0]);
      if st'.Running? {
        forall k | 0 <= k < |choices| - 1 ensures !OpenAfter(b, cfg, st', choices[1..][..k]) {
          RunUnfold(b, cfg, st, choices, k + 1);
          assert !OpenAfter(b, cfg, st, choices[..k + 1]);
        }
        RunStaysGood(b, cfg, st', choices[1..]);
      }
    }
  }

  lemma GoodIsRunning(b: seq<Byte>, st: State)
    requires Good(b, st)
    ensures st.Running? && st.frames != []
  {}

  /** A step that leaves an open handler is followed by a crash. */
  lemma OpenThenCrash(b: seq<Byte>, cfg: Config, st: State, choices: seq<Choice>)
    requires st.Running? && st.frames != [] && st.frames[0].nextip == -1 && choices != []
    ensures Run(b, cfg, st, choices) == Crashed
  {}

  /**
   * For every script the checker accepts and every run from a good state: decoding never fails, no jump is
   * misdirected, and the machine crashes exactly when two steps earlier it was about to leave an open handler.
   */
  lemma {:induction false} RunIsSafe(b: seq<Byte>, cfg: Config, st: State, choices: seq<Choice>)
    requires Accepted(b) && Good(b, st)
    ensures Run(b, cfg, st, choices) != Faulted(BadInstruction)
    ensures Run(b, cfg, st, choices) != Faulted(BadTarget)
    ensures Run(b, cfg, st, choices).Crashed? <==>
            exists k :: 0 <= k <= |choices| - 2 && OpenAfter(b, cfg, st, choices[..k])
    decreases |choices|
  {
    hide Step, Good, LeavesOpenHandler, Accepted;
    GoodIsRunning(b, st);
    if choices != [] {
      StepStaysGood(b, cfg, st, choices[0]);
      var st' := Step(b, cfg, st, choices[0]);
      FramesRemain(b, cfg, st, choices[0]);
      assert Run(b, cfg, st, choices) == Run(b, cfg, st', choices[1..]);
      assert OpenAfter(b, cfg, st, choices[..0]) <==> LeavesOpenHandler(b, cfg, st);
      if LeavesOpenHandler(b, cfg, st) {
        if |choices| >= 2 { OpenThenCrash(b, cfg, st', choices[1..]); }
      } else {
        forall k | 0 < k <= |choices|
          ensures OpenAfter(b, cfg, st, choices[..k]) <==> OpenAfter(b, cfg, st', choices[1..][..k - 1])
        {
          RunUnfold(b, cfg, st, choices, k);
        }
        if st'.Running? {
          RunIsSafe(b, cfg, st', choices[1..]);
          if exists k :: 0 <= k <= |choices[1..]| - 2 && OpenAfter(b, cfg, st', choices[1..][..k]) {
            var k :| 0 <= k <= |choices[1..]| - 2 && OpenAfter(b, cfg, st', choices[1..][..k]);
            assert OpenAfter(b, cfg, st, choices[..k + 1]);
          }
        }
      }
    }
  }

  // ----- a well-nested script that crashes -----

  /**
   * TRY with a FINALLY block whose body throws; the FINALLY block contains a TRY that throws and a CATCH that
   * handles it. The inner catch forgets the outer exception, so ENDFINALLY jumps to an end that was never set.
   */
  const NESTED: seq<Byte> := [
    TRY, 0x00, 0x05,   //  0: finally at 5
    PUSH1,             //  3
    THROW,             //  4
    TRY, 0x05, 0x00,   //  5: catch at 10
    PUSH1,             //  8
    THROW,             //  9
    ENDTRY, 0x02,      // 10: continue at 12
    ENDFINALLY,        // 12
    RET]               // 13

  lemma NestedFetches()
    ensures FetchAt(NESTED, 0) == Fetched(TRY, 1, 3) && NESTED[1..3] == [0x00, 0x05]
    ensures FetchAt(NESTED, 3) == Fetched(PUSH1, 4, 4)
    ensures FetchAt(NESTED, 4) == Fetched(THROW, 5, 5)
    ensures FetchAt(NESTED, 5) == Fetched(TRY, 6, 8) && NESTED[6..8] == [0x05, 0x00]
    ensures FetchAt(NESTED, 8) == Fetched(PUSH1, 9, 9)
    ensures FetchAt(NESTED, 9) == Fetched(THROW, 10, 10)
    ensures FetchAt(NESTED, 10) == Fetched(ENDTRY, 11, 12) && NESTED[11..12] == [0x02]
    ensures FetchAt(NESTED, 12) == Fetched(ENDFINALLY, 13, 13)
    ensures FetchAt(NESTED, 13) == Fetched(RET, 14, 14)
  {
    hide FetchAt;
    NestedTries();
    NestedThrows();
    NestedEnds();
  }

  lemma NestedTries()
    ensures FetchAt(NESTED, 0) == Fetched(TRY, 1, 3) && NESTED[1..3] == [0x00, 0x05]
    ensures FetchAt(NESTED, 5) == Fetched(TRY, 6, 8) && NESTED[6..8] == [0x05, 0x00]
  {}

  lemma NestedThrows()
    ensures FetchAt(NESTED, 3) == Fetched(PUSH1, 4, 4) && FetchAt(NESTED, 4) == Fetched(THROW, 5, 5)
    ensures FetchAt(NESTED, 8) == Fetched(PUSH1, 9, 9) && FetchAt(NESTED, 9) == Fetched(THROW, 10, 10)
  {}

  lemma NestedEnds()
    ensures FetchAt(NESTED, 10) == Fetched(ENDTRY, 11, 12) && NESTED[11..12] == [0x02]
    ensures FetchAt(NESTED, 12) == Fetched(ENDFINALLY, 13, 13)
    ensures FetchAt(NESTED, 13) == Fetched(RET, 14, 14)
  {}

  /** An instruction with no parameter or only in-range targets extends the scan. */
  lemma ScanBack(b: seq<Byte>, ip: nat, s: set<nat>, j: set<nat>)
    requires var f := FetchAt(b, ip);
             && f.Fetched? && !HasTypeParameter(f.op) && ScanFrom(b, f.hi) == Scanned(s, j)
             && Record(|b|, TargetsOf(ip, f.op, b[f.lo..f.hi])).Scanned?
    ensures var f := FetchAt(b, ip);
            var extra := Record(|b|, TargetsOf(ip, f.op, b[f.lo..f.hi])).jumps;
            ScanFrom(b, ip) == Scanned({ip} + s, if extra == {} then j else extra + j)
  {
    hide FetchAt;
  }

  lemma NestedIsAccepted()
    ensures Accepted(NESTED)
  {
    hide FetchAt, ScanFrom, Record;
    NestedHead();
  }

  lemma NestedHead()
    ensures ScanFrom(NESTED, 0) ==
            Scanned({0} + ({3} + ({4} + ({5} + ({8} + ({9} + ({10} + ({12} + ({13} + {})))))))),
                    {0, 5} + ({10, 5} + ({12} + {})))
  {
    hide FetchAt, ScanFrom, Record;
    var b := NESTED;
    NestedFetches();
    RecordNothing(14);
    NestedMiddle();
    var j: set<nat> := {10, 5} + ({12} + {});
    var s: set<nat> := {5} + ({8} + ({9} + ({10} + ({12} + ({13} + {})))));
    ScanBack(b, 4, s, j);
    ScanBack(b, 3, {4} + s, j);
    TryTargets(0, 0x00, 0x05);
    RecordTwo(14, 0, 5);
    ScanBack(b, 0, {3} + ({4} + s), j);
  }

  lemma NestedMiddle()
    ensures ScanFrom(NESTED, 5) ==
            Scanned({5} + ({8} + ({9} + ({10} + ({12} + ({13} + {}))))), {10, 5} + ({12} + {}))
  {
    hide FetchAt, ScanFrom, Record;
    var b := NESTED;
    NestedFetches();
    RecordNothing(14);
    NestedTail();
    var j: set<nat> := {12} + {};
    var s: set<nat> := {9} + ({10} + ({12} + ({13} + {})));
    ScanBack(b, 8, s, j);
    TryTargets(5, 0x05, 0x00);
    RecordTwo(14, 10, 5);
    ScanBack(b, 5, {8} + s, j);
  }

  lemma NestedTail()
    ensures ScanFrom(NESTED, 9) == Scanned({9} + ({10} + ({12} + ({13} + {}))), {12} + {})
  {
    hide FetchAt, ScanFrom, Record;
    var b := NESTED;
    NestedFetches();
    RecordNothing(14);
    ScanAtEnd(b, 14);
    ScanBack(b, 13, {}, {});
    ScanBack(b, 12, {13} + {}, {});
    assert TargetsOf(10, ENDTRY, [0x02]) == [12];
    RecordOne(14, 12);
    ScanBack(b, 10, {12} + ({13} + {}), {});
    ScanBack(b, 9, {10} + ({12} + ({13} + {})), {12} + {});
  }

  lemma TryTargets(ip: nat, c: Byte, f: Byte)
    requires c < 0x80 && f < 0x80
    ensures TargetsOf(ip, TRY, [c, f]) == [ip + c, ip + f]
  {}

  lemma RecordNothing(length: nat)
    ensures Record(length, []) == Scanned({}, {})
  {}

  /** Every data-dependent outcome is the ordinary one. */
  const USUAL := Choice(true, false, false, 0, 0)

  function Usual(n: nat): seq<Choice> { seq(n, _ => USUAL) }

  function Single(ip: int, handlers: seq<Handler>, uncaught: bool, gas: int): State {
    Running([Frame(ip, handlers)], uncaught, [], gas)
  }

  predicate Fetches(b: seq<Byte>, ip: int, op: Byte, arg: seq<Byte>, hi: nat) {
    && ip >= 0 && FetchAt(b, ip).Fetched?
    && var f := FetchAt(b, ip); f.op == op && b[f.lo..f.hi] == arg && f.hi == hi
  }

  /** One step with a single frame and no gas limit, given the instruction that is fetched. */
  lemma StepBy(b: seq<Byte>, cfg: Config, ip: int, hs: seq<Handler>, uncaught: bool, gas: int, op: Byte, arg: seq<Byte>,
               hi: nat)
    requires Fetches(b, ip, op, arg, hi) && cfg.limit < 0
    ensures Step(b, cfg, Single(ip, hs, uncaught, gas), USUAL) ==
            Apply(cfg, OperationOf(b, ip, op, arg), Single(hi, hs, uncaught, gas + Coefficient(op) * cfg.base), USUAL)
  {
    hide FetchAt, OperationOf, Coefficient, Apply;
    var st := Single(ip, hs, uncaught, gas + Coefficient(op) * cfg.base);
    assert JumpTo(st, hi).frames == [Frame(hi, hs)];
  }

  lemma TryStep(b: seq<Byte>, cfg: Config, ip: nat, hs: seq<Handler>, uncaught: bool, gas: int, c: Byte, f: Byte)
    requires Fetches(b, ip, TRY, [c, f], ip + 3) && cfg.limit < 0 && |hs| < MAX_TRY_NESTING_DEPTH
    requires c < 0x80 && f < 0x80 && ip + c <= |b| && ip + f <= |b| && (c != 0 || f != 0)
    ensures Step(b, cfg, Single(ip, hs, uncaught, gas), USUAL) ==
            Single(ip + 3, [Handler(if c == 0 then -1 else ip + c, if f == 0 then -1 else ip + f, -1, InTry)] + hs,
                   uncaught, gas + 4 * cfg.base)
  {
    hide FetchAt, Fetches, Step;
    StepBy(b, cfg, ip, hs, uncaught, gas, TRY, [c, f], ip + 3);
    assert [c, f][..1] == [c] && [c, f][1..] == [f];
  }

  lemma PushStep(b: seq<Byte>, cfg: Config, ip: nat, hs: seq<Handler>, uncaught: bool, gas: int)
    requires Fetches(b, ip, PUSH1, [], ip + 1) && cfg.limit < 0
    ensures Step(b, cfg, Single(ip, hs, uncaught, gas), USUAL) == Single(ip + 1, hs, uncaught, gas + cfg.base)
  {
    hide FetchAt, Fetches, Step;
    StepBy(b, cfg, ip, hs, uncaught, gas, PUSH1, [], ip + 1);
  }

  lemma ThrowStep(b: seq<Byte>, cfg: Config, ip: nat, h: Handler, rest: seq<Handler>, uncaught: bool, gas: int)
    requires Fetches(b, ip, THROW, [], ip + 1) && cfg.limit < 0 && !h.Finished()
    ensures Step(b, cfg, Single(ip, [h] + rest, uncaught, gas), USUAL) ==
            if h.phase == InTry && h.HasCatch()
            then Single(h.catchOffset, [h.(phase := InCatch)] + rest, false, gas + 512 * cfg.base)
            else Single(h.finallyOffset, [h.(phase := InFinally)] + rest, true, gas + 512 * cfg.base)
  {
    hide FetchAt, Fetches, Step;
    StepBy(b, cfg, ip, [h] + rest, uncaught, gas, THROW, [], ip + 1);
    assert ([h] + rest)[1..] == rest;
    assert [Frame(ip + 1, [h] + rest)][1..] == [];
  }

  /** ENDTRY of a block without FINALLY. */
  lemma EndTryStep(b: seq<Byte>, cfg: Config, ip: nat, h: Handler, rest: seq<Handler>, uncaught: bool, gas: int,
                   r: Byte)
    requires Fetches(b, ip, ENDTRY, [r], ip + 2) && cfg.limit < 0 && r < 0x80 && ip + r <= |b|
    requires h.phase != InFinally && !h.HasFinally()
    ensures Step(b, cfg, Single(ip, [h] + rest, uncaught, gas), USUAL) ==
            Single(ip + r, rest, uncaught, gas + 4 * cfg.base)
  {
    hide FetchAt, Fetches, Step;
    StepBy(b, cfg, ip, [h] + rest, uncaught, gas, ENDTRY, [r], ip + 2);
    assert ([h] + rest)[1..] == rest;
  }

  /** ENDFINALLY when no exception is pending. */
  lemma EndFinallyStep(b: seq<Byte>, cfg: Config, ip: nat, h: Handler, rest: seq<Handler>, gas: int)
    requires Fetches(b, ip, ENDFINALLY, [], ip + 1) && cfg.limit < 0
    ensures Step(b, cfg, Single(ip, [h] + rest, false, gas), USUAL) ==
            Single(h.endOffset, rest, false, gas + 4 * cfg.base)
  {
    hide FetchAt, Fetches, Step;
    StepBy(b, cfg, ip, [h] + rest, false, gas, ENDFINALLY, [], ip + 1);
    assert ([h] + rest)[1..] == rest;
  }

  lemma NowhereStep(b: seq<Byte>, cfg: Config, gas: int)
    ensures Step(b, cfg, Single(-1, [], false, gas), USUAL) == Crashed
  {}

  lemma NestedInstructions()
    ensures Fetches(NESTED, 0, TRY, [0x00, 0x05], 3) && Fetches(NESTED, 3, PUSH1, [], 4)
    ensures Fetches(NESTED, 4, THROW, [], 5) && Fetches(NESTED, 5, TRY, [0x05, 0x00], 8)
    ensures Fetches(NESTED, 8, PUSH1, [], 9) && Fetches(NESTED, 9, THROW, [], 10)
    ensures Fetches(NESTED, 10, ENDTRY, [0x02], 12) && Fetches(NESTED, 12, ENDFINALLY, [], 13)
  {
    NestedFetches();
    hide FetchAt;
  }

  /** An accepted script whose run ends in a crash. */
  lemma {:induction false} NestedCrashes()
    ensures Accepted(NESTED) && Run(NESTED, Config(1, -1), Entry(0), Usual(9)) == Crashed
  {
    hide Run, Step, Accepted, Fetches;
    NestedIsAccepted();
    NestedInstructions();
    var b, cfg := NESTED, Config(1, -1);
    var outer, inner := Handler(-1, 5, -1, InTry), Handler(10, -1, -1, InTry);
    var thrown, caught := outer.(phase := InFinally), inner.(phase := InCatch);
    TryStep(b, cfg, 0, [], false, 0, 0x00, 0x05);
    PushStep(b, cfg, 3, [outer] + [], false, 4);
    ThrowStep(b, cfg, 4, outer, [], false, 5);
    TryStep(b, cfg, 5, [thrown] + [], true, 517, 0x05, 0x00);
    PushStep(b, cfg, 8, [inner] + ([thrown] + []), true, 521);
    ThrowStep(b, cfg, 9, inner, [thrown] + [], true, 522);
    EndTryStep(b, cfg, 10, caught, [thrown] + [], false, 1034, 0x02);
    EndFinallyStep(b, cfg, 12, thrown, [], 1038);
    NowhereStep(b, cfg, 1042);
    RunSteps(b, cfg, [
      Entry(0), Single(3, [outer] + [], false, 4), Single(4, [outer] + [], false, 5),
      Single(5, [thrown] + [], true, 517), Single(8, [inner] + ([thrown] + []), true, 521),
      Single(9, [inner] + ([thrown] + []), true, 522), Single(10, [caught] + ([thrown] + []), false, 1034),
      Single(12, [thrown] + [], false, 1038), Single(-1, [], false, 1042), Crashed]);
  }

  /** A list of states linked by steps is a run. */
  lemma {:induction false} RunSteps(b: seq<Byte>, cfg: Config, states: seq<State>)
    requires states != []
    requires forall i :: 0 <= i < |states| - 1 ==> states[i].Running? && states[i].frames != []
    requires forall i :: 0 <= i < |states| - 1 ==> Step(b, cfg, states[i], USUAL) == states[i + 1]
    requires !states[|states| - 1].Running?
    ensures Run(b, cfg, states[0], Usual(|states| - 1)) == states[|states| - 1]
  {
    hide Step;
    if |states| > 1 {
      assert Step(b, cfg, states[0], USUAL) == states[1];
      RunSteps(b, cfg, states[1..]);
      assert Usual(|states| - 1)[1..] == Usual(|states| - 2);
    }
  }

  lemma RecordOne(length: nat, t: nat)
    requires t < length
    ensures Record(length, [t]) == Scanned({}, {t})
  {}

  lemma RecordTwo(length: nat, t: nat, u: nat)
    requires t < length && u < length
    ensures Record(length, [t, u]) == Scanned({}, {t, u})
  {
    RecordOne(length, u);
    assert [t as int, u][1..] == [u];
  }
}
