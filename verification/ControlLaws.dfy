/**
 * What every control instruction of the machine does, said of script bytes and frames: where jumps lead, what calls
 * keep for their return, which handler takes an exception (pkg/vm/vm.go).
 */
module ControlLaws {
  import opened Bytes
  import opened Opcodes
  import opened Context
  import opened Machine

  /** The next instruction has this opcode and parameter, ends before next and can be paid for. */
  predicate Executes(script: seq<Byte>, cfg: Config, st: State, op: Byte, arg: seq<Byte>, next: nat) {
    && st.Running? && st.frames != [] && st.frames[0].nextip >= 0
    && var f := FetchAt(script, st.frames[0].nextip);
    && f.Fetched? && f.op == op && script[f.lo..f.hi] == arg && f.hi == next
    && WithinLimit(cfg, st.gas + Coefficient(op) * cfg.base)
  }

  /** After the instruction is paid for, with these frames. */
  function Continued(cfg: Config, st: State, op: Byte, frames: seq<Frame>): (r: State)
    requires st.Running?
    ensures r.Running?
  {
    st.(frames := frames, gas := st.gas + Coefficient(op) * cfg.base)
  }

  // ----- straight on -----

  predicate IsControl(op: Byte) {
    HasOffset(op) || op in {TRY, TRYL, CALLA, RET, THROW, ABORT, ENDFINALLY, SYSCALL}
  }

  /** An instruction that only works on data goes on to the next one, unless it fails or throws. */
  lemma DataLaw(script: seq<Byte>, cfg: Config, st: State, ch: Choice, op: Byte, arg: seq<Byte>, next: nat)
    requires Executes(script, cfg, st, op, arg, next) && !IsControl(op) && !ch.fails && !ch.throws
    requires !(op == INITSLOT && arg == [0, 0])
    ensures Step(script, cfg, st, ch) ==
            Continued(cfg, st, op, [Frame(next, st.frames[0].handlers)] + st.frames[1..])
  {
    hide Coefficient, FetchAt, OffsetOf;
  }

  /** So does a system call, at the price of its fee. */
  lemma SyscallLaw(script: seq<Byte>, cfg: Config, st: State, ch: Choice, arg: seq<Byte>, next: nat)
    requires Executes(script, cfg, st, SYSCALL, arg, next) && !ch.fails && !ch.throws
    requires WithinLimit(cfg, st.gas + ch.fee)
    ensures Step(script, cfg, st, ch) ==
            st.(frames := [Frame(next, st.frames[0].handlers)] + st.frames[1..], gas := st.gas + ch.fee)
  {
    hide FetchAt;
    assert Coefficient(SYSCALL) == 0;
  }

  // ----- jumps -----

  /** JMP and JMPL always lead to their target. */
  lemma JumpLaw(script: seq<Byte>, cfg: Config, st: State, ch: Choice, op: Byte, arg: seq<Byte>, next: nat)
    requires Executes(script, cfg, st, op, arg, next) && op in {JMP, JMPL}
    requires 0 <= st.frames[0].nextip + OffsetOf(arg) <= |script|
    ensures var top := st.frames[0];
            Step(script, cfg, st, ch) ==
            Continued(cfg, st, op, [Frame(top.nextip + OffsetOf(arg), top.handlers)] + st.frames[1..])
  {
    hide Coefficient, FetchAt, OffsetOf;
  }

  predicate IsConditional(op: Byte) {
    || op in {JMPIF, JMPIFNOT, JMPEQ, JMPNE, JMPGT, JMPGE, JMPLT, JMPLE}
    || op in {JMPIFL, JMPIFNOTL, JMPEQL, JMPNEL, JMPGTL, JMPGEL, JMPLTL, JMPLEL}
  }

  /** The others lead there exactly when their condition holds, and on to the next instruction otherwise. */
  lemma ConditionalJumpLaw(script: seq<Byte>, cfg: Config, st: State, ch: Choice, op: Byte, arg: seq<Byte>, next: nat)
    requires Executes(script, cfg, st, op, arg, next) && IsConditional(op) && !ch.fails
    requires 0 <= st.frames[0].nextip + OffsetOf(arg) <= |script|
    ensures var top := st.frames[0];
            Step(script, cfg, st, ch) ==
            Continued(cfg, st, op, [Frame(if ch.holds then top.nextip + OffsetOf(arg) else next, top.handlers)]
                                   + st.frames[1..])
  {
    hide Coefficient, FetchAt, OffsetOf;
  }

  /** Nothing with an offset leads out of the script. */
  lemma TargetLaw(script: seq<Byte>, cfg: Config, st: State, ch: Choice, op: Byte, arg: seq<Byte>, next: nat)
    requires Executes(script, cfg, st, op, arg, next) && HasOffset(op)
    requires !(0 <= st.frames[0].nextip + OffsetOf(arg) <= |script|)
    ensures Step(script, cfg, st, ch) == Faulted(BadTarget)
  {
    hide Coefficient, FetchAt, OffsetOf;
  }

  // ----- calls -----

  /** CALL and CALLL put one frame at the target on top, without handlers; the caller goes on after the call. */
  lemma CallLaw(script: seq<Byte>, cfg: Config, st: State, ch: Choice, op: Byte, arg: seq<Byte>, next: nat)
    requires Executes(script, cfg, st, op, arg, next) && op in {CALL, CALLL}
    requires 0 <= st.frames[0].nextip + OffsetOf(arg) <= |script|
    ensures var top := st.frames[0];
            Step(script, cfg, st, ch) ==
            if |st.frames| >= 1024 then Faulted(Rejected)
            else Continued(cfg, st, op, [Frame(top.nextip + OffsetOf(arg), []), Frame(next, top.handlers)]
                                        + st.frames[1..])
  {
    hide Coefficient, FetchAt, OffsetOf;
    var top := st.frames[0];
    assert [Frame(top.nextip + OffsetOf(arg), [])] + ([Frame(next, top.handlers)] + st.frames[1..]) ==
           [Frame(top.nextip + OffsetOf(arg), []), Frame(next, top.handlers)] + st.frames[1..];
  }

  /** CALLA does the same for the position of a pointer that PUSHA has made. */
  lemma CallPointerLaw(script: seq<Byte>, cfg: Config, st: State, ch: Choice, arg: seq<Byte>, next: nat)
    requires Executes(script, cfg, st, CALLA, arg, next) && !ch.fails && ch.pointer < |st.pointers|
    ensures var top := st.frames[0];
            Step(script, cfg, st, ch) ==
            if |st.frames| >= 1024 then Faulted(Rejected)
            else Continued(cfg, st, CALLA, [Frame(st.pointers[ch.pointer], []), Frame(next, top.handlers)]
                                           + st.frames[1..])
  {
    hide Coefficient, FetchAt;
    var top := st.frames[0];
    assert [Frame(st.pointers[ch.pointer], [])] + ([Frame(next, top.handlers)] + st.frames[1..]) ==
           [Frame(st.pointers[ch.pointer], []), Frame(next, top.handlers)] + st.frames[1..];
  }

  lemma PushPointerLaw(script: seq<Byte>, cfg: Config, st: State, ch: Choice, arg: seq<Byte>, next: nat)
    requires Executes(script, cfg, st, PUSHA, arg, next) && !ch.fails
    requires 0 <= st.frames[0].nextip + OffsetOf(arg) <= |script|
    ensures var top := st.frames[0];
            Step(script, cfg, st, ch) ==
            Continued(cfg, st, PUSHA, [Frame(next, top.handlers)] + st.frames[1..])
            .(pointers := st.pointers + [top.nextip + OffsetOf(arg)])
  {
    hide Coefficient, FetchAt, OffsetOf;
  }

  /** The next instruction is RET, or there is none, which means the same. */
  predicate Returns(script: seq<Byte>, cfg: Config, st: State) {
    && st.Running? && st.frames != [] && st.frames[0].nextip >= 0
    && var f := FetchAt(script, st.frames[0].nextip);
       f.AtEnd? || (f.Fetched? && f.op == RET && WithinLimit(cfg, st.gas))
  }

  /** A return uncovers the frame below, or halts the machine. */
  lemma ReturnLaw(script: seq<Byte>, cfg: Config, st: State, ch: Choice)
    requires Returns(script, cfg, st) && !ch.fails
    ensures Step(script, cfg, st, ch) == if |st.frames| == 1 then Halted(st.gas) else st.(frames := st.frames[1..])
  {
    hide FetchAt;
    assert Coefficient(RET) == 0;
  }

  /** The n frames at the bottom. */
  function Bottom(fs: seq<Frame>, n: nat): seq<Frame>
    requires n <= |fs|
  {
    fs[|fs| - n..]
  }

  lemma {:induction false} UnwindingKeeps(fs: seq<Frame>, n: nat)
    requires HandleException(fs).Resumed? && n < |HandleException(fs).frames|
    ensures |HandleException(fs).frames| <= |fs| && Bottom(HandleException(fs).frames, n) == Bottom(fs, n)
  {
    var left := DropFinished(fs[0].handlers);
    if left == [] { UnwindingKeeps(fs[1..], n); }
  }

  /** Below the top, frames of t that are still there are those of st. */
  predicate KeepsBottom(st: State, t: State, n: nat)
    requires st.Running? && n < |st.frames|
  {
    t.Running? && n < |t.frames| ==> Bottom(t.frames, n) == Bottom(st.frames, n)
  }

  lemma RaiseKeeps(st: State, n: nat)
    requires st.Running? && n < |st.frames|
    ensures KeepsBottom(st, Raise(st), n)
  {
    hide HandleException;
    var u := HandleException(st.frames);
    if u.Resumed? && n < |u.frames| { UnwindingKeeps(st.frames, n); }
  }

  lemma TopKeeps(st: State, top: Frame, n: nat)
    requires st.Running? && n < |st.frames|
    ensures KeepsBottom(st, st.(frames := [top] + st.frames[1..]), n)
    ensures KeepsBottom(st, st.(frames := [top] + st.frames), n)
    ensures KeepsBottom(st, st.(frames := st.frames[1..]), n)
  {}

  /** No operation touches a frame that stays below the current one. */
  lemma OperationKeeps(cfg: Config, o: Operation, st: State, ch: Choice, n: nat)
    requires st.Running? && n < |st.frames|
    ensures KeepsBottom(st, Apply(cfg, o, st, ch), n)
  {
    hide Raise, Bottom;
    RaiseKeeps(st, n);
    RaiseKeeps(st.(gas := st.gas + ch.fee), n);
    var hs := st.frames[0].handlers;
    match o
    case Jump(_, target) => TopKeeps(st, st.frames[0].(nextip := target), n);
    case CallTo(target) => TopKeeps(st, Frame(target, []), n);
    case CallPointer => if ch.pointer < |st.pointers| { TopKeeps(st, Frame(st.pointers[ch.pointer], []), n); }
    case Return => TopKeeps(st, st.frames[0], n);
    case Try(c, f) => TopKeeps(st, st.frames[0].(handlers := [Handler(c, f, -1, InTry)] + hs), n);
    case EndTry(target) =>
      if hs != [] {
        TopKeeps(st, Frame(hs[0].finallyOffset, [hs[0].(phase := InFinally, endOffset := target)] + hs[1..]), n);
        TopKeeps(st, Frame(target, hs[1..]), n);
      }
    case EndFinally => if hs != [] { TopKeeps(st, Frame(hs[0].endOffset, hs[1..]), n); }
    case _ =>
  }

  lemma StepKeeps(script: seq<Byte>, cfg: Config, st: State, ch: Choice, n: nat)
    requires st.Running? && n < |st.frames|
    ensures KeepsBottom(st, Step(script, cfg, st, ch), n)
  {
    hide FetchAt, OperationOf, Apply, Coefficient;
    var ip := st.frames[0].nextip;
    if ip >= 0 {
      var f := FetchAt(script, ip);
      if f.Fetched? {
        OperationKeeps(cfg, OperationOf(script, ip, f.op, script[f.lo..f.hi]),
                       JumpTo(st.(gas := st.gas + Coefficient(f.op) * cfg.base), f.hi), ch, n);
      } else if f.AtEnd? {
        OperationKeeps(cfg, Return, st, ch, n);
      }
    }
  }

  /** The run keeps more than n frames in all its states, the last included. */
  predicate StaysAbove(script: seq<Byte>, cfg: Config, st: State, choices: seq<Choice>, n: nat)
    decreases |choices|
  {
    && st.Running? && n < |st.frames|
    && (choices != [] ==> StaysAbove(script, cfg, Step(script, cfg, st, choices[0]), choices[1..], n))
  }

  lemma {:induction false} RunKeeps(script: seq<Byte>, cfg: Config, st: State, choices: seq<Choice>, n: nat)
    requires StaysAbove(script, cfg, st, choices, n)
    ensures var t := Run(script, cfg, st, choices);
            t.Running? && n < |t.frames| && Bottom(t.frames, n) == Bottom(st.frames, n)
    decreases |choices|
  {
    hide Step;
    if choices != [] {
      StepKeeps(script, cfg, st, choices[0], n);
      RunKeeps(script, cfg, Step(script, cfg, st, choices[0]), choices[1..], n);
    }
  }

  /** A call that does not stop the machine has put one frame on top of the caller's, which goes on after the call. */
  lemma CallKeepsCaller(script: seq<Byte>, cfg: Config, st: State, ch: Choice, op: Byte, arg: seq<Byte>, next: nat)
    requires Executes(script, cfg, st, op, arg, next) && op in {CALL, CALLL, CALLA}
    requires Step(script, cfg, st, ch).Running?
    ensures var t := Step(script, cfg, st, ch);
            |t.frames| == |st.frames| + 1 && t.frames[1..] == [Frame(next, st.frames[0].handlers)] + st.frames[1..]
  {
    hide Coefficient, FetchAt, OffsetOf;
  }

  /**
   * Whatever a called function does until it returns, exceptions of its own included, the caller goes on at the byte
   * after the call, with the handlers it had.
   */
  lemma CallReturns(script: seq<Byte>, cfg: Config, st: State, ch: Choice, op: Byte, arg: seq<Byte>, next: nat,
                    choices: seq<Choice>, last: Choice)
    requires Executes(script, cfg, st, op, arg, next) && op in {CALL, CALLL, CALLA}
    requires StaysAbove(script, cfg, Step(script, cfg, st, ch), choices, |st.frames|)
    requires var t := Run(script, cfg, Step(script, cfg, st, ch), choices);
             Returns(script, cfg, t) && |t.frames| == |st.frames| + 1 && !last.fails
    ensures var t := Run(script, cfg, Step(script, cfg, st, ch), choices);
            var end := Step(script, cfg, t, last);
            end.Running? && end.frames == [Frame(next, st.frames[0].handlers)] + st.frames[1..]
  {
    hide Step, Run, FetchAt;
    var n := |st.frames|;
    var called := Step(script, cfg, st, ch);
    var t := Run(script, cfg, called, choices);
    CallKeepsCaller(script, cfg, st, ch, op, arg, next);
    RunKeeps(script, cfg, called, choices, n);
    ReturnLaw(script, cfg, t, last);
    assert t.frames[1..] == Bottom(t.frames, n) && called.frames[1..] == Bottom(called.frames, n);
  }

  // ----- exceptions -----

  /** Handlers that an exception passes over. */
  predicate AllFinished(hs: seq<Handler>) {
    forall i :: 0 <= i < |hs| ==> hs[i].phase == InFinally || (hs[i].phase == InCatch && hs[i].finallyOffset < 0)
  }

  lemma {:induction false} FinishedDropped(hs: seq<Handler>, h: Handler, rest: seq<Handler>)
    requires AllFinished(hs) && !AllFinished([h])
    ensures DropFinished(hs + [h] + rest) == [h] + rest
  {
    if hs == [] {
      assert hs + [h] + rest == [h] + rest;
      assert [h][0] == h;
    } else {
      assert (hs + [h] + rest)[1..] == hs[1..] + [h] + rest;
      FinishedDropped(hs[1..], h, rest);
    }
  }

  lemma {:induction false} AllDropped(hs: seq<Handler>)
    requires AllFinished(hs)
    ensures DropFinished(hs) == []
  {
    if hs != [] { AllDropped(hs[1..]); }
  }

  /** Where an exception leads when the frames above have nothing left to take it and h is the first that can. */
  lemma {:induction false} UnwindingFinds(above: seq<Frame>, f: Frame, done: seq<Handler>, h: Handler,
                                          rest: seq<Handler>, below: seq<Frame>)
    requires forall i :: 0 <= i < |above| ==> AllFinished(above[i].handlers)
    requires f.handlers == done + [h] + rest && AllFinished(done) && !AllFinished([h])
    ensures HandleException(above + [f] + below) ==
            if h.phase == InTry && h.catchOffset >= 0
            then Resumed([Frame(h.catchOffset, [h.(phase := InCatch)] + rest)] + below, true)
            else Resumed([Frame(h.finallyOffset, [h.(phase := InFinally)] + rest)] + below, false)
    decreases |above|
  {
    if above == [] {
      assert above + [f] + below == [f] + below;
      FinishedDropped(done, h, rest);
      assert ([h] + rest)[1..] == rest;
    } else {
      AllDropped(above[0].handlers);
      assert (above + [f] + below)[1..] == above[1..] + [f] + below;
      UnwindingFinds(above[1..], f, done, h, rest, below);
    }
  }

  /**
   * Instructions that raise an exception: THROW, access to an item, a call, and the end of a finally block on its way.
   */
  predicate Raises(op: Byte, st: State, ch: Choice) {
    && st.Running?
    && (op == ENDFINALLY ==> st.uncaught)
    && (op != ENDFINALLY ==> !ch.fails && op in {THROW, PICKITEM, SETITEM, SYSCALL})
    && (op in {PICKITEM, SETITEM, SYSCALL} ==> ch.throws)
    && (op == SYSCALL ==> ch.fee > 0)
  }

  /**
   * An exception goes to the nearest handler that is not finished, whatever frames and finished handlers lie above it:
   * those are gone, everything below is as it was. It is caught if the handler is in its try part and has a catch part,
   * and is on its way through the finally part otherwise.
   */
  lemma ExceptionLaw(script: seq<Byte>, cfg: Config, st: State, ch: Choice, op: Byte, arg: seq<Byte>, next: nat,
                     above: seq<Frame>, f: Frame, done: seq<Handler>, h: Handler, rest: seq<Handler>, below: seq<Frame>)
    requires Executes(script, cfg, st, op, arg, next) && Raises(op, st, ch) && st.frames == above + [f] + below
    requires op == SYSCALL ==> WithinLimit(cfg, st.gas + ch.fee)
    requires forall i :: 0 <= i < |above| ==> AllFinished(above[i].handlers)
    requires f.handlers == done + [h] + rest && AllFinished(done) && !AllFinished([h])
    ensures var gas := st.gas + if op == SYSCALL then ch.fee else Coefficient(op) * cfg.base;
            Step(script, cfg, st, ch) ==
            if h.phase == InTry && h.catchOffset >= 0
            then st.(frames := [Frame(h.catchOffset, [h.(phase := InCatch)] + rest)] + below, uncaught := false,
                     gas := gas)
            else st.(frames := [Frame(h.finallyOffset, [h.(phase := InFinally)] + rest)] + below, uncaught := true,
                     gas := gas)
  {
    hide Coefficient, FetchAt, HandleException, AllFinished, OffsetOf;
    assert Coefficient(SYSCALL) == 0 by { CallsAreFree(); }
    MovedUnwinds(st.frames, next, above, f, done, h, rest, below);
  }

  /** Where the top frame goes on next does not matter to an exception. */
  lemma MovedUnwinds(fs: seq<Frame>, next: nat, above: seq<Frame>, f: Frame, done: seq<Handler>, h: Handler,
                     rest: seq<Handler>, below: seq<Frame>)
    requires fs == above + [f] + below && forall i :: 0 <= i < |above| ==> AllFinished(above[i].handlers)
    requires f.handlers == done + [h] + rest && AllFinished(done) && !AllFinished([h])
    ensures HandleException([fs[0].(nextip := next)] + fs[1..]) ==
            if h.phase == InTry && h.catchOffset >= 0
            then Resumed([Frame(h.catchOffset, [h.(phase := InCatch)] + rest)] + below, true)
            else Resumed([Frame(h.finallyOffset, [h.(phase := InFinally)] + rest)] + below, false)
  {
    hide HandleException, AllFinished;
    var moved := [fs[0].(nextip := next)] + fs[1..];
    if above == [] {
      assert moved == above + [f.(nextip := next)] + below;
      UnwindingFinds(above, f.(nextip := next), done, h, rest, below);
    } else {
      var above' := [above[0].(nextip := next)] + above[1..];
      assert moved == above' + [f] + below;
      UnwindingFinds(above', f, done, h, rest, below);
    }
  }

  lemma CallsAreFree()
    ensures Coefficient(SYSCALL) == 0
  {}

  /** THROW resumes at the catch part of the nearest handler that is still in its try part. */
  lemma ThrowLaw(script: seq<Byte>, cfg: Config, st: State, ch: Choice, next: nat, above: seq<Frame>, f: Frame,
                 done: seq<Handler>, h: Handler, rest: seq<Handler>, below: seq<Frame>)
    requires Executes(script, cfg, st, THROW, [], next) && !ch.fails && st.frames == above + [f] + below
    requires forall i :: 0 <= i < |above| ==> AllFinished(above[i].handlers)
    requires f.handlers == done + [h] + rest && AllFinished(done) && h.phase == InTry && h.catchOffset >= 0
    ensures Step(script, cfg, st, ch) ==
            Continued(cfg, st.(uncaught := false), THROW,
                      [Frame(h.catchOffset, [h.(phase := InCatch)] + rest)] + below)
  {
    hide Coefficient, FetchAt, AllFinished, Step;
    StillOpen(h);
    ExceptionLaw(script, cfg, st, ch, THROW, [], next, above, f, done, h, rest, below);
  }

  lemma StillOpen(h: Handler)
    requires h.phase == InTry
    ensures !AllFinished([h])
  {
    assert [h][0] == h;
  }

  /** Without any handler that can take it, an exception faults the machine. */
  lemma {:induction false} NobodyCatches(fs: seq<Frame>)
    requires forall i :: 0 <= i < |fs| ==> AllFinished(fs[i].handlers)
    ensures HandleException(fs) == Unhandled
  {
    if fs != [] {
      AllDropped(fs[0].handlers);
      NobodyCatches(fs[1..]);
    }
  }

  lemma UncaughtLaw(script: seq<Byte>, cfg: Config, st: State, ch: Choice, op: Byte, arg: seq<Byte>, next: nat)
    requires Executes(script, cfg, st, op, arg, next) && Raises(op, st, ch)
    requires op == SYSCALL ==> WithinLimit(cfg, st.gas + ch.fee)
    requires forall i :: 0 <= i < |st.frames| ==> AllFinished(st.frames[i].handlers)
    ensures Step(script, cfg, st, ch) == Faulted(Rejected)
  {
    hide Coefficient, FetchAt, HandleException, AllFinished, OffsetOf;
    assert Coefficient(SYSCALL) == 0 by { CallsAreFree(); }
    NobodyCatches([st.frames[0].(nextip := next)] + st.frames[1..]);
  }

  /** TRY opens a handler on top; an offset of zero means that the block is absent, and one of the two must be there. */
  lemma TryLaw(script: seq<Byte>, cfg: Config, st: State, ch: Choice, op: Byte, c: seq<Byte>, f: seq<Byte>, next: nat)
    requires Executes(script, cfg, st, op, c + f, next) && (op == TRY || op == TRYL)
    requires |c| == |f| == (if op == TRY then 1 else 4)
    requires 0 <= st.frames[0].nextip + OffsetOf(c) <= |script| && 0 <= st.frames[0].nextip + OffsetOf(f) <= |script|
    ensures var top := st.frames[0];
            var h := Handler(if OffsetOf(c) == 0 then -1 else top.nextip + OffsetOf(c),
                             if OffsetOf(f) == 0 then -1 else top.nextip + OffsetOf(f), -1, InTry);
            Step(script, cfg, st, ch) ==
            if |top.handlers| >= 16 || (OffsetOf(c) == 0 && OffsetOf(f) == 0) then Faulted(Rejected)
            else Continued(cfg, st, op, [Frame(next, [h] + top.handlers)] + st.frames[1..])
  {
    hide Coefficient, FetchAt, OffsetOf;
    assert (c + f)[..|c|] == c && (c + f)[|c|..] == f;
  }

  /** ENDTRY enters the finally part, remembering where to go on, or leaves the handler for its target. */
  lemma EndTryLaw(script: seq<Byte>, cfg: Config, st: State, ch: Choice, op: Byte, arg: seq<Byte>, next: nat,
                  h: Handler, rest: seq<Handler>)
    requires Executes(script, cfg, st, op, arg, next) && (op == ENDTRY || op == ENDTRYL)
    requires 0 <= st.frames[0].nextip + OffsetOf(arg) <= |script|
    requires st.frames[0].handlers == [h] + rest && h.phase != InFinally
    ensures var target := st.frames[0].nextip + OffsetOf(arg);
            Step(script, cfg, st, ch) ==
            Continued(cfg, st, op,
                      [if h.finallyOffset >= 0
                       then Frame(h.finallyOffset, [h.(phase := InFinally, endOffset := target)] + rest)
                       else Frame(target, rest)] + st.frames[1..])
  {
    hide Coefficient, FetchAt, OffsetOf;
    assert ([h] + rest)[1..] == rest;
  }

  /** ENDFINALLY without a pending exception closes the handler and goes on where its ENDTRY said. */
  lemma EndFinallyLaw(script: seq<Byte>, cfg: Config, st: State, ch: Choice, next: nat, h: Handler, rest: seq<Handler>)
    requires Executes(script, cfg, st, ENDFINALLY, [], next) && !st.uncaught && st.frames[0].handlers == [h] + rest
    ensures Step(script, cfg, st, ch) ==
            Continued(cfg, st, ENDFINALLY, [Frame(h.endOffset, rest)] + st.frames[1..])
  {
    hide Coefficient, FetchAt;
    assert ([h] + rest)[1..] == rest;
  }

  // ----- failures -----

  /** Instructions that look at data and fail if it is not what they need. */
  predicate LooksAtData(op: Byte) {
    (!HasOffset(op) && op !in {TRY, TRYL, ENDFINALLY}) || IsConditional(op) || op == PUSHA
  }

  /** ABORT, and whatever does not find the data it needs, faults the machine; no handler is asked. */
  lemma FailureLaw(script: seq<Byte>, cfg: Config, st: State, ch: Choice, op: Byte, arg: seq<Byte>, next: nat)
    requires Executes(script, cfg, st, op, arg, next) && (op == ABORT || (LooksAtData(op) && ch.fails))
    requires HasOffset(op) ==> 0 <= st.frames[0].nextip + OffsetOf(arg) <= |script|
    ensures Step(script, cfg, st, ch) == Faulted(Rejected)
  {
    hide Coefficient, FetchAt, OffsetOf;
  }

  /** ENDTRY outside a try or catch part and ENDFINALLY without a handler fault the machine. */
  lemma UnbalancedLaw(script: seq<Byte>, cfg: Config, st: State, ch: Choice, op: Byte, arg: seq<Byte>, next: nat)
    requires Executes(script, cfg, st, op, arg, next)
    requires var hs := st.frames[0].handlers;
             if op == ENDFINALLY then !st.uncaught && hs == []
             else op in {ENDTRY, ENDTRYL} && (hs == [] || hs[0].phase == InFinally)
                  && 0 <= st.frames[0].nextip + OffsetOf(arg) <= |script|
    ensures Step(script, cfg, st, ch) == Faulted(Rejected)
  {
    hide Coefficient, FetchAt, OffsetOf;
  }

  /** An instruction that does not decode is not executed, nor is one that cannot be paid for. */
  lemma RefusalLaw(script: seq<Byte>, cfg: Config, st: State, ch: Choice)
    requires st.Running? && st.frames != [] && st.frames[0].nextip >= 0
    ensures var f := FetchAt(script, st.frames[0].nextip);
            && (f.Malformed? ==> Step(script, cfg, st, ch) == Faulted(BadInstruction))
            && (f.Fetched? && 0 <= cfg.limit < st.gas + Coefficient(f.op) * cfg.base ==>
                  Step(script, cfg, st, ch) == Faulted(OutOfGas))
            && (f.Fetched? && f.op == SYSCALL && !ch.fails && 0 <= cfg.limit < st.gas + ch.fee ==>
                  Step(script, cfg, st, ch) == Faulted(OutOfGas))
  {
    hide Coefficient, FetchAt, OffsetOf;
  }
}
