/**
 * The control part of NeoVM: jumps, calls, exception handlers and gas (pkg/vm/vm.go).
 * What evaluation-stack contents would decide is supplied step by step by a Choice, so a statement about
 * every sequence of choices covers every run on every data.
 */
module Machine {
  import opened Bytes
  import opened Opcodes
  import opened Context

  const MAX_INVOCATION_STACK_SIZE := 1024
  const MAX_TRY_NESTING_DEPTH := 16

  datatype Phase = InTry | InCatch | InFinally

  /** An entry of the exception stack; absent blocks and an unset end are -1. */
  datatype Handler = Handler(catchOffset: int, finallyOffset: int, endOffset: int, phase: Phase) {
    predicate HasCatch() { catchOffset >= 0 }
    predicate HasFinally() { finallyOffset >= 0 }
    /** handleException discards such handlers. */
    predicate Finished() { phase == InFinally || (phase == InCatch && !HasFinally()) }
  }

  /** One invocation; the top handler comes first. */
  datatype Frame = Frame(nextip: int, handlers: seq<Handler>)

  datatype Fault = BadInstruction | BadTarget | OutOfGas | Rejected

  /** The current frame comes first. Crashed is a failure outside the code that turns panics into faults. */
  datatype State =
    | Running(frames: seq<Frame>, uncaught: bool, pointers: seq<nat>, gas: int)
    | Halted(gas: int)
    | Faulted(fault: Fault)
    | Crashed

  /** Outcome of the data-dependent parts of one step. */
  datatype Choice = Choice(holds: bool, fails: bool, throws: bool, pointer: nat, fee: nat)

  /** Price of a unit of coefficient, and the gas limit; a negative limit means none. */
  datatype Config = Config(base: nat, limit: int)

  predicate WithinLimit(cfg: Config, gas: int) { cfg.limit < 0 || gas <= cfg.limit }

  // ----- instructions with absolute targets -----

  datatype Operation =
    | Data(op: Byte, arg: seq<Byte>)
    | Jump(conditional: bool, target: nat)
    | CallTo(target: nat)
    | CallPointer
    | PushPointer(target: nat)
    | Return
    | Throw
    | Abort
    | Try(catchOffset: int, finallyOffset: int)
    | EndTry(target: nat)
    | EndFinally
    | Syscall(id: seq<Byte>)
    | Misdirected

  /** Absolute offset that a parameter refers to; the script's end is a legal target here. */
  predicate InScript(script: seq<Byte>, offset: int) { 0 <= offset <= |script| }

  function OperationOf(script: seq<Byte>, ip: nat, op: Byte, arg: seq<Byte>): Operation {
    if HasOffset(op) then
      var target := ip + OffsetOf(arg);
      if !InScript(script, target) then Misdirected
      else if op == PUSHA then PushPointer(target)
      else if op == CALL || op == CALLL then CallTo(target)
      else if op == ENDTRY || op == ENDTRYL then EndTry(target)
      else Jump(op != JMP && op != JMPL, target)
    else if op == TRY || op == TRYL then
      var half := |arg| / 2;
      var c, f := ip + OffsetOf(arg[..half]), ip + OffsetOf(arg[half..]);
      if !InScript(script, c) || !InScript(script, f) then Misdirected
      else Try(if c == ip then -1 else c, if f == ip then -1 else f)
    else if op == CALLA then CallPointer
    else if op == RET then Return
    else if op == THROW then Throw
    else if op == ABORT then Abort
    else if op == ENDFINALLY then EndFinally
    else if op == SYSCALL then Syscall(arg)
    else Data(op, arg)
  }

  // ----- exception handling -----

  function DropFinished(handlers: seq<Handler>): seq<Handler> {
    if handlers == [] || !handlers[0].Finished() then handlers else DropFinished(handlers[1..])
  }

  /** The frames left after an exception reached a handler, and whether a catch block took it. */
  datatype Unwound = Unhandled | Resumed(frames: seq<Frame>, caught: bool)

  function HandleException(frames: seq<Frame>): Unwound {
    if frames == [] then Unhandled
    else
      var left := DropFinished(frames[0].handlers);
      if left == [] then HandleException(frames[1..])
      else
        var h := left[0];
        if h.phase == InTry && h.HasCatch() then
          Resumed([Frame(h.catchOffset, [h.(phase := InCatch)] + left[1..])] + frames[1..], true)
        else
          Resumed([Frame(h.finallyOffset, [h.(phase := InFinally)] + left[1..])] + frames[1..], false)
  }

  function Raise(st: State): State
    requires st.Running?
  {
    match HandleException(st.frames)
    case Unhandled => Faulted(Rejected)
    case Resumed(frames, caught) => st.(frames := frames, uncaught := !caught)
  }

  // ----- one instruction -----

  function JumpTo(st: State, target: int): State
    requires st.Running? && st.frames != []
  {
    st.(frames := [st.frames[0].(nextip := target)] + st.frames[1..])
  }

  function Enter(st: State, target: nat): State
    requires st.Running? && st.frames != []
  {
    if |st.frames| >= MAX_INVOCATION_STACK_SIZE then Faulted(Rejected)
    else st.(frames := [Frame(target, [])] + st.frames)
  }

  function SetHandlers(st: State, handlers: seq<Handler>): State
    requires st.Running? && st.frames != []
  {
    st.(frames := [st.frames[0].(handlers := handlers)] + st.frames[1..])
  }

  function Leave(st: State): State
    requires st.Running? && st.frames != []
  {
    if |st.frames| == 1 then Halted(st.gas) else st.(frames := st.frames[1..])
  }

  /**
   * Effect of one operation; the instruction pointer of st has already moved past it. A system call may run another
   * contract, which is charged for, and let an exception of it through.
   */
  function Apply(cfg: Config, o: Operation, st: State, ch: Choice): State
    requires st.Running? && st.frames != []
  {
    var handlers := st.frames[0].handlers;
    match o
    case Misdirected => Faulted(BadTarget)
    case Abort => Faulted(Rejected)
    case Data(op, arg) =>
      if ch.fails || (op == INITSLOT && arg == [0, 0]) then Faulted(Rejected)
      else if ch.throws && (op == PICKITEM || op == SETITEM) then Raise(st)
      else st
    case Jump(conditional, target) =>
      if conditional && ch.fails then Faulted(Rejected)
      else if !conditional || ch.holds then JumpTo(st, target)
      else st
    case CallTo(target) => Enter(st, target)
    case CallPointer =>
      if ch.fails || ch.pointer >= |st.pointers| then Faulted(Rejected) else Enter(st, st.pointers[ch.pointer])
    case PushPointer(target) => if ch.fails then Faulted(Rejected) else st.(pointers := st.pointers + [target])
    case Return => if ch.fails then Faulted(Rejected) else Leave(st)
    case Throw => if ch.fails then Faulted(Rejected) else Raise(st)
    case Try(c, f) =>
      if |handlers| >= MAX_TRY_NESTING_DEPTH || (c == -1 && f == -1) then Faulted(Rejected)
      else SetHandlers(st, [Handler(c, f, -1, InTry)] + handlers)
    case EndTry(target) =>
      if handlers == [] || handlers[0].phase == InFinally then Faulted(Rejected)
      else
        var h := handlers[0];
        if h.HasFinally() then
          JumpTo(SetHandlers(st, [h.(phase := InFinally, endOffset := target)] + handlers[1..]), h.finallyOffset)
        else JumpTo(SetHandlers(st, handlers[1..]), target)
    case EndFinally =>
      if st.uncaught then Raise(st)
      else if handlers == [] then Faulted(Rejected)
      else JumpTo(SetHandlers(st, handlers[1..]), handlers[0].endOffset)
    case Syscall(_) =>
      if ch.fails then Faulted(Rejected)
      else if !WithinLimit(cfg, st.gas + ch.fee) then Faulted(OutOfGas)
      else
        var paid := st.(gas := st.gas + ch.fee);
        if ch.throws && ch.fee > 0 then Raise(paid) else paid
  }

  function Step(script: seq<Byte>, cfg: Config, st: State, ch: Choice): State
    requires st.Running? && st.frames != []
  {
    var ip := st.frames[0].nextip;
    if ip < 0 then Crashed
    else
      match FetchAt(script, ip)
      case Malformed => Faulted(BadInstruction)
      case AtEnd => Apply(cfg, Return, st, ch)
      case Fetched(op, lo, hi) =>
        var gas := st.gas + Coefficient(op) * cfg.base;
        if !WithinLimit(cfg, gas) then Faulted(OutOfGas)
        else Apply(cfg, OperationOf(script, ip, op, script[lo..hi]), JumpTo(st.(gas := gas), hi), ch)
  }

  /** Execution for as many steps as there are choices, or until it stops. */
  function Run(script: seq<Byte>, cfg: Config, st: State, choices: seq<Choice>): State
    requires st.Running? ==> st.frames != []
    decreases |choices|
  {
    if choices == [] || !st.Running? then st
    else
      FramesRemain(script, cfg, st, choices[0]);
      Run(script, cfg, Step(script, cfg, st, choices[0]), choices[1..])
  }

  lemma {:induction false} UnwindingKeepsAFrame(frames: seq<Frame>)
    ensures HandleException(frames).Resumed? ==> HandleException(frames).frames != []
  {
    if frames != [] { UnwindingKeepsAFrame(frames[1..]); }
  }

  /** A running machine always has a current frame. */
  lemma FramesRemain(script: seq<Byte>, cfg: Config, st: State, ch: Choice)
    requires st.Running? && st.frames != []
    ensures Step(script, cfg, st, ch).Running? ==> Step(script, cfg, st, ch).frames != []
  {
    hide FetchAt, OperationOf, Apply, Coefficient;
    var ip := st.frames[0].nextip;
    if ip >= 0 {
      var f := FetchAt(script, ip);
      if f.Fetched? {
        FrameRemains(cfg, OperationOf(script, ip, f.op, script[f.lo..f.hi]),
                     JumpTo(st.(gas := st.gas + Coefficient(f.op) * cfg.base), f.hi), ch);
      } else if f.AtEnd? {
        FrameRemains(cfg, Return, st, ch);
      }
    }
  }

  lemma FrameRemains(cfg: Config, o: Operation, st: State, ch: Choice)
    requires st.Running? && st.frames != []
    ensures Apply(cfg, o, st, ch).Running? ==> Apply(cfg, o, st, ch).frames != []
  {
    hide HandleException;
    UnwindingKeepsAFrame(st.frames);
  }
}
