/** Every run with a gas limit stops, within a number of steps that can be computed beforehand. */
module GasTermination {
  import opened Bytes
  import opened Opcodes
  import opened Context
  import opened Machine

  /** Gas only grows and the limit is never exceeded while running. */
  predicate Bounded(script: seq<Byte>, cfg: Config, st: State) {
    && cfg.limit >= 0 && cfg.base >= 1
    && (st.Running? ==> 0 < |st.frames| <= MAX_INVOCATION_STACK_SIZE && st.gas <= cfg.limit)
  }

  /** Bytes left in the current script; a pointer outside the script has none left. */
  function Left(script: seq<Byte>, ip: int): nat {
    if 0 <= ip <= |script| then |script| - ip else 0
  }

  /** Gas left, then invocation depth, then bytes left, weighted so that each step lowers the sum. */
  function Rank(script: seq<Byte>, cfg: Config, st: State): (r: nat)
    requires Bounded(script, cfg, st)
  {
    if !st.Running? then 0
    else
      1 + ((cfg.limit - st.gas) * (MAX_INVOCATION_STACK_SIZE + 1) + |st.frames|) * (|script| + 1)
      + Left(script, st.frames[0].nextip)
  }

  lemma {:induction false} UnwindingPops(frames: seq<Frame>)
    ensures HandleException(frames).Resumed? ==> 0 < |HandleException(frames).frames| <= |frames|
  {
    if frames != [] { UnwindingPops(frames[1..]); }
  }

  /** What one operation does to gas, depth and the instruction pointer. */
  lemma ApplyEffects(cfg: Config, o: Operation, st: State, ch: Choice)
    requires st.Running? && 0 < |st.frames| <= MAX_INVOCATION_STACK_SIZE
    ensures var st' := Apply(cfg, o, st, ch);
            st'.Running? ==>
              && 0 < |st'.frames| <= MAX_INVOCATION_STACK_SIZE
              && st.gas <= st'.gas
              && (st.gas < st'.gas ==> WithinLimit(cfg, st'.gas))
              && (o.Return? ==> |st'.frames| < |st.frames| && st'.gas == st.gas)
              && (o.Syscall? ==> st'.frames == st.frames || st.gas < st'.gas)
              && !o.Abort?
  {
    hide HandleException;
    UnwindingPops(st.frames);
  }

  lemma FreeOperations(script: seq<Byte>, ip: nat, op: Byte, arg: seq<Byte>)
    requires IsValid(op) && Coefficient(op) == 0
    ensures var o := OperationOf(script, ip, op, arg); o.Return? || o.Syscall? || o.Abort?
  {}

  lemma WeightedDescent(gas: nat, gas': nat, depth: nat, depth': nat, left: nat, left': nat, n: nat)
    requires left <= n && left' <= n && depth <= MAX_INVOCATION_STACK_SIZE && depth' <= MAX_INVOCATION_STACK_SIZE
    requires gas' <= gas
    requires gas' == gas ==> depth' < depth || (depth' == depth && left' < left)
    ensures (gas' * (MAX_INVOCATION_STACK_SIZE + 1) + depth') * (n + 1) + left'
            < (gas * (MAX_INVOCATION_STACK_SIZE + 1) + depth) * (n + 1) + left
  {
    var a := gas * (MAX_INVOCATION_STACK_SIZE + 1) + depth;
    var a' := gas' * (MAX_INVOCATION_STACK_SIZE + 1) + depth';
    if a' < a { ProductGap(a', a, n + 1); }
  }

  lemma ProductGap(a': nat, a: nat, w: nat)
    requires a' < a
    ensures a' * w + w <= a * w
  {
    assert a * w == (a - a' - 1) * w + a' * w + w;
  }

  /** One step of a running machine lowers the rank. */
  lemma StepLowersRank(script: seq<Byte>, cfg: Config, st: State, ch: Choice)
    requires Bounded(script, cfg, st) && st.Running?
    ensures Bounded(script, cfg, Step(script, cfg, st, ch))
    ensures Rank(script, cfg, Step(script, cfg, st, ch)) < Rank(script, cfg, st)
  {
    hide FetchAt, OperationOf, Apply, Coefficient;
    var st' := Step(script, cfg, st, ch);
    var ip := st.frames[0].nextip;
    if st'.Running? {
      var f := FetchAt(script, ip);
      if f.AtEnd? {
        ApplyEffects(cfg, Return, st, ch);
      } else {
        var o := OperationOf(script, ip, f.op, script[f.lo..f.hi]);
        var moved := JumpTo(st.(gas := st.gas + Coefficient(f.op) * cfg.base), f.hi);
        ApplyEffects(cfg, o, moved, ch);
        FetchedIsValid(script, ip);
        if Coefficient(f.op) == 0 {
          FreeOperations(script, ip, f.op, script[f.lo..f.hi]);
        } else {
          PositivePrice(Coefficient(f.op), cfg.base);
        }
      }
      WeightedDescent(cfg.limit - st.gas, cfg.limit - st'.gas, |st.frames|, |st'.frames|,
                      Left(script, ip), Left(script, st'.frames[0].nextip), |script|);
    } else {
      RankIsPositive(script, cfg, st);
    }
  }

  lemma FetchedIsValid(b: seq<Byte>, ip: nat)
    requires FetchAt(b, ip).Fetched?
    ensures IsValid(FetchAt(b, ip).op)
  {}

  lemma PositivePrice(c: nat, base: nat)
    requires c > 0 && base > 0
    ensures c * base > 0
  {}

  lemma RankIsPositive(script: seq<Byte>, cfg: Config, st: State)
    requires Bounded(script, cfg, st) && st.Running?
    ensures Rank(script, cfg, st) > 0
  {}

  /** Whatever the data decides, the machine has stopped after as many steps as the initial rank. */
  lemma {:induction false} EveryRunStops(script: seq<Byte>, cfg: Config, st: State, choices: seq<Choice>)
    requires Bounded(script, cfg, st) && |choices| >= Rank(script, cfg, st)
    ensures !Run(script, cfg, st, choices).Running?
    decreases |choices|
  {
    hide Step, Rank;
    if st.Running? {
      RankIsPositive(script, cfg, st);
      StepLowersRank(script, cfg, st, choices[0]);
      FramesRemain(script, cfg, st, choices[0]);
      EveryRunStops(script, cfg, Step(script, cfg, st, choices[0]), choices[1..]);
    }
  }

  /** A machine that halts has consumed no more than its limit. */
  lemma {:induction false} HaltedWithinLimit(script: seq<Byte>, cfg: Config, st: State, choices: seq<Choice>)
    requires st.Running? ==> st.frames != [] && WithinLimit(cfg, st.gas)
    requires st.Halted? ==> WithinLimit(cfg, st.gas)
    ensures Run(script, cfg, st, choices).Halted? ==> WithinLimit(cfg, Run(script, cfg, st, choices).gas)
    decreases |choices|
  {
    hide Step;
    if choices != [] && st.Running? {
      FramesRemain(script, cfg, st, choices[0]);
      StillWithin(script, cfg, st, choices[0]);
      HaltedWithinLimit(script, cfg, Step(script, cfg, st, choices[0]), choices[1..]);
    }
  }

  lemma GasStaysWithin(cfg: Config, o: Operation, st: State, ch: Choice)
    requires st.Running? && st.frames != [] && WithinLimit(cfg, st.gas)
    ensures var st' := Apply(cfg, o, st, ch);
            st'.Running? || st'.Halted? ==> WithinLimit(cfg, st'.gas)
  {}

  // ----- what a limit decides -----

  lemma ApplyGas(cfg: Config, o: Operation, st: State, ch: Choice)
    requires st.Running? && st.frames != []
    ensures var t := Apply(cfg, o, st, ch); t.Running? || t.Halted? ==> st.gas <= t.gas
  {}

  lemma StepGas(script: seq<Byte>, cfg: Config, st: State, ch: Choice)
    requires st.Running? && st.frames != []
    ensures var t := Step(script, cfg, st, ch); t.Running? || t.Halted? ==> st.gas <= t.gas
  {
    hide FetchAt, OperationOf, Apply, Coefficient;
    var ip := st.frames[0].nextip;
    if ip >= 0 {
      var f := FetchAt(script, ip);
      if f.AtEnd? {
        ApplyGas(cfg, Return, st, ch);
      } else if f.Fetched? {
        ApplyGas(cfg, OperationOf(script, ip, f.op, script[f.lo..f.hi]),
                 JumpTo(st.(gas := st.gas + Coefficient(f.op) * cfg.base), f.hi), ch);
      }
    }
  }

  lemma {:induction false} RunGas(script: seq<Byte>, cfg: Config, st: State, choices: seq<Choice>)
    requires st.Running? && st.frames != []
    ensures Run(script, cfg, st, choices).Halted? ==> st.gas <= Run(script, cfg, st, choices).gas
    decreases |choices|
  {
    hide Step;
    if choices != [] {
      FramesRemain(script, cfg, st, choices[0]);
      StepGas(script, cfg, st, choices[0]);
      var t := Step(script, cfg, st, choices[0]);
      if t.Running? { RunGas(script, cfg, t, choices[1..]); }
    }
  }

  /** A limit changes a step only by stopping it where the unlimited step consumes more. */
  predicate LimitStops(limit: int, limited: State, free: State) {
    limited == free || (limited == Faulted(OutOfGas) && (free.Running? || free.Halted? ==> free.gas > limit))
  }

  lemma ApplyLimited(base: nat, limit: nat, o: Operation, st: State, ch: Choice)
    requires st.Running? && st.frames != []
    ensures LimitStops(limit, Apply(Config(base, limit), o, st, ch), Apply(Config(base, -1), o, st, ch))
  {
    hide HandleException;
  }

  lemma StepLimited(script: seq<Byte>, base: nat, limit: nat, st: State, ch: Choice)
    requires st.Running? && st.frames != []
    ensures LimitStops(limit, Step(script, Config(base, limit), st, ch), Step(script, Config(base, -1), st, ch))
  {
    hide FetchAt, OperationOf, Apply, Coefficient;
    var ip := st.frames[0].nextip;
    if ip >= 0 {
      var f := FetchAt(script, ip);
      if f.AtEnd? {
        ApplyLimited(base, limit, Return, st, ch);
      } else if f.Fetched? {
        var o := OperationOf(script, ip, f.op, script[f.lo..f.hi]);
        var paid := JumpTo(st.(gas := st.gas + Coefficient(f.op) * base), f.hi);
        ApplyLimited(base, limit, o, paid, ch);
        ApplyGas(Config(base, -1), o, paid, ch);
      }
    }
  }

  /** With a limit a run halts exactly if it halts without one and has consumed no more, and then in the same way. */
  lemma {:induction false} LimitDecides(script: seq<Byte>, base: nat, limit: nat, st: State, choices: seq<Choice>)
    requires st.Running? && st.frames != []
    ensures var limited := Run(script, Config(base, limit), st, choices);
            var free := Run(script, Config(base, -1), st, choices);
            st.gas <= limit ==> (limited.Halted? <==> free.Halted? && free.gas <= limit) &&
                                (limited.Halted? ==> limited == free)
    decreases |choices|
  {
    hide Step;
    if choices != [] && st.gas <= limit {
      var ch, rest := choices[0], choices[1..];
      FramesRemain(script, Config(base, limit), st, ch);
      FramesRemain(script, Config(base, -1), st, ch);
      StepLimited(script, base, limit, st, ch);
      var x, y := Step(script, Config(base, limit), st, ch), Step(script, Config(base, -1), st, ch);
      if x.Running? {
        LimitDecides(script, base, limit, x, rest);
        StillWithin(script, Config(base, limit), st, ch);
      } else if y.Running? {
        RunGas(script, Config(base, -1), y, rest);
      } else {
        StillWithin(script, Config(base, limit), st, ch);
      }
    }
  }

  lemma StillWithin(script: seq<Byte>, cfg: Config, st: State, ch: Choice)
    requires st.Running? && st.frames != [] && WithinLimit(cfg, st.gas)
    ensures var t := Step(script, cfg, st, ch); t.Running? || t.Halted? ==> WithinLimit(cfg, t.gas)
  {
    hide FetchAt, OperationOf, Apply, Coefficient;
    var ip := st.frames[0].nextip;
    if ip >= 0 {
      var f := FetchAt(script, ip);
      if f.AtEnd? {
        GasStaysWithin(cfg, Return, st, ch);
      } else if f.Fetched? && WithinLimit(cfg, st.gas + Coefficient(f.op) * cfg.base) {
        GasStaysWithin(cfg, OperationOf(script, ip, f.op, script[f.lo..f.hi]),
                       JumpTo(st.(gas := st.gas + Coefficient(f.op) * cfg.base), f.hi), ch);
      }
    }
  }
}
