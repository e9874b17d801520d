/** Gas shared by the witnesses of one transaction (pkg/core/blockchain.go). */
module WitnessGas {
  import opened Bytes
  import opened Machine
  import opened GasTermination
  import opened Context
  import Opcodes

  const CHOICE := Choice(false, false, false, 0, 0)

  /** What checking one witness runs, on which data, and what the check makes of the result. */
  datatype Witness = Witness(script: seq<Byte>, choices: seq<Choice>, correct: bool, signed: bool)

  datatype Transaction = Transaction(networkFee: int, size: nat, notaryKeys: int, witnesses: seq<Witness>)

  /** Fee per byte, fee for each notary key, opcode price and the policy's limit for one verification. */
  datatype Policy = Policy(feePerByte: nat, notaryFee: nat, base: nat, maxVerificationGas: nat)

  datatype Verdict = Accepted | InvalidSignature | Refused

  /** The charges that do not go to witnesses; notaryKeys is negative without a notary attribute. */
  function NeedNetworkFee(t: Transaction, p: Policy): int {
    t.size * p.feePerByte + if t.notaryKeys >= 0 then (t.notaryKeys + 1) * p.notaryFee else 0
  }

  function Loaded(): State { Running([Frame(0, [])], false, [], 0) }

  function Min(a: int, b: int): int { if a < b then a else b }

  /** One witness, under a limit; a machine that has not halted has failed. */
  function VerifyHashAgainstScript(w: Witness, p: Policy, gas: int): (Verdict, int) {
    var end := Run(w.script, Config(p.base, Min(gas, p.maxVerificationGas)), Loaded(), w.choices);
    if !w.correct || !end.Halted? then (Refused, 0)
    else if !w.signed then (InvalidSignature, end.gas)
    else (Accepted, end.gas)
  }

  // ----- what a witness costs -----

  /** The run of a witness when nothing limits it. */
  function FreeRun(w: Witness, p: Policy): State {
    Run(w.script, Config(p.base, -1), Loaded(), w.choices)
  }

  /** Its gas, if it halts. */
  function Cost(w: Witness, p: Policy): (c: int)
    ensures c >= 0
  {
    RunGas(w.script, Config(p.base, -1), Loaded(), w.choices);
    if FreeRun(w, p).Halted? then FreeRun(w, p).gas else 0
  }

  /** A witness passes exactly if it halts at a cost within both the gas given and the policy's limit. */
  lemma WitnessPasses(w: Witness, p: Policy, gas: int)
    requires gas >= 0
    ensures VerifyHashAgainstScript(w, p, gas) ==
            if w.correct && FreeRun(w, p).Halted? && Cost(w, p) <= gas && Cost(w, p) <= p.maxVerificationGas
            then (if w.signed then Accepted else InvalidSignature, Cost(w, p))
            else (Refused, 0)
  {
    hide Run;
    LimitDecides(w.script, p.base, Min(gas, p.maxVerificationGas), Loaded(), w.choices);
  }

  /** A witness consumes no more than it was given, if that is not negative, and no more than the policy allows. */
  lemma WitnessWithinLimit(w: Witness, p: Policy, gas: int)
    requires gas >= 0
    ensures 0 <= VerifyHashAgainstScript(w, p, gas).1 <= gas
    ensures VerifyHashAgainstScript(w, p, gas).1 <= p.maxVerificationGas
  {
    hide VerifyHashAgainstScript;
    WitnessPasses(w, p, gas);
  }

  function TotalCost(ws: seq<Witness>, p: Policy): (c: int)
    ensures c >= 0
  {
    if ws == [] then 0 else Cost(ws[0], p) + TotalCost(ws[1..], p)
  }

  /** What is asked of each witness by itself; the first one may be a dummy. */
  predicate Passes(w: Witness, p: Policy, dummy: bool) {
    w.correct && (w.signed || dummy) && FreeRun(w, p).Halted? && Cost(w, p) <= p.maxVerificationGas
  }

  predicate AllPass(ws: seq<Witness>, p: Policy, dummy: bool) {
    forall i :: 0 <= i < |ws| ==> Passes(ws[i], p, i == 0 && dummy)
  }

  lemma AllPassStep(ws: seq<Witness>, p: Policy, dummy: bool)
    requires ws != []
    ensures AllPass(ws, p, dummy) <==> Passes(ws[0], p, dummy) && AllPass(ws[1..], p, false)
  {
    hide Passes;
    if Passes(ws[0], p, dummy) && AllPass(ws[1..], p, false) {
      forall i | 0 <= i < |ws| ensures Passes(ws[i], p, i == 0 && dummy) {
        if i > 0 { assert ws[i] == ws[1..][i - 1]; }
      }
    }
    if AllPass(ws, p, dummy) {
      forall i | 0 <= i < |ws[1..]| ensures Passes(ws[1..][i], p, false) { assert ws[1..][i] == ws[i + 1]; }
    }
  }

  /** What the network fee leaves for the witnesses. */
  function Rest(t: Transaction, p: Policy): int { t.networkFee - NeedNetworkFee(t, p) }

  /**
   * Each witness gets what the ones before it left; a partial transaction may have a dummy first signature. All of them
   * pass exactly if each does by itself and their costs together fit.
   */
  method VerifyTxWitnesses(t: Transaction, p: Policy, partial: bool) returns (ok: bool, left: int)
    ensures Rest(t, p) >= 0 ==> (ok <==> AllPass(t.witnesses, p, partial) && TotalCost(t.witnesses, p) <= Rest(t, p))
    ensures Rest(t, p) >= 0 && ok ==> left == Rest(t, p) - TotalCost(t.witnesses, p)
    ensures ok ==> forall i :: 0 <= i < |t.witnesses| ==>
              t.witnesses[i].correct && (t.witnesses[i].signed || (i == 0 && partial))
  {
    hide VerifyHashAgainstScript, AllPass, Passes, Cost;
    left := t.networkFee - t.size * p.feePerByte;
    if t.notaryKeys >= 0 {
      left := left - (t.notaryKeys + 1) * p.notaryFee;
    }
    ghost var admitted := AllPass(t.witnesses, p, partial) && TotalCost(t.witnesses, p) <= Rest(t, p);
    assert t.witnesses[0..] == t.witnesses;
    for i := 0 to |t.witnesses|
      invariant Rest(t, p) >= 0 ==>
                  && left >= 0 && Rest(t, p) - TotalCost(t.witnesses, p) == left - TotalCost(t.witnesses[i..], p)
                  && (admitted <==> AllPass(t.witnesses[i..], p, i == 0 && partial) &&
                                    TotalCost(t.witnesses[i..], p) <= left)
      invariant forall j :: 0 <= j < i ==> t.witnesses[j].correct && (t.witnesses[j].signed || (j == 0 && partial))
    {
      var (verdict, consumed) := VerifyHashAgainstScript(t.witnesses[i], p, left);
      VerdictMeans(t.witnesses[i], p, left);
      assert t.witnesses[i..][1..] == t.witnesses[i + 1..];
      OneWitness(t.witnesses[i..], p, i == 0 && partial, left);
      if !verdict.Accepted? && !(i == 0 && partial && verdict.InvalidSignature?) {
        return false, 0;
      }
      left := left - consumed;
    }
    assert AllPass(t.witnesses[|t.witnesses|..], p, false) by { NoWitnesses(p); }
    assert AllPass(t.witnesses[|t.witnesses|..], p, partial) by { NoWitnesses(p); }
    ok := true;
  }

  lemma NoWitnesses(p: Policy)
    ensures AllPass([], p, false) && AllPass([], p, true)
  {}

  /** One turn of the loop: the first witness is let through exactly if it passes and fits, and the others go on. */
  lemma OneWitness(ws: seq<Witness>, p: Policy, dummy: bool, gas: int)
    requires ws != []
    ensures gas >= 0 ==>
              var (verdict, consumed) := VerifyHashAgainstScript(ws[0], p, gas);
              var through := verdict.Accepted? || (dummy && verdict.InvalidSignature?);
              && (through ==> Passes(ws[0], p, dummy) && consumed == Cost(ws[0], p) && consumed <= gas)
              && (!through ==> !(AllPass(ws, p, dummy) && TotalCost(ws, p) <= gas))
              && (through ==> (AllPass(ws, p, dummy) && TotalCost(ws, p) <= gas <==>
                               AllPass(ws[1..], p, false) && TotalCost(ws[1..], p) <= gas - consumed))
  {
    hide VerifyHashAgainstScript, AllPass, Cost, FreeRun;
    AllPassStep(ws, p, dummy);
    if gas >= 0 { WitnessPasses(ws[0], p, gas); }
  }

  lemma VerdictMeans(w: Witness, p: Policy, gas: int)
    ensures VerifyHashAgainstScript(w, p, gas).0.Accepted? ==> w.correct && w.signed
    ensures VerifyHashAgainstScript(w, p, gas).0.InvalidSignature? ==> w.correct && !w.signed
  {}

  /**
   * A transaction is admitted exactly if every witness halts at a cost within the policy's limit and is correct and
   * signed, and the network fee covers the charges for size and notary and all these costs.
   */
  method VerifyAndPoolTx(t: Transaction, p: Policy, partial: bool) returns (ok: bool, left: int)
    ensures var charges := t.size * p.feePerByte + if t.notaryKeys < 0 then 0 else (t.notaryKeys + 1) * p.notaryFee;
            && (ok <==> AllPass(t.witnesses, p, partial) && charges + TotalCost(t.witnesses, p) <= t.networkFee)
            && (ok ==> left == t.networkFee - charges - TotalCost(t.witnesses, p))
  {
    hide AllPass, TotalCost;
    if t.networkFee - NeedNetworkFee(t, p) < 0 {
      return false, 0;
    }
    ok, left := VerifyTxWitnesses(t, p, partial);
  }

  /** Without the check for a negative remainder there would be no bound: a negative limit is no limit. */
  lemma NegativeLimitIsNoLimit(p: Policy, gas: int)
    requires gas < 0
    ensures var w := Witness([Opcodes.PUSH1], [CHOICE, CHOICE], true, true);
            VerifyHashAgainstScript(w, p, gas) == (Accepted, p.base)
  {
    var w := Witness([Opcodes.PUSH1], [CHOICE, CHOICE], true, true);
    var cfg := Config(p.base, Min(gas, p.maxVerificationGas));
    assert FetchAt(w.script, 0) == Fetched(Opcodes.PUSH1, 1, 1);
    assert Opcodes.Coefficient(Opcodes.PUSH1) == 1;
    var st := Running([Frame(1, [])], false, [], p.base);
    assert Step(w.script, cfg, Loaded(), CHOICE) == st;
    assert Step(w.script, cfg, st, CHOICE) == Halted(p.base);
    assert Run(w.script, cfg, Halted(p.base), []) == Halted(p.base);
    assert w.choices[1..] == [CHOICE] && [CHOICE][1..] == [];
    assert Run(w.script, cfg, st, [CHOICE]) == Halted(p.base);
  }
}
