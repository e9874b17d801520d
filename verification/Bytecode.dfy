/**
 * From emitted code to instructions: every modelled operation is written as one instruction, jumps with their label's
 * number in the first two parameter bytes (pkg/vm/emit/emit.go). What the emitters write meets everything that label
 * resolution, shortening and the final script theorem ask for.
 */
module Bytecode {
  import opened Bytes
  import opened Opcodes
  import opened Context
  import opened Instructions
  import opened ShorteningRun
  import opened WriteJumps
  import opened FinalScript

  // ----- writing one instruction -----

  const PUSHM1: Byte := 0x0F

  /** A label's number where the offset will be. */
  function LabelBytes(lab: nat): (s: seq<Byte>)
    ensures |s| == 4 && (lab < 0x1_0000 ==> U16(s[..2]) == lab)
  {
    [lab % 0x100, lab / 0x100 % 0x100, 0, 0]
  }

  /** Little-endian two's complement in the given number of bytes. */
  function LittleEndian(n: int, size: nat): (s: seq<Byte>)
    ensures |s| == size
    decreases size
  {
    if size == 0 then [] else [n % 0x100] + LittleEndian(n / 0x100, size - 1)
  }

  function IntIns(n: int): Ins {
    if n == -1 then Ins(PUSHM1, [])
    else if 0 <= n < 16 then Ins(PUSH0 + n, [])
    else if IsInt8(n) then Ins(0x00, LittleEndian(n, 1))
    else if -0x8000 <= n < 0x8000 then Ins(0x01, LittleEndian(n, 2))
    else if IsInt32(n) then Ins(0x02, LittleEndian(n, 4))
    else Ins(0x03, LittleEndian(n, 8))
  }

  /** Loads and stores: one opcode for each of the first seven slots, then one with the slot as parameter. */
  function SlotIns(base: Byte, i: nat): Ins
    requires base <= 0xF0
  {
    if i < 7 then Ins(base + i, []) else Ins(base + 7, [Low8(i)])
  }

  function JumpIns(op: Byte, lab: nat): Ins { Ins(op, LabelBytes(lab)) }

  function TryIns(catchLab: nat, finallyLab: nat): Ins { Ins(TRYL, LabelBytes(catchLab) + LabelBytes(finallyLab)) }

  // ----- label tables -----

  predicate InProgram(p: seq<Ins>, places: seq<int>) {
    forall i :: 0 <= i < |places| ==> 0 <= places[i] <= |p|
  }

  /** The byte addresses of the instructions that labels are placed at. */
  function Addresses(p: seq<Ins>, places: seq<int>): (l: seq<int>)
    requires InProgram(p, places)
    ensures |l| == |places| && forall i :: 0 <= i < |l| ==> l[i] == Addr(p, places[i])
  {
    seq(|places|, i requires 0 <= i < |places| => Addr(p, places[i]))
  }

  /** Long jumps and TRYL refer to existing labels, handlers lie behind their TRYL, and nothing else has offsets. */
  predicate Labelled(p: seq<Ins>, places: seq<int>, i: nat)
    requires i < |p|
  {
    var ins := p[i];
    && IsValid(ins.op) && ins.op !in {PUSHDATA1, PUSHDATA2, PUSHDATA4} && |ins.arg| == ParameterSize(ins.op)
    && ins.op !in {TRY, PUSHA} && !IsShortJump(ins.op)
    && (IsLongJump(ins.op) ==> U16(ins.arg[..2]) < |places|)
    && (ins.op == TRYL ==>
          && U16(ins.arg[..2]) < |places| && places[U16(ins.arg[..2])] >= i
          && U16(ins.arg[4..6]) < |places| && places[U16(ins.arg[4..6])] >= i)
  }

  predicate AllLabelled(p: seq<Ins>, places: seq<int>) {
    InProgram(p, places) && forall i :: 0 <= i < |p| ==> Labelled(p, places, i)
  }

  // ----- function prologues -----

  /** A function starts with an INITSLOT for no arguments; label resolution fills in the number of local variables. */
  function WithPrologue(body: seq<Ins>): (p: seq<Ins>)
    ensures |p| == |body| + 1 && p[0] == Ins(INITSLOT, [0, 0]) && forall i :: 0 <= i < |body| ==> p[i + 1] == body[i]
  {
    [Ins(INITSLOT, [0, 0])] + body
  }

  /** Labels behind the prologue. */
  function Shifted(l: seq<int>): (s: seq<int>)
    ensures |s| == |l| && forall i :: 0 <= i < |l| ==> s[i] == l[i] + 1
  {
    seq(|l|, i requires 0 <= i < |l| => l[i] + 1)
  }

  lemma PrologueLabelled(body: seq<Ins>, l: seq<int>)
    requires AllLabelled(body, l)
    ensures AllLabelled(WithPrologue(body), Shifted(l))
  {
    hide IsValid, IsShortJump, IsLongJump, ParameterSize, U16;
    var p := WithPrologue(body);
    forall i | 0 <= i < |p| ensures Labelled(p, Shifted(l), i) {
      if i == 0 {
        PrologueFits();
      } else {
        assert Labelled(body, l, i - 1);
        assert p[i] == body[i - 1];
      }
    }
  }

  lemma PrologueFits()
    ensures IsValid(INITSLOT) && ParameterSize(INITSLOT) == 2 && !IsShortJump(INITSLOT) && !IsLongJump(INITSLOT)
  {}

  lemma SizedIsWellFormed(ins: Ins)
    requires IsValid(ins.op) && ins.op !in {PUSHDATA1, PUSHDATA2, PUSHDATA4} && |ins.arg| == ParameterSize(ins.op)
    ensures WellFormed(ins)
  {}

  lemma LabelAt(p: seq<Ins>, places: seq<int>, lab: nat, i: nat)
    requires InProgram(p, places) && lab < |places| && i <= |p|
    ensures var l := Addresses(p, places);
            Boundary(p, l[lab]) && 0 <= l[lab] <= Addr(p, |p|) && (places[lab] >= i ==> l[lab] >= Addr(p, i))
  {
    BoundaryHolds(p, places[lab]);
    AddrMonotone(p, places[lab], |p|);
    if places[lab] >= i { AddrMonotone(p, i, places[lab]); }
  }

  lemma LabelledIsEmitted(p: seq<Ins>, places: seq<int>)
    requires AllLabelled(p, places)
    ensures Emitted(p, Addresses(p, places))
  {
    hide Boundary, WellFormed, Addr, U16;
    var l := Addresses(p, places);
    forall i | 0 <= i < |p| ensures WellFormed(p[i]) && p[i].op != TRY && EmittedAt(p, l, i) {
      assert Labelled(p, places, i);
      SizedIsWellFormed(p[i]);
      if IsLongJump(p[i].op) {
        LabelAt(p, places, U16(p[i].arg[..2]), i);
      } else if p[i].op == TRYL {
        LabelAt(p, places, U16(p[i].arg[..2]), i);
        LabelAt(p, places, U16(p[i].arg[4..6]), i);
      }
    }
  }

  /** Offsets fit 32 bits, and no function has more than 255 local variables. */
  ghost predicate Linkable(p: seq<Ins>, places: seq<int>, counts: map<nat, nat>) {
    AllLabelled(p, places) && Addr(p, |p|) < 0x8000_0000 && forall ip :: CountAt(counts, ip) <= 255
  }

  /** Its labels are on instruction boundaries, handlers behind their TRYL, and resolving them succeeds. */
  ghost predicate Compiles(p: seq<Ins>, places: seq<int>, counts: map<nat, nat>) {
    && Linkable(p, places, counts) && Emitted(p, Addresses(p, places))
    && Resolve(p, Addresses(p, places), counts, |p|).Done?
  }

  /** Label resolution cannot fail on such a program. */
  lemma {:induction false} LabelledResolves(p: seq<Ins>, places: seq<int>, counts: map<nat, nat>, n: nat)
    requires Linkable(p, places, counts) && n <= |p|
    ensures Resolve(p, Addresses(p, places), counts, n).Done?
  {
    if n > 0 {
      LabelledResolves(p, places, counts, n - 1);
      InstructionResolves(p, places, counts, n - 1);
    }
  }

  lemma OffsetDone(p: seq<Ins>, places: seq<int>, i: nat, arg: seq<Byte>)
    requires InProgram(p, places) && Addr(p, |p|) < 0x8000_0000 && i < |p|
    requires |arg| == 4 && U16(arg[..2]) < |places|
    ensures LabelOffset(Addresses(p, places), Addr(p, i), arg).Done?
  {
    hide Boundary, Addr, U16;
    LabelAt(p, places, U16(arg[..2]), 0);
    AddrMonotone(p, i, |p|);
  }

  lemma InstructionResolves(p: seq<Ins>, places: seq<int>, counts: map<nat, nat>, i: nat)
    requires Linkable(p, places, counts) && i < |p|
    ensures ResolveIns(p[i], Addr(p, i), Addresses(p, places), counts).Done?
  {
    hide Addr, U16, LabelOffset, CountAt;
    assert Labelled(p, places, i);
    var arg := p[i].arg;
    if IsLongJump(p[i].op) {
      OffsetDone(p, places, i, arg);
    } else if p[i].op == TRYL {
      assert arg[..4][..2] == arg[..2] && arg[4..][..2] == arg[4..6];
      OffsetDone(p, places, i, arg[..4]);
      OffsetDone(p, places, i, arg[4..]);
    }
  }
}
