/** What the shortened program means: the same instructions, and every reference leads to its old target's image. */
module ShortenedProgram {
  import opened Bytes
  import opened Opcodes
  import opened Context
  import opened Instructions
  import opened JumpShortening

  /** Instruction i vanishes: it is a function prologue that reserves no slots. */
  predicate Dropped(p: seq<Ins>, cut: seq<bool>, i: nat)
    requires |cut| == |p| && i < |p|
  {
    cut[i] && p[i].op == INITSLOT
  }

  /** Index that instruction i has in the shortened program. */
  function NewIndex(p: seq<Ins>, cut: seq<bool>, i: nat): nat
    requires |cut| == |p| && i <= |p|
  {
    if i == 0 then 0 else NewIndex(p, cut, i - 1) + if Dropped(p, cut, i - 1) then 0 else 1
  }

  function Fixed(p: seq<Ins>, cut: seq<bool>): (f: seq<Ins>)
    requires |cut| == |p|
    ensures |f| == |p|
  {
    FixTo(p, Offsets(p, cut, |p|), |p|)
  }

  /** Marked long jumps have offsets that a signed byte can hold, as the marking pass checks. */
  predicate MarkedFit(p: seq<Ins>, cut: seq<bool>) {
    && Shortenable(p, cut)
    && forall i :: 0 <= i < |p| && cut[i] && IsLongJump(p[i].op) ==> IsInt8(OffsetOf(p[i].arg))
  }

  lemma {:induction false} ShrunkPrefix(f: seq<Ins>, cut: seq<bool>, n: nat, i: nat)
    requires |cut| == |f| && i <= n <= |f|
    ensures ShrinkTo(f, cut, i) <= ShrinkTo(f, cut, n)
  {
    if i < n { ShrunkPrefix(f, cut, n - 1, i); }
  }

  /** The new index of an instruction is the number of instructions left before it. */
  lemma {:induction false} NewIndexIsLength(p: seq<Ins>, cut: seq<bool>, i: nat)
    requires Shortenable(p, cut) && i <= |p|
    ensures |ShrinkTo(Fixed(p, cut), cut, i)| == NewIndex(p, cut, i)
    decreases i
  {
    hide FetchAt, WellFormed, FixTo, Offsets;
    if i > 0 {
      FixedInstruction(p, Offsets(p, cut, |p|), i - 1);
      NewIndexIsLength(p, cut, i - 1);
    }
  }

  lemma ShrinkAppends(f: seq<Ins>, cut: seq<bool>, i: nat)
    requires |cut| == |f| && i < |f|
    ensures ShrinkTo(f, cut, i + 1) == ShrinkTo(f, cut, i) + ShrinkIns(f[i], cut[i])
  {}

  lemma ElementAfterPrefix<T>(a: seq<T>, x: T, s: seq<T>)
    requires a + [x] <= s
    ensures |a| < |s| && s[|a|] == x
  {}

  /** Unless dropped, instruction i is found at its new index. */
  lemma {:induction false} InstructionAtNewIndex(p: seq<Ins>, cut: seq<bool>, i: nat)
    requires Shortenable(p, cut) && i < |p| && !Dropped(p, cut, i)
    ensures NewIndex(p, cut, i) < |Shortened(p, cut)|
    ensures ShrinkIns(Fixed(p, cut)[i], cut[i]) == [Shortened(p, cut)[NewIndex(p, cut, i)]]
  {
    hide FetchAt, WellFormed, FixTo, Offsets, ShrinkTo, NewIndex;
    FixedInstruction(p, Offsets(p, cut, |p|), i);
    ShrunkPrefix(Fixed(p, cut), cut, |p|, i);
    NewIndexIsLength(p, cut, i);
    ShrunkPrefix(Fixed(p, cut), cut, |p|, i + 1);
    NewIndexIsLength(p, cut, i + 1);
    ShrinkAppends(Fixed(p, cut), cut, i);
    ElementAfterPrefix(ShrinkTo(Fixed(p, cut), cut, i), ShrinkIns(Fixed(p, cut)[i], cut[i])[0], Shortened(p, cut));
  }

  /** Every instruction boundary moves to where the position map says. */
  lemma {:induction false} NewAddress(p: seq<Ins>, cut: seq<bool>, i: nat)
    requires Shortenable(p, cut) && i <= |p|
    ensures NewIndex(p, cut, i) <= |Shortened(p, cut)|
    ensures Addr(Shortened(p, cut), NewIndex(p, cut, i)) == Pos(Offsets(p, cut, |p|), Addr(p, i))
    ensures CountBelow(Offsets(p, cut, |p|), Addr(p, i)) == |Offsets(p, cut, i)|
  {
    hide FetchAt, WellFormed, Shortened;
    CountBeforeBoundary(p, cut, i);
    ShrunkPrefix(Fixed(p, cut), cut, |p|, i);
    NewIndexIsLength(p, cut, i);
    if i > 0 {
      NewAddress(p, cut, i - 1);
      StepAddress(p, cut, i - 1);
    }
  }

  lemma CountBeforeBoundary(p: seq<Ins>, cut: seq<bool>, i: nat)
    requires |cut| == |p| && i <= |p|
    ensures CountBelow(Offsets(p, cut, |p|), Addr(p, i)) == |Offsets(p, cut, i)|
  {
    var offsets := Offsets(p, cut, |p|);
    OffsetsArePrefix(p, cut, i, |p|);
    OffsetsIncrease(p, cut, i);
    assert forall k :: 0 <= k < |Offsets(p, cut, i)| ==> offsets[k] in Offsets(p, cut, i);
    LaterOffsets(p, cut, i, |p|);
    CountBelowIsIndex(offsets, |Offsets(p, cut, i)|, Addr(p, i));
  }

  lemma {:induction false} LaterOffsets(p: seq<Ins>, cut: seq<bool>, i: nat, n: nat)
    requires |cut| == |p| && i <= n <= |p|
    ensures Offsets(p, cut, i) <= Offsets(p, cut, n)
    ensures forall k :: |Offsets(p, cut, i)| <= k < |Offsets(p, cut, n)| ==> Addr(p, i) <= Offsets(p, cut, n)[k]
  {
    if i < n {
      LaterOffsets(p, cut, i, n - 1);
      AddrMonotone(p, i, n - 1);
    }
  }

  lemma StepAddress(p: seq<Ins>, cut: seq<bool>, i: nat)
    requires Shortenable(p, cut) && i < |p|
    ensures NewIndex(p, cut, i) <= NewIndex(p, cut, i + 1) <= |Shortened(p, cut)|
    ensures Addr(Shortened(p, cut), NewIndex(p, cut, i + 1)) ==
            Addr(Shortened(p, cut), NewIndex(p, cut, i)) + 1 + |p[i].arg|
            - (if cut[i] then LONG_TO_SHORT_REMOVE_COUNT else 0)
  {
    hide FetchAt, WellFormed;
    ShrunkPrefix(Fixed(p, cut), cut, |p|, i + 1);
    NewIndexIsLength(p, cut, i + 1);
    FixedInstruction(p, Offsets(p, cut, |p|), i);
    if !Dropped(p, cut, i) {
      InstructionAtNewIndex(p, cut, i);
    }
  }

  lemma {:induction false} ShortenedIsWellFormed(p: seq<Ins>, cut: seq<bool>, n: nat)
    requires Shortenable(p, cut) && n <= |p|
    ensures WellFormedProgram(ShrinkTo(Fixed(p, cut), cut, n))
  {
    hide FetchAt, WellFormed;
    if n > 0 {
      ShortenedIsWellFormed(p, cut, n - 1);
      FixedInstruction(p, Offsets(p, cut, |p|), n - 1);
      ShrunkInstructionIsWellFormed(Fixed(p, cut)[n - 1], cut[n - 1]);
    }
  }

  lemma ShrunkInstructionIsWellFormed(x: Ins, cut: bool)
    requires WellFormed(x)
    ensures WellFormedProgram(ShrinkIns(x, cut))
  {
    if cut && IsLongJump(x.op) && |x.arg| == 4 {
      var y := Ins(ToShortForm(x.op), x.arg[..1]);
      assert InsBytes(y)[0] == y.op;
    }
  }

  /** Distances between instruction boundaries keep their sign and never grow. */
  lemma {:induction false} DistanceShrinks(p: seq<Ins>, cut: seq<bool>, i: nat, j: nat)
    requires Shortenable(p, cut) && i <= j <= |p|
    ensures var offsets := Offsets(p, cut, |p|);
            0 <= Pos(offsets, Addr(p, j)) - Pos(offsets, Addr(p, i)) <= Addr(p, j) - Addr(p, i)
  {
    hide Shortenable, Offsets, Pos, Addr;
    if i < j {
      DistanceShrinks(p, cut, i, j - 1);
      OneStepShrinks(p, cut, j - 1);
    }
  }

  lemma OneStepShrinks(p: seq<Ins>, cut: seq<bool>, i: nat)
    requires Shortenable(p, cut) && i < |p|
    ensures var offsets := Offsets(p, cut, |p|);
            0 <= Pos(offsets, Addr(p, i + 1)) - Pos(offsets, Addr(p, i)) <= Addr(p, i + 1) - Addr(p, i)
  {
    hide FetchAt, WellFormed, Shortened, NewIndex, CountBelow, Offsets, Shortenable;
    NewAddress(p, cut, i + 1);
    NewAddress(p, cut, i);
    StepAddress(p, cut, i);
    MarkedIsLong(p, cut, i);
    assert Addr(p, i + 1) == Addr(p, i) + 1 + |p[i].arg|;
  }

  /** A marked instruction is longer than what is removed from it. */
  lemma MarkedIsLong(p: seq<Ins>, cut: seq<bool>, i: nat)
    requires Shortenable(p, cut) && i < |p|
    ensures cut[i] ==> 1 + |p[i].arg| >= LONG_TO_SHORT_REMOVE_COUNT
  {
    hide FetchAt, WellFormed;
    if cut[i] { ArgumentSize(p[i]); }
  }

  /** The distance between two boundaries after shortening, in both directions. */
  lemma NewDistance(p: seq<Ins>, cut: seq<bool>, i: nat, j: nat)
    requires Shortenable(p, cut) && i <= |p| && j <= |p|
    ensures NewIndex(p, cut, i) <= |Shortened(p, cut)| && NewIndex(p, cut, j) <= |Shortened(p, cut)|
    ensures var r, r' := Addr(p, j) - Addr(p, i), NewOffset(Offsets(p, cut, |p|), Addr(p, i), Addr(p, j) - Addr(p, i));
            && (IsInt8(r) ==> IsInt8(r')) && (IsInt32(r) ==> IsInt32(r'))
            && Addr(Shortened(p, cut), NewIndex(p, cut, i)) + r' == Addr(Shortened(p, cut), NewIndex(p, cut, j))
  {
    hide FetchAt, WellFormed, Shortened, FixTo, Offsets, Addr, NewIndex, CountBelow, Pos, Shortenable;
    if i <= j { DistanceShrinks(p, cut, i, j); } else { DistanceShrinks(p, cut, j, i); }
    NewAddress(p, cut, i);
    NewAddress(p, cut, j);
  }

  /** A jump, call, PUSHA or ENDTRY that led to boundary j leads to the image of j, in whichever form it now has. */
  lemma {:induction false} ReferencePreserved(p: seq<Ins>, cut: seq<bool>, i: nat, j: nat)
    requires MarkedFit(p, cut) && i < |p| && j <= |p| && HasOffset(p[i].op)
    requires Addr(p, i) + OffsetOf(p[i].arg) == Addr(p, j)
    ensures NewIndex(p, cut, i) < |Shortened(p, cut)| && NewIndex(p, cut, j) <= |Shortened(p, cut)|
    ensures var q, i' := Shortened(p, cut), NewIndex(p, cut, i);
            && q[i'].op == (if cut[i] then ToShortForm(p[i].op) else p[i].op)
            && (cut[i] ==> |q[i'].arg| == 1 && IsShortJump(q[i'].op))
            && Addr(q, i') + OffsetOf(q[i'].arg) == Addr(q, NewIndex(p, cut, j))
  {
    hide FetchAt, WellFormed, Shortened, FixTo, Offsets, LE32, Low8, Signed8, Signed32, Addr, NewIndex;
    ArgumentSize(p[i]);
    InstructionAtNewIndex(p, cut, i);
    FixedInstruction(p, Offsets(p, cut, |p|), i);
    FixToAt(p, Offsets(p, cut, |p|), |p|, i);
    NewDistance(p, cut, i, j);
    var r := NewOffset(Offsets(p, cut, |p|), Addr(p, i), Addr(p, j) - Addr(p, i));
    if IsInt8(r) {
      Signed8OfLow8(r);
      Signed8OfLE32(r);
    }
    Signed32OfLE32(r);
  }

  /** The two handler offsets of TRYL likewise lead to the images of their old targets. */
  lemma TryPreserved(p: seq<Ins>, cut: seq<bool>, i: nat, c: nat, d: nat)
    requires MarkedFit(p, cut) && i < |p| && c <= |p| && d <= |p| && p[i].op == TRYL && |p[i].arg| == 8
    requires Addr(p, i) + Signed32(p[i].arg[..4]) == Addr(p, c)
    requires Addr(p, i) + Signed32(p[i].arg[4..]) == Addr(p, d)
    ensures NewIndex(p, cut, i) < |Shortened(p, cut)|
    ensures NewIndex(p, cut, c) <= |Shortened(p, cut)| && NewIndex(p, cut, d) <= |Shortened(p, cut)|
    ensures var q, i' := Shortened(p, cut), NewIndex(p, cut, i);
            && q[i'].op == TRYL && |q[i'].arg| == 8
            && Addr(q, i') + Signed32(q[i'].arg[..4]) == Addr(q, NewIndex(p, cut, c))
            && Addr(q, i') + Signed32(q[i'].arg[4..]) == Addr(q, NewIndex(p, cut, d))
  {
    hide FetchAt, WellFormed, Shortened, FixTo, Offsets, LE32, Low8, Signed8, Signed32, Addr, NewIndex;
    InstructionAtNewIndex(p, cut, i);
    FixToAt(p, Offsets(p, cut, |p|), |p|, i);
    NewDistance(p, cut, i, c);
    NewDistance(p, cut, i, d);
    var offsets := Offsets(p, cut, |p|);
    var rc := NewOffset(offsets, Addr(p, i), Addr(p, c) - Addr(p, i));
    var rd := NewOffset(offsets, Addr(p, i), Addr(p, d) - Addr(p, i));
    Signed32OfLE32(rc);
    Signed32OfLE32(rd);
    assert (LE32(rc) + LE32(rd))[..4] == LE32(rc) && (LE32(rc) + LE32(rd))[4..] == LE32(rd);
  }

  /** Every other instruction is kept exactly as it was. */
  lemma {:induction false} PlainPreserved(p: seq<Ins>, cut: seq<bool>, i: nat)
    requires Shortenable(p, cut) && i < |p| && !HasOffset(p[i].op) && p[i].op != TRYL && !Dropped(p, cut, i)
    ensures NewIndex(p, cut, i) < |Shortened(p, cut)|
    ensures Shortened(p, cut)[NewIndex(p, cut, i)] == p[i]
  {
    hide FetchAt, WellFormed, Shortened, FixTo, Offsets, Addr, NewIndex;
    InstructionAtNewIndex(p, cut, i);
    FixToAt(p, Offsets(p, cut, |p|), |p|, i);
  }

  /** The bytes that the pass leaves disassemble to the shortened program. */
  lemma ShortenedBytesDecode(p: seq<Ins>, cut: seq<bool>)
    requires Shortenable(p, cut)
    ensures WellFormedProgram(Shortened(p, cut))
    ensures Disassemble(Encode(Shortened(p, cut)), 0) == Listing(Shortened(p, cut))
  {
    ShortenedIsWellFormed(p, cut, |p|);
    DisassembleEncode(Shortened(p, cut));
  }
}
