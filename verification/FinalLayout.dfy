/** Where each instruction of an emitted program is in the final script, and what its references lead to there. */
module FinalLayout {
  import opened Bytes
  import opened Opcodes
  import opened Context
  import opened Instructions
  import opened InPlace
  import opened JumpShortening
  import opened ShortenedProgram
  import opened ShorteningRun
  import opened WriteJumps
  import opened Bytecode
  import opened Machine
  import opened ControlLaws

  // ----- the final program -----

  /** The program after label resolution, and what is marked for shortening. */
  ghost function Resolved(p: seq<Ins>, places: seq<int>, counts: map<nat, nat>): (r: (seq<Ins>, seq<bool>))
    requires Linkable(p, places, counts)
    ensures |r.0| == |r.1| == |p|
  {
    LabelledResolves(p, places, counts, |p|);
    Resolve(p, Addresses(p, places), counts, |p|).value
  }

  /** The program that the compiler returns. */
  ghost function Final(p: seq<Ins>, places: seq<int>, counts: map<nat, nat>): seq<Ins>
    requires Linkable(p, places, counts)
  {
    Shortened(Resolved(p, places, counts).0, Resolved(p, places, counts).1)
  }

  /** Where instruction i of the emitted program is in it. */
  ghost function IndexOf(p: seq<Ins>, places: seq<int>, counts: map<nat, nat>, i: nat): nat
    requires Linkable(p, places, counts) && i <= |p|
  {
    NewIndex(Resolved(p, places, counts).0, Resolved(p, places, counts).1, i)
  }

  lemma FinalFacts(p: seq<Ins>, places: seq<int>, counts: map<nat, nat>)
    requires Linkable(p, places, counts)
    ensures var (q, cut) := Resolved(p, places, counts);
            && WellFormedProgram(p) && (forall k :: 0 <= k < |p| ==> p[k].op != TRY) && MarkedFit(q, cut)
            && WellFormedProgram(Final(p, places, counts))
  {
    hide FetchAt, WellFormed, Resolve, Addr, U16, Shortened;
    LabelledResolves(p, places, counts, |p|);
    forall i | 0 <= i < |p| ensures WellFormed(p[i]) && p[i].op != TRY {
      assert Labelled(p, places, i);
      SizedIsWellFormed(p[i]);
    }
    ResolvedIsShortenable(p, Addresses(p, places), counts);
    var (q, cut) := Resolved(p, places, counts);
    ShortenedBytesDecode(q, cut);
  }

  /** What resolution makes of one instruction. */
  lemma ResolvedIns(p: seq<Ins>, places: seq<int>, counts: map<nat, nat>, i: nat)
    requires Linkable(p, places, counts) && i < |p|
    ensures var (q, cut) := Resolved(p, places, counts);
            ResolveIns(p[i], Addr(p, i), Addresses(p, places), counts) == WriteJumps.Done((q[i], cut[i]))
  {
    hide ResolveIns, Addr;
    LabelledResolves(p, places, counts, |p|);
    ResolvedAt(p, Addresses(p, places), counts, |p|, i);
  }

  /** Only a prologue without variables and arguments vanishes. */
  predicate Vanishes(p: seq<Ins>, counts: map<nat, nat>, i: nat)
    requires i < |p|
  {
    p[i].op == INITSLOT && |p[i].arg| == 2 && p[i].arg[1] == 0 && CountAt(counts, Addr(p, i)) == 0
  }

  lemma NextIndex(p: seq<Ins>, places: seq<int>, counts: map<nat, nat>, i: nat)
    requires Linkable(p, places, counts) && i < |p|
    ensures var j := IndexOf(p, places, counts, i);
            && IndexOf(p, places, counts, i + 1) == (if Vanishes(p, counts, i) then j else j + 1)
            && IndexOf(p, places, counts, i + 1) <= |Final(p, places, counts)|
            && (!Vanishes(p, counts, i) ==> j < |Final(p, places, counts)|)
  {
    hide FetchAt, WellFormed, Shortened, Addr, U16, LabelOffset, LE32, Resolve, Shortenable;
    FinalFacts(p, places, counts);
    ResolvedIns(p, places, counts, i);
    var (q, cut) := Resolved(p, places, counts);
    assert Labelled(p, places, i);
    assert Dropped(q, cut, i) <==> Vanishes(p, counts, i);
    MarkedIsShortenable(q, cut);
    NewAddress(q, cut, i + 1);
    if !Dropped(q, cut, i) { InstructionAtNewIndex(q, cut, i); }
  }

  /** Anything but a prologue stays. */
  lemma Stays(p: seq<Ins>, places: seq<int>, counts: map<nat, nat>, i: nat)
    requires Linkable(p, places, counts) && i < |p| && p[i].op != INITSLOT
    ensures IndexOf(p, places, counts, i) < |Final(p, places, counts)|
    ensures IndexOf(p, places, counts, i + 1) == IndexOf(p, places, counts, i) + 1
    ensures WellFormedProgram(Final(p, places, counts))
  {
    hide Final, IndexOf, Linkable, WellFormed;
    FinalFacts(p, places, counts);
    NextIndex(p, places, counts, i);
  }

  lemma MarkedIsShortenable(q: seq<Ins>, cut: seq<bool>)
    requires MarkedFit(q, cut)
    ensures Shortenable(q, cut)
  {}

  lemma StartIndex(p: seq<Ins>, places: seq<int>, counts: map<nat, nat>)
    requires Linkable(p, places, counts)
    ensures IndexOf(p, places, counts, 0) == 0
  {}

  /** Every instruction of the final program is one of the emitted ones. */
  lemma {:induction false} CameFrom(p: seq<Ins>, places: seq<int>, counts: map<nat, nat>, n: nat, j: nat)
    returns (i: nat)
    requires Linkable(p, places, counts) && n <= |p| && j < IndexOf(p, places, counts, n)
    ensures i < n && !Vanishes(p, counts, i) && IndexOf(p, places, counts, i) == j
  {
    hide Final, Linkable, IndexOf, Vanishes;
    if n == 0 {
      StartIndex(p, places, counts);
    } else {
      NextIndex(p, places, counts, n - 1);
      if j < IndexOf(p, places, counts, n - 1) {
        i := CameFrom(p, places, counts, n - 1, j);
      } else {
        i := n - 1;
      }
    }
  }

  lemma LastIndex(p: seq<Ins>, places: seq<int>, counts: map<nat, nat>)
    requires Linkable(p, places, counts)
    ensures IndexOf(p, places, counts, |p|) == |Final(p, places, counts)|
  {
    hide FetchAt, WellFormed, Shortenable, Resolve;
    FinalFacts(p, places, counts);
    var (q, cut) := Resolved(p, places, counts);
    MarkedIsShortenable(q, cut);
    NewIndexIsLength(q, cut, |p|);
  }

  // ----- instructions in the final program -----

  /** An instruction without labels is there as it was written. */
  lemma FinalPlain(p: seq<Ins>, places: seq<int>, counts: map<nat, nat>, i: nat)
    requires Linkable(p, places, counts) && i < |p|
    requires !IsLongJump(p[i].op) && p[i].op != TRYL && p[i].op != INITSLOT
    ensures var j := IndexOf(p, places, counts, i);
            j < |Final(p, places, counts)| && Final(p, places, counts)[j] == p[i]
  {
    hide FetchAt, WellFormed, Shortened, Addr, U16, LabelOffset, Resolve, Shortenable;
    FinalFacts(p, places, counts);
    ResolvedIns(p, places, counts, i);
    assert Labelled(p, places, i);
    var (q, cut) := Resolved(p, places, counts);
    MarkedIsShortenable(q, cut);
    PlainPreserved(q, cut, i);
  }

  /** A prologue that stays has the number of local variables filled in. */
  lemma FinalPrologue(p: seq<Ins>, places: seq<int>, counts: map<nat, nat>, i: nat)
    requires Linkable(p, places, counts) && i < |p| && p[i] == Ins(INITSLOT, [0, 0])
    requires CountAt(counts, Addr(p, i)) > 0
    ensures var j := IndexOf(p, places, counts, i);
            && j < |Final(p, places, counts)|
            && Final(p, places, counts)[j] == Ins(INITSLOT, [CountAt(counts, Addr(p, i)), 0])
  {
    hide FetchAt, WellFormed, Shortened, Addr, U16, LabelOffset, Resolve, Shortenable;
    FinalFacts(p, places, counts);
    ResolvedIns(p, places, counts, i);
    var (q, cut) := Resolved(p, places, counts);
    MarkedIsShortenable(q, cut);
    PlainPreserved(q, cut, i);
  }

  /** A jump leads to the place of its label, in its long or its short form. */
  lemma FinalJump(p: seq<Ins>, places: seq<int>, counts: map<nat, nat>, i: nat)
    requires Linkable(p, places, counts) && i < |p| && IsLongJump(p[i].op) && |p[i].arg| == 4
    ensures var j, f, lab := IndexOf(p, places, counts, i), Final(p, places, counts), U16(p[i].arg[..2]);
            && lab < |places| && 0 <= places[lab] <= |p| && IndexOf(p, places, counts, places[lab]) <= |f|
            && j < |f| && LongForm(f[j].op) == p[i].op
            && Addr(f, j) + OffsetOf(f[j].arg) == Addr(f, IndexOf(p, places, counts, places[lab]))
  {
    hide FetchAt, WellFormed, Shortened, Addr, U16, Resolve, Shortenable, OffsetOf;
    FinalFacts(p, places, counts);
    assert Labelled(p, places, i);
    LabelledResolves(p, places, counts, |p|);
    LabelReachesItsTarget(p, Addresses(p, places), counts, i, places[U16(p[i].arg[..2])]);
    LongIsLong(p[i].op);
  }

  lemma LongIsLong(op: Byte)
    requires IsLongJump(op)
    ensures LongForm(op) == op
  {}

  /** So do the two handler offsets of TRYL. */
  lemma FinalTry(p: seq<Ins>, places: seq<int>, counts: map<nat, nat>, i: nat)
    requires Linkable(p, places, counts) && i < |p| && p[i].op == TRYL && |p[i].arg| == 8
    ensures var j, f, c, d := IndexOf(p, places, counts, i), Final(p, places, counts), U16(p[i].arg[..2]),
                              U16(p[i].arg[4..6]);
            && c < |places| && d < |places| && i <= places[c] <= |p| && i <= places[d] <= |p|
            && IndexOf(p, places, counts, places[c]) <= |f| && IndexOf(p, places, counts, places[d]) <= |f|
            && j < |f| && f[j].op == TRYL && |f[j].arg| == 8
            && Addr(f, j) + Signed32(f[j].arg[..4]) == Addr(f, IndexOf(p, places, counts, places[c]))
            && Addr(f, j) + Signed32(f[j].arg[4..]) == Addr(f, IndexOf(p, places, counts, places[d]))
  {
    hide FetchAt, WellFormed, Shortened, Addr, U16, Resolve, Shortenable, Signed32;
    FinalFacts(p, places, counts);
    assert Labelled(p, places, i);
    LabelledResolves(p, places, counts, |p|);
    TryLabelsReachTheirTargets(p, Addresses(p, places), counts, i, places[U16(p[i].arg[..2])],
                               places[U16(p[i].arg[4..6])]);
  }

  // ----- execution -----

  /** At the address of an instruction, and without a gas limit, the machine executes it. */
  lemma ExecutesIns(f: seq<Ins>, j: nat, cfg: Config, st: State)
    requires WellFormedProgram(f) && j < |f| && f[j].op !in {PUSHDATA1, PUSHDATA2, PUSHDATA4} && cfg.limit < 0
    requires st.Running? && st.frames != [] && st.frames[0].nextip == Addr(f, j)
    ensures Executes(Encode(f), cfg, st, f[j].op, f[j].arg, Addr(f, j + 1))
  {
    hide FetchAt, WellFormed, Encode, Coefficient;
    EncodeSplit(f, j);
    FetchInstruction(f, j);
    OperandSlice(Encode(f), Addr(f, j), f[j]);
    OperandIsArgument(f[j]);
  }

  /** Addresses of instructions are inside the script. */
  lemma AddressInside(f: seq<Ins>, j: nat)
    requires j <= |f|
    ensures 0 <= Addr(f, j) <= |Encode(f)|
  {
    AddrMonotone(f, j, |f|);
    EncodedLength(f, |f|);
    assert f[..|f|] == f;
  }
}
