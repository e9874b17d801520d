/** The static checker accepts what the compiler produces. */
module FinalAcceptance {
  import opened Bytes
  import opened Opcodes
  import opened Context
  import opened Instructions
  import opened WriteJumps
  import opened Bytecode
  import opened FinalLayout
  import opened ScriptCheck
  import opened ScriptAcceptance

  /** A type parameter is an item type. */
  ghost predicate TypeOk(ins: Ins) {
    ins.op in {NEWARRAYT, ISTYPE, CONVERT} ==>
      exists t :: ins.arg == [TypeByte(t)] && (t == Any ==> ins.op == NEWARRAYT)
  }

  /** Labels are at instructions other than prologues, none behind the last one. */
  predicate LabelsAtInstructions(p: seq<Ins>, places: seq<int>) {
    forall x :: 0 <= x < |places| ==> 0 <= places[x] < |p| && p[places[x]].op != INITSLOT
  }

  lemma PlaceIsStart(p: seq<Ins>, places: seq<int>, counts: map<nat, nat>, x: nat)
    requires Linkable(p, places, counts) && LabelsAtInstructions(p, places) && x < |places|
    ensures var f, j := Final(p, places, counts), IndexOf(p, places, counts, places[x]);
            j < |f| && StartsAt(f, Addr(f, j))
  {
    hide Final, IndexOf, Linkable;
    Stays(p, places, counts, places[x]);
  }

  /** The one target of a jump, in either form. */
  lemma JumpTargets(f: seq<Ins>, j: nat)
    requires j < |f| && WellFormed(f[j]) && IsLongJump(LongForm(f[j].op))
    ensures Targets(f, j) == [Addr(f, j) + OffsetOf(f[j].arg)] && TypeOk(f[j])
  {
    hide FetchAt, WellFormed, Addr, Signed8, Signed32;
    ArgumentSize(f[j]);
  }

  lemma TryTargets(f: seq<Ins>, j: nat)
    requires j < |f| && f[j].op == TRYL && |f[j].arg| == 8
    ensures Targets(f, j) == [Addr(f, j) + Signed32(f[j].arg[..4]), Addr(f, j) + Signed32(f[j].arg[4..])]
    ensures TypeOk(f[j])
  {
    hide Addr, Signed32;
  }

  lemma NoTargets(f: seq<Ins>, j: nat)
    requires j < |f| && !IsShortJump(f[j].op) && !IsLongJump(f[j].op) && f[j].op !in {PUSHA, TRY, TRYL}
    ensures Targets(f, j) == []
  {}

  lemma PrologueOk(f: seq<Ins>, j: nat)
    requires j < |f| && f[j].op == INITSLOT
    ensures InstructionOk(f, j)
  {
    NoTargets(f, j);
  }

  /** What instruction i has become is in order. */
  lemma BecomesOk(p: seq<Ins>, places: seq<int>, counts: map<nat, nat>, i: nat)
    requires Linkable(p, places, counts) && LabelsAtInstructions(p, places)
    requires i < |p| && TypeOk(p[i]) && (p[i].op == INITSLOT ==> p[i].arg == [0, 0]) && !Vanishes(p, counts, i)
    requires IndexOf(p, places, counts, i) < |Final(p, places, counts)|
    ensures InstructionOk(Final(p, places, counts), IndexOf(p, places, counts, i))
  {
    hide Final, IndexOf, LabelsAtInstructions, StartsAt, TypeByte, Addr, OffsetOf, Signed32, U16, WellFormed, Targets,
         IsValid, CountAt;
    var f, j := Final(p, places, counts), IndexOf(p, places, counts, i);
    FinalFacts(p, places, counts);
    assert WellFormed(f[j]) && Labelled(p, places, i);
    if IsLongJump(p[i].op) {
      FinalJump(p, places, counts, i);
      JumpTargets(f, j);
      PlaceIsStart(p, places, counts, U16(p[i].arg[..2]));
    } else if p[i].op == TRYL {
      FinalTry(p, places, counts, i);
      TryTargets(f, j);
      PlaceIsStart(p, places, counts, U16(p[i].arg[..2]));
      PlaceIsStart(p, places, counts, U16(p[i].arg[4..6]));
    } else if p[i].op == INITSLOT {
      FinalPrologue(p, places, counts, i);
      PrologueOk(f, j);
    } else {
      FinalPlain(p, places, counts, i);
      NoTargets(f, j);
    }
  }

  /** The final script is accepted, whatever its methods, exactly if the method offsets are instruction starts. */
  lemma FinalAccepted(p: seq<Ins>, places: seq<int>, counts: map<nat, nat>, methods: Methods)
    requires Linkable(p, places, counts) && LabelsAtInstructions(p, places)
    requires forall i :: 0 <= i < |p| ==> TypeOk(p[i]) && (p[i].op == INITSLOT ==> p[i].arg == [0, 0])
    ensures var f := Final(p, places, counts); CheckVerdict(Encode(f), methods) == Correct <==> MethodsOk(f, methods)
  {
    hide Final, IndexOf, Linkable, LabelsAtInstructions, InstructionOk, MethodsOk, Encode, CheckVerdict, WellFormed,
         Vanishes, TypeOk;
    var f := Final(p, places, counts);
    FinalFacts(p, places, counts);
    LastIndex(p, places, counts);
    forall j | 0 <= j < |f| ensures InstructionOk(f, j) {
      var i := CameFrom(p, places, counts, |p|, j);
      BecomesOk(p, places, counts, i);
    }
    AcceptedExactly(f, methods);
  }
}
