/** Exactly which scripts the static checker accepts (pkg/vm/contract_checks.go, pkg/vm/stackitem/type.go). */
module ScriptAcceptance {
  import opened Bytes
  import opened Opcodes
  import opened Context
  import opened Instructions
  import opened ScriptCheck
  import opened ShorteningRun

  // ----- what a script must be -----

  datatype ItemType =
    | Any
    | Pointer
    | Boolean
    | Integer
    | ByteArray
    | Buffer
    | Array
    | Struct
    | Map
    | InteropInterface

  function TypeByte(t: ItemType): Byte {
    match t
    case Any => 0x00
    case Pointer => 0x10
    case Boolean => 0x20
    case Integer => 0x21
    case ByteArray => 0x28
    case Buffer => 0x30
    case Array => 0x40
    case Struct => 0x41
    case Map => 0x48
    case InteropInterface => 0x60
  }

  /** One of the instructions starts at x. */
  predicate StartsAt(p: seq<Ins>, x: int) { exists j :: 0 <= j < |p| && Addr(p, j) == x }

  /** Where a jump, a call, PUSHA or ENDTRY leads, and both blocks of TRY. */
  function Targets(p: seq<Ins>, i: nat): seq<int>
    requires i < |p|
  {
    var op, arg, ip := p[i].op, p[i].arg, Addr(p, i);
    if IsShortJump(op) && |arg| == 1 then [ip + Signed8(arg[0])]
    else if (IsLongJump(op) || op == PUSHA) && |arg| == 4 then [ip + Signed32(arg)]
    else if op == TRY && |arg| == 2 then [ip + Signed8(arg[0]), ip + Signed8(arg[1])]
    else if op == TRYL && |arg| == 8 then [ip + Signed32(arg[..4]), ip + Signed32(arg[4..])]
    else []
  }

  /** All targets are instructions, and type parameters are item types, Any only for a new array. */
  ghost predicate InstructionOk(p: seq<Ins>, i: nat)
    requires i < |p|
  {
    && (forall x :: x in Targets(p, i) ==> StartsAt(p, x))
    && (p[i].op in {NEWARRAYT, ISTYPE, CONVERT} ==>
          exists t :: p[i].arg == [TypeByte(t)] && (t == Any ==> p[i].op == NEWARRAYT))
  }

  /** Method offsets are instruction starts; the set of offsets may not be made for a longer script. */
  predicate MethodsOk(p: seq<Ins>, methods: Methods) {
    methods.Entries? ==>
      && methods.field.words <= (if p == [] then 1 else 1 + (Addr(p, |p|) - 1) / 64)
      && forall x :: x in methods.field.bits ==> StartsAt(p, x)
  }

  // ----- one instruction -----

  lemma {:induction false} RecordExactly(length: nat, targets: seq<int>)
    ensures Record(length, targets).Scanned? <==>
            forall t :: t in targets ==> 0 <= t <= length && NewField(length).Fits(t)
    ensures Record(length, targets).Scanned? ==>
              forall t: int :: t in targets <==> t >= 0 && t as nat in Record(length, targets).jumps
  {
    if targets != [] {
      var first, others := targets[0], targets[1..];
      RecordExactly(length, others);
      assert forall t :: t in targets <==> t == first || t in others;
      if Record(length, targets).Scanned? {
        assert Record(length, targets).jumps == {first as nat} + Record(length, others).jumps;
      } else if 0 <= first <= length && NewField(length).Fits(first) {
        assert !Record(length, others).Scanned?;
        var t :| t in others && !(0 <= t <= length && NewField(length).Fits(t));
        assert t in targets;
      } else {
        assert first in targets;
      }
    }
  }

  lemma InsideFits(length: nat, t: nat)
    requires t < length
    ensures NewField(length).Fits(t)
  {}

  lemma ItemTypes(op: Byte, arg: seq<Byte>)
    requires HasTypeParameter(op)
    ensures TypeParameterOk(op, arg) <==> exists t :: arg == [TypeByte(t)] && (t == Any ==> op == NEWARRAYT)
  {
    if TypeParameterOk(op, arg) {
      var x := arg[0];
      var t := if x == 0x00 then Any else if x == 0x10 then Pointer else if x == 0x20 then Boolean
               else if x == 0x21 then Integer else if x == 0x28 then ByteArray else if x == 0x30 then Buffer
               else if x == 0x40 then Array else if x == 0x41 then Struct else if x == 0x48 then Map
               else InteropInterface;
      assert arg == [TypeByte(t)];
    }
  }

  lemma TargetsAre(p: seq<Ins>, i: nat)
    requires i < |p| && WellFormed(p[i])
    ensures TargetsOf(Addr(p, i), p[i].op, p[i].arg) == Targets(p, i)
  {
    hide FetchAt, WellFormed, Addr, Signed8, Signed32;
    if p[i].op !in {PUSHDATA1, PUSHDATA2, PUSHDATA4} { ArgumentSize(p[i]); }
  }

  // ----- the scan of an encoded program -----

  /** The check of instruction k as the scan makes it. */
  function CheckAt(p: seq<Ins>, k: nat): Scan
    requires k < |p|
  {
    CheckInstruction(Addr(p, |p|), Addr(p, k), p[k].op, p[k].arg)
  }

  /** The scan from instruction i on found exactly what the instructions from i on are and refer to. */
  ghost predicate ScanIs(p: seq<Ins>, i: nat, r: Scan) {
    && (r.Scanned? <==> forall k :: i <= k < |p| ==> CheckAt(p, k).Scanned?)
    && (r.Scanned? ==>
          && (forall x :: x in r.starts <==> exists k :: i <= k < |p| && Addr(p, k) == x)
          && (forall x :: x in r.jumps <==> exists k :: i <= k < |p| && x in CheckAt(p, k).jumps))
  }

  lemma ScanOne(p: seq<Ins>, i: nat)
    requires i < |p| && WellFormed(p[i])
    ensures var r, rest := ScanFrom(Encode(p), Addr(p, i)), ScanFrom(Encode(p), Addr(p, i + 1));
            && (r.Scanned? <==> CheckAt(p, i).Scanned? && rest.Scanned?)
            && (r.Scanned? ==>
                  r.starts == {Addr(p, i)} + rest.starts && r.jumps == CheckAt(p, i).jumps + rest.jumps)
  {
    hide FetchAt, WellFormed, CheckInstruction;
    EncodeSplit(p, i);
    FetchInstruction(p, i);
    OperandSlice(Encode(p), Addr(p, i), p[i]);
    OperandOrArgument(Addr(p, |p|), Addr(p, i), p[i]);
  }

  /** A length prefix makes no difference to the check. */
  lemma OperandOrArgument(n: nat, ip: nat, ins: Ins)
    requires WellFormed(ins)
    ensures CheckInstruction(n, ip, ins.op, Operand(ins)) == CheckInstruction(n, ip, ins.op, ins.arg)
  {
    hide FetchAt, WellFormed, OffsetOf, TypeParameterOk;
    if ins.op !in {PUSHDATA1, PUSHDATA2, PUSHDATA4} { OperandIsArgument(ins); }
  }

  lemma {:induction false} ScanProgram(p: seq<Ins>, i: nat)
    requires WellFormedProgram(p) && i <= |p|
    ensures ScanIs(p, i, ScanFrom(Encode(p), Addr(p, i)))
    decreases |p| - i
  {
    hide FetchAt, WellFormed, ScanFrom, CheckAt;
    EncodedLength(p, |p|);
    assert p[..|p|] == p;
    if i == |p| {
      ScanAtEnd(Encode(p), Addr(p, i));
    } else {
      ScanProgram(p, i + 1);
      ScanOne(p, i);
      Widened(p, i, ScanFrom(Encode(p), Addr(p, i)), ScanFrom(Encode(p), Addr(p, i + 1)));
    }
  }

  lemma Widened(p: seq<Ins>, i: nat, r: Scan, rest: Scan)
    requires i < |p| && ScanIs(p, i + 1, rest)
    requires r.Scanned? <==> CheckAt(p, i).Scanned? && rest.Scanned?
    requires r.Scanned? ==> r.starts == {Addr(p, i)} + rest.starts && r.jumps == CheckAt(p, i).jumps + rest.jumps
    ensures ScanIs(p, i, r)
  {
    hide Addr, CheckAt;
    if r.Scanned? {
      forall k | i <= k < |p| ensures CheckAt(p, k).Scanned? {}
      forall x ensures x in r.starts <==> exists k :: i <= k < |p| && Addr(p, k) == x {
        if k :| i <= k < |p| && Addr(p, k) == x { assert k == i || x in rest.starts; }
        if x in rest.starts { assert exists k :: i + 1 <= k < |p| && Addr(p, k) == x; }
      }
      forall x ensures x in r.jumps <==> exists k :: i <= k < |p| && x in CheckAt(p, k).jumps {
        if k :| i <= k < |p| && x in CheckAt(p, k).jumps { assert k == i || x in rest.jumps; }
        if x in rest.jumps { assert exists k :: i + 1 <= k < |p| && x in CheckAt(p, k).jumps; }
      }
    }
  }

  // ----- acceptance -----

  /** Types are in order and targets are recorded, which they are if they are starts. */
  lemma CheckedAt(p: seq<Ins>, k: nat)
    requires k < |p| && WellFormed(p[k])
    ensures InstructionOk(p, k) <==> CheckAt(p, k).Scanned? && forall x :: x in CheckAt(p, k).jumps ==> StartsAt(p, x)
  {
    hide FetchAt, WellFormed, TypeParameterOk, TypeByte, Targets, TargetsOf, Record;
    TargetsAre(p, k);
    if HasTypeParameter(p[k].op) { ItemTypes(p[k].op, p[k].arg); }
    var ts, n := Targets(p, k), Addr(p, |p|);
    RecordExactly(n, ts);
    if forall x :: x in ts ==> StartsAt(p, x) {
      forall t | t in ts ensures 0 <= t <= n && NewField(n).Fits(t) {
        var j :| 0 <= j < |p| && Addr(p, j) == t;
        AddrMonotone(p, j, |p|);
        InsideFits(n, t);
      }
    }
  }

  /** The checker accepts an encoded program exactly if all its instructions and methods are in order. */
  lemma AcceptedExactly(p: seq<Ins>, methods: Methods)
    requires WellFormedProgram(p)
    ensures CheckVerdict(Encode(p), methods) == Correct <==>
            (forall i :: 0 <= i < |p| ==> InstructionOk(p, i)) && MethodsOk(p, methods)
  {
    hide FetchAt, WellFormed, ScanFrom, CheckAt, InstructionOk, MethodsOk, Encode;
    var b := Encode(p);
    var r := ScanFrom(b, 0);
    ScanProgram(p, 0);
    assert Addr(p, 0) == 0;
    forall k | 0 <= k < |p|
      ensures InstructionOk(p, k) <==> CheckAt(p, k).Scanned? && forall x :: x in CheckAt(p, k).jumps ==> StartsAt(p, x)
    {
      CheckedAt(p, k);
    }
    if r.Scanned? {
      forall x: nat ensures x in r.starts <==> StartsAt(p, x) {}
      JumpsOk(p, r);
      EntriesOk(p, methods, r);
    }
  }

  lemma JumpsOk(p: seq<Ins>, r: Scan)
    requires r.Scanned? && ScanIs(p, 0, r)
    ensures r.jumps <= r.starts <==>
              forall k :: 0 <= k < |p| ==> forall x :: x in CheckAt(p, k).jumps ==> StartsAt(p, x)
  {
    hide Addr, CheckAt;
    if r.jumps <= r.starts {
      forall k, x | 0 <= k < |p| && x in CheckAt(p, k).jumps ensures StartsAt(p, x) {
        assert x in r.jumps;
      }
    } else {
      var x :| x in r.jumps && x !in r.starts;
      var k :| 0 <= k < |p| && x in CheckAt(p, k).jumps;
      assert !StartsAt(p, x);
    }
  }

  lemma EntriesOk(p: seq<Ins>, methods: Methods, r: Scan)
    requires r.Scanned? && (forall x: nat :: x in r.starts <==> StartsAt(p, x))
    ensures MethodsOk(p, methods) <==>
            (methods.Entries? ==> methods.field.IsSubset(Field(NewField(|Encode(p)|).words, r.starts)))
  {
    hide Encode, StartsAt, Addr;
    EncodedLength(p, |p|);
    assert p[..|p|] == p;
    if p == [] { assert Addr(p, 0) == 0 by { EmptyAddress(p); } } else { AddrMonotone(p, 0, |p|); }
  }

  lemma EmptyAddress(p: seq<Ins>)
    ensures Addr(p, 0) == 0
  {}

  lemma {:induction false} UndecodableStops(b: seq<Byte>, ip: nat)
    requires ip <= |b| && Disassemble(b, ip).NotDecodable?
    ensures ScanFrom(b, ip).Stopped?
    decreases |b| - ip
  {
    hide FetchAt, CheckInstruction;
    var f := FetchAt(b, ip);
    if f.Fetched? { UndecodableStops(b, f.hi); }
  }

  /** The same for arbitrary bytes: what does not decode to the end is refused. */
  lemma AcceptedBytes(b: seq<Byte>, methods: Methods)
    ensures CheckVerdict(b, methods) == Correct <==>
            && Disassemble(b, 0).Listing?
            && var p := Disassemble(b, 0).instructions;
               (forall i :: 0 <= i < |p| ==> InstructionOk(p, i)) && MethodsOk(p, methods)
  {
    hide FetchAt, ScanFrom, InstructionOk, MethodsOk, Encode;
    if Disassemble(b, 0).Listing? {
      EncodeDisassemble(b, 0);
      assert b[0..] == b;
      AcceptedExactly(Disassemble(b, 0).instructions, methods);
    } else {
      UndecodableStops(b, 0);
    }
  }
}
