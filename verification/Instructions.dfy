/** Scripts as instruction lists: encoding, addresses, and the linear disassembly that inverts it. */
module Instructions {
  import opened Bytes
  import opened Opcodes
  import opened Context

  /** One instruction; arg holds every byte after the opcode, including a PUSHDATA length prefix. */
  datatype Ins = Ins(op: Byte, arg: seq<Byte>)

  function InsBytes(ins: Ins): seq<Byte> { [ins.op] + ins.arg }

  predicate WellFormed(ins: Ins) {
    var f := FetchAt(InsBytes(ins), 0);
    f.Fetched? && f.hi == 1 + |ins.arg|
  }

  lemma ArgumentSize(ins: Ins)
    requires WellFormed(ins) && ins.op !in {PUSHDATA1, PUSHDATA2, PUSHDATA4}
    ensures |ins.arg| == ParameterSize(ins.op)
  {}

  predicate WellFormedProgram(p: seq<Ins>) { forall i :: 0 <= i < |p| ==> WellFormed(p[i]) }

  function Encode(p: seq<Ins>): seq<Byte> {
    if p == [] then [] else Encode(p[..|p| - 1]) + InsBytes(p[|p| - 1])
  }

  /** Offset of the first byte of instruction i; Addr(p, |p|) is the script's length. */
  function Addr(p: seq<Ins>, i: nat): nat
    requires i <= |p|
  {
    if i == 0 then 0 else Addr(p, i - 1) + 1 + |p[i - 1].arg|
  }

  lemma {:induction false} EncodeAppend(p: seq<Ins>, q: seq<Ins>)
    ensures Encode(p + q) == Encode(p) + Encode(q)
  {
    if q == [] {
      assert p + q == p;
    } else {
      var q' := q[..|q| - 1];
      var last := InsBytes(q[|q| - 1]);
      EncodeAppend(p, q');
      assert (p + q)[..|p + q| - 1] == p + q';
      assert Encode(p + q) == Encode(p) + Encode(q') + last;
      assert Encode(p) + Encode(q') + last == Encode(p) + (Encode(q') + last);
    }
  }

  lemma EncodeCons(ins: Ins, rest: seq<Ins>)
    ensures Encode([ins] + rest) == InsBytes(ins) + Encode(rest)
  {
    EncodeAppend([ins], rest);
    assert [ins][..0] == [];
    assert Encode([ins]) == [] + InsBytes(ins) == InsBytes(ins);
  }

  lemma {:induction false} EncodedLength(p: seq<Ins>, i: nat)
    requires i <= |p|
    ensures |Encode(p[..i])| == Addr(p, i)
  {
    if i > 0 {
      EncodedLength(p, i - 1);
      assert p[..i][..i - 1] == p[..i - 1];
    }
  }

  lemma {:induction false} AddrMonotone(p: seq<Ins>, i: nat, j: nat)
    requires i <= j <= |p|
    ensures Addr(p, i) + (j - i) <= Addr(p, j)
  {
    if i < j { AddrMonotone(p, i, j - 1); }
  }

  lemma {:induction false} AddrDependsOnSizes(p: seq<Ins>, q: seq<Ins>, i: nat)
    requires i <= |p| && i <= |q|
    requires forall j :: 0 <= j < i ==> |p[j].arg| == |q[j].arg|
    ensures Addr(p, i) == Addr(q, i)
  {
    if i > 0 { AddrDependsOnSizes(p, q, i - 1); }
  }

  lemma EncodeUpTo(p: seq<Ins>, i: nat)
    requires i < |p|
    ensures Encode(p[..i + 1]) == Encode(p[..i]) + InsBytes(p[i])
  {
    assert p[..i + 1][..i] == p[..i];
  }

  /** The encoding around instruction i. */
  lemma EncodeSplit(p: seq<Ins>, i: nat)
    requires i < |p|
    ensures Encode(p) == Encode(p[..i]) + InsBytes(p[i]) + Encode(p[i + 1..])
    ensures |Encode(p[..i])| == Addr(p, i)
    ensures Addr(p, i + 1) == Addr(p, i) + 1 + |p[i].arg| <= |Encode(p)| == Addr(p, |p|)
  {
    EncodedLength(p, i);
    EncodedLength(p, |p|);
    AddrMonotone(p, i + 1, |p|);
    EncodeUpTo(p, i);
    hide Encode, InsBytes;
    assert p[..|p|] == p;
    assert p == p[..i + 1] + p[i + 1..];
    EncodeAppend(p[..i + 1], p[i + 1..]);
  }

  /** Fetching at the address of instruction i yields that instruction. */
  lemma FetchInstruction(p: seq<Ins>, i: nat)
    requires i < |p| && WellFormed(p[i])
    ensures Addr(p, i + 1) <= |Encode(p)|
    ensures var f := FetchAt(Encode(p), Addr(p, i));
            f.Fetched? && f.op == p[i].op && f.hi == Addr(p, i + 1)
            && f.lo == Addr(p, i) + FetchAt(InsBytes(p[i]), 0).lo
    ensures Encode(p)[Addr(p, i) + 1..Addr(p, i + 1)] == p[i].arg
  {
    EncodeSplit(p, i);
    FetchIsLocal(Encode(p[..i]), InsBytes(p[i]), Encode(p[i + 1..]));
  }

  datatype Listing = Listing(instructions: seq<Ins>) | NotDecodable

  /** Linear disassembly from offset ip, the reference meaning of a byte script. */
  function Disassemble(b: seq<Byte>, ip: nat): Listing
    requires ip <= |b|
    decreases |b| - ip
  {
    match FetchAt(b, ip)
    case AtEnd => Listing([])
    case Malformed => NotDecodable
    case Fetched(op, lo, hi) =>
      match Disassemble(b, hi)
      case NotDecodable => NotDecodable
      case Listing(rest) => Listing([Ins(op, b[ip + 1..hi])] + rest)
  }

  lemma DisassembleStep(p: seq<Ins>, i: nat)
    requires WellFormedProgram(p) && i < |p|
    requires Addr(p, i + 1) <= |Encode(p)| && Disassemble(Encode(p), Addr(p, i + 1)) == Listing(p[i + 1..])
    ensures Disassemble(Encode(p), Addr(p, i)) == Listing(p[i..])
  {
    hide FetchAt;
    FetchInstruction(p, i);
    var b := Encode(p);
    var rest := p[i + 1..];
    assert Disassemble(b, Addr(p, i)) == Listing([Ins(p[i].op, b[Addr(p, i) + 1..Addr(p, i + 1)])] + rest);
    assert p[i..] == [p[i]] + rest;
  }

  lemma {:induction false} DisassembleFrom(p: seq<Ins>, i: nat)
    requires WellFormedProgram(p) && i <= |p|
    ensures Addr(p, i) <= |Encode(p)|
    ensures Disassemble(Encode(p), Addr(p, i)) == Listing(p[i..])
    decreases |p| - i
  {
    EncodedLength(p, |p|);
    assert p[..|p|] == p;
    AddrMonotone(p, i, |p|);
    if i < |p| {
      DisassembleFrom(p, i + 1);
      DisassembleStep(p, i);
    }
  }

  /** Disassembling an encoded program gives the program back. */
  lemma DisassembleEncode(p: seq<Ins>)
    requires WellFormedProgram(p)
    ensures Disassemble(Encode(p), 0) == Listing(p)
  {
    DisassembleFrom(p, 0);
    assert p[0..] == p;
  }

  lemma SliceOfSlice(b: seq<Byte>, lo: nat, hi: nat, i: nat, j: nat)
    requires i <= j && lo + j <= hi <= |b|
    ensures b[lo..hi][i..j] == b[lo + i..lo + j]
  {
    var s, t := b[lo..hi][i..j], b[lo + i..lo + j];
    assert forall k :: 0 <= k < j - i ==> s[k] == b[lo..hi][i + k] == t[k];
  }

  /** A decoded instruction is well formed on its own. */
  lemma FetchedIsWellFormed(b: seq<Byte>, ip: nat)
    requires FetchAt(b, ip).Fetched?
    ensures WellFormed(Ins(b[ip], b[ip + 1..FetchAt(b, ip).hi]))
  {
    var f := FetchAt(b, ip);
    var arg := b[ip + 1..f.hi];
    var own := InsBytes(Ins(b[ip], arg));
    assert own == b[ip..f.hi];
    assert own[0] == b[ip];
    if f.op == PUSHDATA1 {
      assert own[1] == b[ip + 1];
    } else if f.op == PUSHDATA2 {
      SliceOfSlice(b, ip, f.hi, 1, 3);
    } else if f.op == PUSHDATA4 {
      SliceOfSlice(b, ip, f.hi, 1, 5);
    }
  }

  /** Encoding what a script disassembles to gives the script back. */
  lemma {:induction false} EncodeDisassemble(b: seq<Byte>, ip: nat)
    requires ip <= |b| && Disassemble(b, ip).Listing?
    ensures WellFormedProgram(Disassemble(b, ip).instructions)
    ensures Encode(Disassemble(b, ip).instructions) == b[ip..]
    decreases |b| - ip
  {
    hide FetchAt;
    var f := FetchAt(b, ip);
    if f.Fetched? {
      EncodeDisassemble(b, f.hi);
      FetchedIsWellFormed(b, ip);
      EncodeCons(Ins(f.op, b[ip + 1..f.hi]), Disassemble(b, f.hi).instructions);
      assert b[ip..] == ([b[ip]] + b[ip + 1..f.hi]) + b[f.hi..];
    }
  }
}
