/** The instruction decoder: pkg/vm/context.go. */
module Context {
  import opened Bytes
  import opened Opcodes

  /** Outcome of decoding at one offset: the parameter is bytes lo..hi and the next instruction starts at hi. */
  datatype Fetch =
    | Fetched(op: Byte, lo: nat, hi: nat)
    | AtEnd
    | Malformed

  function FetchWithSize(b: seq<Byte>, op: Byte, lo: nat, size: nat): (f: Fetch) {
    if lo + size <= |b| then Fetched(op, lo, lo + size) else Malformed
  }

  function FetchAt(b: seq<Byte>, ip: nat): (f: Fetch)
    ensures f.Fetched? ==> ip < |b| && f.op == b[ip] && ip < f.lo <= f.hi <= |b|
    ensures f.AtEnd? <==> |b| <= ip
  {
    if |b| <= ip then AtEnd
    else
      var op := b[ip];
      if !IsValid(op) then Malformed
      else if op == PUSHDATA1 then
        if ip + 2 <= |b| then FetchWithSize(b, op, ip + 2, b[ip + 1]) else Malformed
      else if op == PUSHDATA2 then
        if ip + 3 <= |b| then FetchWithSize(b, op, ip + 3, U16(b[ip + 1..ip + 3])) else Malformed
      else if op == PUSHDATA4 then
        if ip + 5 <= |b| && U32(b[ip + 1..ip + 5]) <= MAX_ITEM_SIZE
        then FetchWithSize(b, op, ip + 5, U32(b[ip + 1..ip + 5])) else Malformed
      else FetchWithSize(b, op, ip + 1, ParameterSize(op))
  }

  /** How wide the operand of an instruction is, told by the number of its opcode. */
  lemma OperandWidths(b: seq<Byte>, ip: nat)
    requires FetchAt(b, ip).Fetched? && b[ip] !in {0x0C, 0x0D, 0x0E}
    ensures var op, width := b[ip], FetchAt(b, ip).hi - ip - 1;
            && FetchAt(b, ip).lo == ip + 1
            && (op <= 0x05 ==> width == [1, 2, 4, 8, 16, 32][op])
            && (0x22 <= op <= 0x35 ==> width == if op % 2 == 0 then 1 else 4)
            && (0x3B <= op <= 0x3E ==> width == [2, 8, 1, 4][op - 0x3B])
            && (op in {0x0A, 0x41} ==> width == 4) && (op in {0x37, 0x57} ==> width == 2)
            && (op in {0x56, 0x5F, 0x67, 0x6F, 0x77, 0x7F, 0x87, 0xC4, 0xD9, 0xDB} ==> width == 1)
            && (width > 0 ==>
                  || op <= 0x05 || 0x22 <= op <= 0x35 || 0x3B <= op <= 0x3E || op in {0x0A, 0x37, 0x41, 0x56, 0x57}
                  || op in {0x5F, 0x67, 0x6F, 0x77, 0x7F, 0x87, 0xC4, 0xD9, 0xDB})
  {}

  /** The operand of PUSHDATA is as long as the number before it says. */
  lemma PushDataWidths(b: seq<Byte>, ip: nat)
    requires FetchAt(b, ip).Fetched?
    ensures var lo, width := FetchAt(b, ip).lo, FetchAt(b, ip).hi - FetchAt(b, ip).lo;
            && (b[ip] == 0x0C ==> lo == ip + 2 && width == b[ip + 1])
            && (b[ip] == 0x0D ==> lo == ip + 3 && width == b[ip + 1] as int + 0x100 * b[ip + 2] as int)
            && (b[ip] == 0x0E ==>
                  && lo == ip + 5 && width <= 1048576
                  && width == b[ip + 1] as int + 0x100 * b[ip + 2] as int + 0x1_0000 * b[ip + 3] as int
                              + 0x100_0000 * b[ip + 4] as int)
  {}

  /** A fetch looks at nothing but the instruction's own bytes. */
  lemma FetchIsLocal(pre: seq<Byte>, code: seq<Byte>, post: seq<Byte>)
    requires FetchAt(code, 0).Fetched? && FetchAt(code, 0).hi == |code|
    ensures FetchAt(pre + code + post, |pre|) ==
            Fetched(code[0], |pre| + FetchAt(code, 0).lo, |pre| + |code|)
  {
    var b := pre + code + post;
    var n := |pre|;
    var op := code[0];
    assert b[n] == op;
    if op == PUSHDATA1 {
      assert b[n + 1] == code[1];
    } else if op == PUSHDATA2 {
      assert b[n + 1..n + 3] == code[1..3];
    } else if op == PUSHDATA4 {
      assert b[n + 1..n + 5] == code[1..5];
    }
  }

  /** A cursor over a script. Parameters alias the script, so Next reports where they are, not copies. */
  class Cursor {
    const prog: array<Byte>
    var ip: nat
    var nextip: nat

    constructor (b: array<Byte>, pos: nat)
      ensures prog == b && nextip == pos
    {
      prog := b;
      ip := 0;
      nextip := pos;
    }

    method Next() returns (f: Fetch)
      modifies this
      ensures ip == old(nextip) && f == FetchAt(prog[..], ip)
      ensures f.Fetched? ==> nextip == f.hi
      ensures f.AtEnd? ==> nextip == ip
    {
      ip := nextip;
      if ip >= prog.Length { return AtEnd; }
      var op := prog[ip];
      if !IsValid(op) { return Malformed; }
      nextip := nextip + 1;
      var numtoread: nat;
      if op == PUSHDATA1 {
        if nextip >= prog.Length { return Malformed; }
        numtoread := prog[nextip];
        nextip := nextip + 1;
      } else if op == PUSHDATA2 {
        if nextip + 1 >= prog.Length { return Malformed; }
        numtoread := U16(prog[nextip..nextip + 2]);
        nextip := nextip + 2;
      } else if op == PUSHDATA4 {
        if nextip + 3 >= prog.Length { return Malformed; }
        var n := U32(prog[nextip..nextip + 4]);
        if n > MAX_ITEM_SIZE { return Malformed; }
        numtoread := n;
        nextip := nextip + 4;
      } else {
        numtoread := ParameterSize(op);
        if numtoread == 0 { return Fetched(op, nextip, nextip); }
      }
      if nextip + numtoread - 1 >= prog.Length { return Malformed; }
      nextip := nextip + numtoread;
      return Fetched(op, nextip - numtoread, nextip);
    }
  }
}
