/** Variable-length integers and byte strings in binary streams (pkg/io/binaryReader.go, pkg/io/binaryWriter.go). */
module BinaryIO {
  import opened Bytes

  const MAX_ARRAY_SIZE := 0x1000000
  const MAX_UINT64 := 0xFFFF_FFFF_FFFF_FFFF

  datatype Read<T> = Got(value: T, rest: seq<Byte>) | Failed

  // ----- fixed width -----

  function Pow256(n: nat): nat { if n == 0 then 1 else 256 * Pow256(n - 1) }

  lemma Widths()
    ensures Pow256(1) == 0x100 && Pow256(2) == 0x1_0000 && Pow256(4) == 0x1_0000_0000 && Pow256(8) == MAX_UINT64 + 1
  {
    assert Pow256(3) == 0x100_0000;
    assert Pow256(5) == 0x100_0000_0000;
    assert Pow256(6) == 0x1_0000_0000_0000;
    assert Pow256(7) == 0x100_0000_0000_0000;
  }

  function LittleEndian(v: nat, n: nat): (s: seq<Byte>)
    ensures |s| == n
    decreases n
  {
    if n == 0 then [] else [v % 256] + LittleEndian(v / 256, n - 1)
  }

  function FromLittleEndian(s: seq<Byte>): nat {
    if s == [] then 0 else s[0] + 256 * FromLittleEndian(s[1..])
  }

  lemma {:induction false} LittleEndianRoundTrip(v: nat, n: nat)
    requires v < Pow256(n)
    ensures FromLittleEndian(LittleEndian(v, n)) == v
    decreases n
  {
    if n > 0 {
      var s := LittleEndian(v, n);
      assert s[1..] == LittleEndian(v / 256, n - 1);
      LittleEndianRoundTrip(v / 256, n - 1);
    }
  }

  /** The least significant byte comes first: what a number does not need is zero behind it. */
  lemma {:induction false} LowBytesFirst(v: nat, n: nat, i: nat)
    requires i <= n && v < Pow256(i)
    ensures LittleEndian(v, n) == LittleEndian(v, i) + seq(n - i, _ => 0)
    decreases n
  {
    if i == 0 {
      if n > 0 { LowBytesFirst(0, n - 1, 0); }
    } else {
      LowBytesFirst(v / 256, n - 1, i - 1);
    }
  }

  function TakeBytes(data: seq<Byte>, n: nat): Read<seq<Byte>> {
    if n <= |data| then Got(data[..n], data[n..]) else Failed
  }

  function TakeNumber(data: seq<Byte>, n: nat): Read<nat> {
    if n <= |data| then Got(FromLittleEndian(data[..n]), data[n..]) else Failed
  }

  lemma TakeNumberBack(v: nat, n: nat, rest: seq<Byte>)
    requires v < Pow256(n)
    ensures TakeNumber(LittleEndian(v, n) + rest, n) == Got(v, rest)
  {
    LittleEndianRoundTrip(v, n);
    assert (LittleEndian(v, n) + rest)[..n] == LittleEndian(v, n);
    assert (LittleEndian(v, n) + rest)[n..] == rest;
  }

  // ----- variable width -----

  function VarUint(v: nat): (s: seq<Byte>)
    ensures |s| > 0
  {
    if v < 0xfd then [v]
    else if v < 0xFFFF then [0xfd] + LittleEndian(v, 2)
    else if v < 0xFFFF_FFFF then [0xfe] + LittleEndian(v, 4)
    else [0xff] + LittleEndian(v, 8)
  }

  function TakeVarUint(data: seq<Byte>): (r: Read<nat>)
    ensures r.Got? ==> |r.rest| < |data|
  {
    if data == [] then Failed
    else if data[0] == 0xfd then TakeNumber(data[1..], 2)
    else if data[0] == 0xfe then TakeNumber(data[1..], 4)
    else if data[0] == 0xff then TakeNumber(data[1..], 8)
    else Got(data[0], data[1..])
  }

  /** How wide a number becomes: the largest number of two and of four bytes already takes the next width. */
  lemma VarUintWidth(v: nat)
    requires v <= MAX_UINT64
    ensures |VarUint(v)| == 1 <==> v <= 252
    ensures |VarUint(v)| == 3 <==> 253 <= v <= 65534
    ensures |VarUint(v)| == 5 <==> 65535 <= v <= 4294967294
    ensures |VarUint(v)| == 9 <==> 4294967295 <= v
  {}

  /** What the size estimate of pkg/io/size.go takes a number to be. */
  function EstimatedSize(v: nat): nat { if v < 0xFD then 1 else if v <= 0xFFFF then 3 else 5 }

  /** The estimate is what is written except at 65535 and from 4294967295 on, where it is too low. */
  lemma EstimateIsExact(v: nat)
    requires v <= MAX_UINT64
    ensures EstimatedSize(v) == |VarUint(v)| <==> v != 0xFFFF && v < 0xFFFF_FFFF
    ensures EstimatedSize(v) <= |VarUint(v)|
  {}

  /** Every width comes back, with what follows left unread. */
  lemma VarUintRoundTrip(v: nat, rest: seq<Byte>)
    requires v <= MAX_UINT64
    ensures TakeVarUint(VarUint(v) + rest) == Got(v, rest)
  {
    hide FromLittleEndian, LittleEndian, TakeNumber, Pow256;
    Widths();
    var data := VarUint(v) + rest;
    if v < 0xfd {
      assert data[1..] == rest;
    } else if v < 0xFFFF {
      assert data[1..] == LittleEndian(v, 2) + rest;
      TakeNumberBack(v, 2, rest);
    } else if v < 0xFFFF_FFFF {
      assert data[1..] == LittleEndian(v, 4) + rest;
      TakeNumberBack(v, 4, rest);
    } else {
      assert data[1..] == LittleEndian(v, 8) + rest;
      TakeNumberBack(v, 8, rest);
    }
  }

  /** Byte strings with their length, limited on reading. */
  function VarBytes(b: seq<Byte>): (s: seq<Byte>)
    ensures |s| > |b|
  {
    VarUint(|b|) + b
  }

  function TakeVarBytes(data: seq<Byte>): (r: Read<seq<Byte>>)
    ensures r.Got? ==> |r.rest| < |data|
  {
    var n := TakeVarUint(data);
    if n.Failed? || n.value > MAX_ARRAY_SIZE then Failed else TakeBytes(n.rest, n.value)
  }

  /** A byte string comes back if it is not longer than the limit, and is refused otherwise. */
  lemma VarBytesRoundTrip(b: seq<Byte>, rest: seq<Byte>)
    requires |b| <= MAX_UINT64
    ensures TakeVarBytes(VarBytes(b) + rest) == if |b| <= MAX_ARRAY_SIZE then Got(b, rest) else Failed
  {
    hide VarUint, TakeVarUint;
    assert VarBytes(b) + rest == VarUint(|b|) + (b + rest);
    VarUintRoundTrip(|b|, b + rest);
    assert (b + rest)[..|b|] == b && (b + rest)[|b|..] == rest;
  }

  // ----- the stream objects -----

  /** A writer to a buffer, with the scratch space for numbers. */
  class BinWriter {
    var out: seq<Byte>
    const uv: array<Byte>

    ghost predicate Valid()
      reads this
    {
      uv.Length == 9
    }

    constructor ()
      ensures Valid() && out == [] && fresh(uv)
    {
      out := [];
      uv := new Byte[9](_ => 0);
    }

    method WriteBytes(b: seq<Byte>)
      modifies this`out
      ensures out == old(out) + b
    {
      out := out + b;
    }

    /** Fills n bytes of the scratch space from place at on. */
    method PutNumber(at: nat, v: nat, n: nat)
      requires Valid() && at + n <= 9
      modifies uv
      ensures uv[at..at + n] == LittleEndian(v, n) && uv[..at] == old(uv[..at])
    {
      var left := v;
      for i := 0 to n
        invariant uv[at..at + i] + LittleEndian(left, n - i) == LittleEndian(v, n)
        invariant uv[..at] == old(uv[..at])
      {
        ghost var done := uv[at..at + i];
        ghost var more := LittleEndian(left, n - i);
        uv[at + i] := left % 256;
        assert uv[at..at + i + 1] == done + [left % 256];
        assert more == [left % 256] + LittleEndian(left / 256, n - i - 1);
        assert done + [left % 256] + LittleEndian(left / 256, n - i - 1) == done + more;
        left := left / 256;
      }
      assert uv[at..at + n] + LittleEndian(left, 0) == uv[at..at + n];
    }

    method PutVarUint(v: nat) returns (n: nat)
      requires Valid()
      modifies uv
      ensures n <= 9 && uv[..n] == VarUint(v)
    {
      hide LittleEndian;
      if v < 0xfd {
        uv[0] := v;
        n := 1;
      } else if v < 0xFFFF {
        uv[0] := 0xfd;
        PutNumber(1, v, 2);
        n := 3;
      } else if v < 0xFFFF_FFFF {
        uv[0] := 0xfe;
        PutNumber(1, v, 4);
        n := 5;
      } else {
        uv[0] := 0xff;
        PutNumber(1, v, 8);
        n := 9;
      }
      assert uv[..n] == uv[..1] + uv[1..n];
    }

    method WriteVarUint(v: nat)
      requires Valid()
      modifies this`out, uv
      ensures out == old(out) + VarUint(v)
    {
      var n := PutVarUint(v);
      WriteBytes(uv[..n]);
    }

    method WriteVarBytes(b: seq<Byte>)
      requires Valid()
      modifies this`out, uv
      ensures out == old(out) + VarBytes(b)
    {
      WriteVarUint(|b|);
      WriteBytes(b);
      assert out == old(out) + VarUint(|b|) + b;
    }
  }

  /** A reader whose first error stays; after it nothing more is read. */
  class BinReader {
    var unread: seq<Byte>
    var err: bool

    constructor (data: seq<Byte>)
      ensures unread == data && !err
    {
      unread, err := data, false;
    }

    method ReadBytes(n: nat) returns (b: seq<Byte>)
      modifies this
      ensures old(err) ==> err && unread == old(unread)
      ensures !old(err) ==> match TakeBytes(old(unread), n)
                            case Got(v, rest) => !err && b == v && unread == rest
                            case Failed => err
      ensures |unread| <= |old(unread)|
    {
      b := [];
      if !err {
        if n <= |unread| {
          b, unread := unread[..n], unread[n..];
        } else {
          err := true;
          unread := [];
        }
      }
    }

    method ReadNumber(n: nat) returns (v: nat)
      modifies this
      ensures old(err) ==> err && v == 0 && unread == old(unread)
      ensures !old(err) ==> match TakeNumber(old(unread), n)
                            case Got(w, rest) => !err && v == w && unread == rest
                            case Failed => err && v == 0
      ensures |unread| <= |old(unread)|
    {
      var b := ReadBytes(n);
      v := if err then 0 else FromLittleEndian(b);
    }

    method ReadVarUint() returns (v: nat)
      modifies this
      ensures old(err) ==> err && v == 0 && unread == old(unread)
      ensures !old(err) ==> match TakeVarUint(old(unread))
                            case Got(w, rest) => !err && v == w && unread == rest
                            case Failed => err
      ensures |unread| <= |old(unread)|
    {
      if err {
        return 0;
      }
      ghost var data := unread;
      var b := ReadNumber(1);
      if err {
        return 0;
      }
      OneByte(data);
      if b == 0xfd {
        v := ReadNumber(2);
      } else if b == 0xfe {
        v := ReadNumber(4);
      } else if b == 0xff {
        v := ReadNumber(8);
      } else {
        v := b;
      }
    }

    method ReadVarBytes() returns (b: seq<Byte>)
      modifies this
      ensures old(err) ==> err && unread == old(unread)
      ensures !old(err) ==> match TakeVarBytes(old(unread))
                            case Got(v, rest) => !err && b == v && unread == rest
                            case Failed => err
      ensures |unread| <= |old(unread)|
    {
      var n := ReadVarUint();
      if n > MAX_ARRAY_SIZE {
        err := true;
        return [];
      }
      b := ReadBytes(n);
    }
  }

  lemma OneByte(data: seq<Byte>)
    requires data != []
    ensures TakeNumber(data, 1) == Got(data[0], data[1..])
  {
    assert data[..1] == [data[0]];
    assert FromLittleEndian([data[0]][1..]) == 0;
  }
}
