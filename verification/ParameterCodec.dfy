/** Binary form of nested contract parameters (pkg/smartcontract/parameter.go). */
module ParameterCodec {
  import opened Common
  import opened Bytes
  import opened BinaryIO

  const ANY: Byte := 0x00
  const BOOL: Byte := 0x10
  const INTEGER: Byte := 0x11
  const BYTE_ARRAY: Byte := 0x12
  const STRING: Byte := 0x13
  const HASH160: Byte := 0x14
  const HASH256: Byte := 0x15
  const PUBLIC_KEY: Byte := 0x16
  const SIGNATURE: Byte := 0x17
  const ARRAY: Byte := 0x20
  const MAP: Byte := 0x22
  const INTEROP_INTERFACE: Byte := 0x30

  predicate IsByteString(t: Byte) { t == BYTE_ARRAY || t == PUBLIC_KEY || t == SIGNATURE }

  /** A parameter; byte strings may be nil. */
  datatype Parameter =
    | AnyValue
    | Interop
    | Bool(b: bool)
    | Integer(n: int)
    | ByteString(t: Byte, v: Option<seq<Byte>>)
    | Str(s: seq<Byte>)
    | Hash160(h: seq<Byte>)
    | Hash256(h: seq<Byte>)
    | Array(elems: seq<Parameter>)
    | Map(pairs: seq<Pair>)

  datatype Pair = Pair(key: Parameter, value: Parameter)

  predicate IsInt64(n: int) { -0x8000_0000_0000_0000 <= n < 0x8000_0000_0000_0000 }

  /** The values that the types allow. */
  predicate WellTyped(p: Parameter) {
    match p
    case Integer(n) => IsInt64(n)
    case ByteString(t, v) => IsByteString(t) && (v.Some? ==> |v.value| < MAX_UINT64)
    case Str(s) => |s| < MAX_UINT64
    case Hash160(h) => |h| == 20
    case Hash256(h) => |h| == 32
    case Array(elems) => |elems| < MAX_UINT64 && forall i :: 0 <= i < |elems| ==> WellTyped(elems[i])
    case Map(pairs) =>
      |pairs| < MAX_UINT64 && forall i :: 0 <= i < |pairs| ==> WellTyped(pairs[i].key) && WellTyped(pairs[i].value)
    case _ => true
  }

  /** Strings, arrays and maps within the reader's limits, at every level. */
  predicate WithinLimits(p: Parameter) {
    match p
    case Str(s) => |s| <= MAX_ARRAY_SIZE
    case Array(elems) => |elems| <= MAX_ARRAY_SIZE && forall i :: 0 <= i < |elems| ==> WithinLimits(elems[i])
    case Map(pairs) =>
      && |pairs| <= MAX_ARRAY_SIZE
      && forall i :: 0 <= i < |pairs| ==> WithinLimits(pairs[i].key) && WithinLimits(pairs[i].value)
    case _ => true
  }

  // ----- encoding -----

  function Encode(p: Parameter): (s: seq<Byte>)
    ensures |s| > 0
    decreases p
  {
    match p
    case AnyValue => [ANY]
    case Interop => [INTEROP_INTERFACE]
    case Bool(b) => [BOOL, if b then 1 else 0]
    case Integer(n) => [INTEGER] + LittleEndian(n % (MAX_UINT64 + 1), 8)
    case ByteString(t, v) => [t] + if v.None? then VarUint(MAX_UINT64) else VarBytes(v.value)
    case Str(s) => [STRING] + VarBytes(s)
    case Hash160(h) => [HASH160] + h
    case Hash256(h) => [HASH256] + h
    case Array(elems) => [ARRAY] + VarUint(|elems|) + EncodeAll(elems, p)
    case Map(pairs) => [MAP] + VarUint(|pairs|) + EncodePairs(pairs, p)
  }

  function EncodeAll(elems: seq<Parameter>, ghost p: Parameter): seq<Byte>
    requires forall i :: 0 <= i < |elems| ==> elems[i] < p
    decreases p, |elems|
  {
    if elems == [] then [] else Encode(elems[0]) + EncodeAll(elems[1..], p)
  }

  function EncodePairs(pairs: seq<Pair>, ghost p: Parameter): seq<Byte>
    requires forall i :: 0 <= i < |pairs| ==> pairs[i].key < p && pairs[i].value < p
    decreases p, |pairs|
  {
    if pairs == [] then [] else Encode(pairs[0].key) + Encode(pairs[0].value) + EncodePairs(pairs[1..], p)
  }

  /** The first byte of an encoding tells its type. */
  lemma TypeBytes(p: Parameter)
    ensures Encode(p)[0] ==
            match p
            case AnyValue => 0x00
            case Bool(_) => 0x10
            case Integer(_) => 0x11
            case ByteString(t, _) => t
            case Str(_) => 0x13
            case Hash160(_) => 0x14
            case Hash256(_) => 0x15
            case Array(_) => 0x20
            case Map(_) => 0x22
            case Interop => 0x30
  {}

  // ----- decoding -----

  function ToSigned64(v: nat): int { if v < 0x8000_0000_0000_0000 then v else v - (MAX_UINT64 + 1) }

  function Decode(data: seq<Byte>): (r: Read<Parameter>)
    ensures r.Got? ==> |r.rest| < |data|
    decreases |data|, 0
  {
    if data == [] then Failed
    else
      var t, rest := data[0], data[1..];
      if t == ANY then Got(AnyValue, rest)
      else if t == INTEROP_INTERFACE then Got(Interop, rest)
      else if t == BOOL then
        if rest == [] then Failed else Got(Bool(rest[0] != 0), rest[1..])
      else if t == INTEGER then
        var r := TakeNumber(rest, 8);
        if r.Failed? then Failed else Got(Integer(ToSigned64(r.value)), r.rest)
      else if IsByteString(t) then
        var n := TakeVarUint(rest);
        if n.Failed? then Failed
        else if n.value == MAX_UINT64 then Got(ByteString(t, None), n.rest)
        else
          var r := TakeBytes(n.rest, n.value);
          if r.Failed? then Failed else Got(ByteString(t, Some(r.value)), r.rest)
      else if t == STRING then
        var r := TakeVarBytes(rest);
        if r.Failed? then Failed else Got(Str(r.value), r.rest)
      else if t == HASH160 then
        var r := TakeBytes(rest, 20);
        if r.Failed? then Failed else Got(Hash160(r.value), r.rest)
      else if t == HASH256 then
        var r := TakeBytes(rest, 32);
        if r.Failed? then Failed else Got(Hash256(r.value), r.rest)
      else if t == ARRAY then
        var n := TakeVarUint(rest);
        if n.Failed? || n.value > MAX_ARRAY_SIZE then Failed
        else
          var r := DecodeAll(n.value, n.rest);
          if r.Failed? then Failed else Got(Array(r.value), r.rest)
      else if t == MAP then
        var n := TakeVarUint(rest);
        if n.Failed? || n.value > MAX_ARRAY_SIZE then Failed
        else
          var r := DecodePairs(n.value, n.rest);
          if r.Failed? then Failed else Got(Map(r.value), r.rest)
      else Failed
  }

  function DecodeAll(n: nat, data: seq<Byte>): (r: Read<seq<Parameter>>)
    ensures r.Got? ==> |r.rest| <= |data|
    decreases |data|, n + 1
  {
    if n == 0 then Got([], data)
    else
      var first := Decode(data);
      if first.Failed? then Failed
      else
        var others := DecodeAll(n - 1, first.rest);
        if others.Failed? then Failed else Got([first.value] + others.value, others.rest)
  }

  function DecodePairs(n: nat, data: seq<Byte>): (r: Read<seq<Pair>>)
    ensures r.Got? ==> |r.rest| <= |data|
    decreases |data|, n + 1
  {
    if n == 0 then Got([], data)
    else
      var k := Decode(data);
      if k.Failed? then Failed
      else
        var v := Decode(k.rest);
        if v.Failed? then Failed
        else
          var others := DecodePairs(n - 1, v.rest);
          if others.Failed? then Failed else Got([Pair(k.value, v.value)] + others.value, others.rest)
  }

  // ----- round trip -----

  lemma TakeBytesBack(b: seq<Byte>, rest: seq<Byte>)
    ensures TakeBytes(b + rest, |b|) == Got(b, rest)
  {}

  lemma Signed64Back(n: int)
    requires IsInt64(n)
    ensures 0 <= n % (MAX_UINT64 + 1) <= MAX_UINT64 && ToSigned64(n % (MAX_UINT64 + 1)) == n
  {}

  lemma LeafRoundTrip(p: Parameter, rest: seq<Byte>)
    requires WellTyped(p) && !p.Array? && !p.Map?
    ensures Decode(Encode(p) + rest) == if WithinLimits(p) then Got(p, rest) else Failed
  {
    hide VarUint, TakeVarUint, TakeNumber, TakeBytes, TakeVarBytes, VarBytes, LittleEndian, Pow256, ToSigned64;
    var data := Encode(p) + rest;
    match p
    case AnyValue => assert data[1..] == rest;
    case Interop => assert data[1..] == rest;
    case Bool(b) =>
      assert data[1..] == [if b then 1 else 0] + rest;
      assert data[1..][1..] == rest;
    case Integer(n) =>
      Signed64Back(n);
      Widths();
      assert data[1..] == LittleEndian(n % (MAX_UINT64 + 1), 8) + rest;
      TakeNumberBack(n % (MAX_UINT64 + 1), 8, rest);
    case ByteString(t, v) => ByteStringRoundTrip(t, v, rest);
    case Str(s) =>
      assert data[1..] == VarBytes(s) + rest;
      VarBytesRoundTrip(s, rest);
    case Hash160(h) =>
      assert data[1..] == h + rest;
      TakeBytesBack(h, rest);
    case Hash256(h) =>
      assert data[1..] == h + rest;
      TakeBytesBack(h, rest);
  }

  /** The marker for nil is a length that no byte string has. */
  lemma ByteStringRoundTrip(t: Byte, v: Option<seq<Byte>>, rest: seq<Byte>)
    requires IsByteString(t) && (v.Some? ==> |v.value| < MAX_UINT64)
    ensures Decode(Encode(ByteString(t, v)) + rest) == Got(ByteString(t, v), rest)
  {
    hide VarUint, TakeVarUint, TakeBytes;
    var data := Encode(ByteString(t, v)) + rest;
    if v.None? {
      assert data[1..] == VarUint(MAX_UINT64) + rest;
      VarUintRoundTrip(MAX_UINT64, rest);
    } else {
      var b := v.value;
      assert data[1..] == VarUint(|b|) + (b + rest);
      VarUintRoundTrip(|b|, b + rest);
      TakeBytesBack(b, rest);
    }
  }

  /**
   * Decoding an encoded parameter gives it back and leaves what follows unread, if every string, array and map inside
   * is within the limits; otherwise decoding fails.
   */
  lemma {:induction false} RoundTrip(p: Parameter, rest: seq<Byte>)
    requires WellTyped(p)
    ensures Decode(Encode(p) + rest) == if WithinLimits(p) then Got(p, rest) else Failed
    decreases p, 2
  {
    hide Encode, Decode;
    match p
    case Array(elems) => ArrayRoundTrip(p, rest);
    case Map(pairs) => MapRoundTrip(p, rest);
    case _ => LeafRoundTrip(p, rest);
  }

  lemma {:induction false} ArrayRoundTrip(p: Parameter, rest: seq<Byte>)
    requires WellTyped(p) && p.Array?
    ensures Decode(Encode(p) + rest) == if WithinLimits(p) then Got(p, rest) else Failed
    decreases p, 1
  {
    hide VarUint, TakeVarUint, TakeNumber, TakeBytes, TakeVarBytes, VarBytes, EncodeAll, DecodeAll;
    var elems := p.elems;
    var data := Encode(p) + rest;
    assert data[1..] == VarUint(|elems|) + (EncodeAll(elems, p) + rest);
    VarUintRoundTrip(|elems|, EncodeAll(elems, p) + rest);
    if |elems| <= MAX_ARRAY_SIZE { AllRoundTrip(elems, p, rest); }
  }

  lemma {:induction false} MapRoundTrip(p: Parameter, rest: seq<Byte>)
    requires WellTyped(p) && p.Map?
    ensures Decode(Encode(p) + rest) == if WithinLimits(p) then Got(p, rest) else Failed
    decreases p, 1
  {
    hide VarUint, TakeVarUint, TakeNumber, TakeBytes, TakeVarBytes, VarBytes, EncodePairs, DecodePairs;
    var pairs := p.pairs;
    var data := Encode(p) + rest;
    assert data[1..] == VarUint(|pairs|) + (EncodePairs(pairs, p) + rest);
    VarUintRoundTrip(|pairs|, EncodePairs(pairs, p) + rest);
    if |pairs| <= MAX_ARRAY_SIZE { PairsRoundTrip(pairs, p, rest); }
  }

  lemma {:induction false} AllRoundTrip(elems: seq<Parameter>, p: Parameter, rest: seq<Byte>)
    requires forall i :: 0 <= i < |elems| ==> elems[i] < p && WellTyped(elems[i])
    ensures DecodeAll(|elems|, EncodeAll(elems, p) + rest) ==
            if forall i :: 0 <= i < |elems| ==> WithinLimits(elems[i]) then Got(elems, rest) else Failed
    decreases p, 0, |elems|
  {
    hide Encode, Decode, WellTyped;
    if elems == [] {
      assert EncodeAll(elems, p) + rest == rest;
    } else {
      var tail := EncodeAll(elems[1..], p) + rest;
      assert EncodeAll(elems, p) + rest == Encode(elems[0]) + tail;
      RoundTrip(elems[0], tail);
      AllRoundTrip(elems[1..], p, rest);
      assert [elems[0]] + elems[1..] == elems;
      AllOfTail(elems);
    }
  }

  lemma AllOfTail(elems: seq<Parameter>)
    requires elems != []
    ensures (forall i :: 0 <= i < |elems| ==> WithinLimits(elems[i])) <==>
            WithinLimits(elems[0]) && forall i :: 0 <= i < |elems[1..]| ==> WithinLimits(elems[1..][i])
  {
    hide WithinLimits;
    if WithinLimits(elems[0]) && forall i :: 0 <= i < |elems[1..]| ==> WithinLimits(elems[1..][i]) {
      forall i | 0 <= i < |elems| ensures WithinLimits(elems[i]) {
        if i > 0 { assert elems[i] == elems[1..][i - 1]; }
      }
    }
  }

  lemma {:induction false} PairsRoundTrip(pairs: seq<Pair>, p: Parameter, rest: seq<Byte>)
    requires forall i :: 0 <= i < |pairs| ==>
               pairs[i].key < p && pairs[i].value < p && WellTyped(pairs[i].key) && WellTyped(pairs[i].value)
    ensures DecodePairs(|pairs|, EncodePairs(pairs, p) + rest) ==
            if forall i :: 0 <= i < |pairs| ==> WithinLimits(pairs[i].key) && WithinLimits(pairs[i].value)
            then Got(pairs, rest) else Failed
    decreases p, 0, |pairs|
  {
    hide Encode, Decode, WellTyped, WithinLimits;
    if pairs == [] {
      assert EncodePairs(pairs, p) + rest == rest;
    } else {
      var q := pairs[0];
      var tail := EncodePairs(pairs[1..], p) + rest;
      assert EncodePairs(pairs, p) + rest == Encode(q.key) + (Encode(q.value) + tail);
      RoundTrip(q.key, Encode(q.value) + tail);
      RoundTrip(q.value, tail);
      PairsRoundTrip(pairs[1..], p, rest);
      assert [q] + pairs[1..] == pairs;
      PairsOfTail(pairs);
    }
  }

  lemma PairsOfTail(pairs: seq<Pair>)
    requires pairs != []
    ensures (forall i :: 0 <= i < |pairs| ==> WithinLimits(pairs[i].key) && WithinLimits(pairs[i].value)) <==>
            WithinLimits(pairs[0].key) && WithinLimits(pairs[0].value)
            && forall i :: 0 <= i < |pairs[1..]| ==>
                 WithinLimits(pairs[1..][i].key) && WithinLimits(pairs[1..][i].value)
  {
    hide WithinLimits;
    if WithinLimits(pairs[0].key) && WithinLimits(pairs[0].value)
       && forall i :: 0 <= i < |pairs[1..]| ==> WithinLimits(pairs[1..][i].key) && WithinLimits(pairs[1..][i].value)
    {
      forall i | 0 <= i < |pairs| ensures WithinLimits(pairs[i].key) && WithinLimits(pairs[i].value) {
        if i > 0 { assert pairs[i] == pairs[1..][i - 1]; }
      }
    }
  }

  // ----- the stateful forms -----

  method EncodeBinary(p: Parameter, w: BinWriter)
    requires w.Valid()
    modifies w`out, w.uv
    ensures w.out == old(w.out) + Encode(p)
    decreases p, 2
  {
    hide Encode;
    match p {
      case Array(_) => EncodeArray(p, w);
      case Map(_) => EncodeMap(p, w);
      case _ => EncodeLeaf(p, w);
    }
  }

  lemma Appended(start: seq<Byte>, a: seq<Byte>, b: seq<Byte>)
    ensures start + a + b == start + (a + b)
  {}

  /** The type byte and a value without parts. */
  method EncodeLeaf(p: Parameter, w: BinWriter)
    requires w.Valid() && !p.Array? && !p.Map?
    modifies w`out, w.uv
    ensures w.out == old(w.out) + Encode(p)
  {
    hide VarUint, VarBytes, LittleEndian;
    ghost var start := w.out;
    match p {
      case AnyValue => w.WriteBytes([ANY]);
      case Interop => w.WriteBytes([INTEROP_INTERFACE]);
      case Bool(b) =>
        w.WriteBytes([BOOL]);
        w.WriteBytes([if b then 1 else 0]);
        Appended(start, [BOOL], [if b then 1 else 0]);
      case Integer(n) =>
        w.WriteBytes([INTEGER]);
        w.PutNumber(0, n % (MAX_UINT64 + 1), 8);
        w.WriteBytes(w.uv[0..8]);
        Appended(start, [INTEGER], LittleEndian(n % (MAX_UINT64 + 1), 8));
      case ByteString(t, v) =>
        w.WriteBytes([t]);
        if v.None? {
          w.WriteVarUint(MAX_UINT64);
          Appended(start, [t], VarUint(MAX_UINT64));
        } else {
          w.WriteVarBytes(v.value);
          Appended(start, [t], VarBytes(v.value));
        }
      case Str(s) =>
        w.WriteBytes([STRING]);
        w.WriteVarBytes(s);
        Appended(start, [STRING], VarBytes(s));
      case Hash160(h) =>
        w.WriteBytes([HASH160]);
        w.WriteBytes(h);
        Appended(start, [HASH160], h);
      case Hash256(h) =>
        w.WriteBytes([HASH256]);
        w.WriteBytes(h);
        Appended(start, [HASH256], h);
    }
  }

  method EncodeArray(p: Parameter, w: BinWriter)
    requires w.Valid() && p.Array?
    modifies w`out, w.uv
    ensures w.out == old(w.out) + Encode(p)
    decreases p, 1
  {
    hide VarUint, EncodeAll;
    ghost var start := w.out;
    w.WriteBytes([ARRAY]);
    w.WriteVarUint(|p.elems|);
    WriteAll(p.elems, p, w);
    Appended(start, [ARRAY], VarUint(|p.elems|));
    Appended(start, [ARRAY] + VarUint(|p.elems|), EncodeAll(p.elems, p));
  }

  method EncodeMap(p: Parameter, w: BinWriter)
    requires w.Valid() && p.Map?
    modifies w`out, w.uv
    ensures w.out == old(w.out) + Encode(p)
    decreases p, 1
  {
    hide VarUint, EncodePairs;
    ghost var start := w.out;
    w.WriteBytes([MAP]);
    w.WriteVarUint(|p.pairs|);
    WritePairs(p.pairs, p, w);
    Appended(start, [MAP], VarUint(|p.pairs|));
    Appended(start, [MAP] + VarUint(|p.pairs|), EncodePairs(p.pairs, p));
  }

  method WriteAll(elems: seq<Parameter>, ghost p: Parameter, w: BinWriter)
    requires w.Valid() && forall i :: 0 <= i < |elems| ==> elems[i] < p
    modifies w`out, w.uv
    ensures w.out == old(w.out) + EncodeAll(elems, p)
    decreases p, 0
  {
    hide Encode;
    for i := 0 to |elems|
      invariant w.out + EncodeAll(elems[i..], p) == old(w.out) + EncodeAll(elems, p)
    {
      ghost var before := w.out;
      assert EncodeAll(elems[i..], p) == Encode(elems[i]) + EncodeAll(elems[i + 1..], p) by {
        assert elems[i..][1..] == elems[i + 1..];
      }
      EncodeBinary(elems[i], w);
      Appended(before, Encode(elems[i]), EncodeAll(elems[i + 1..], p));
    }
    assert w.out + [] == w.out;
  }

  method WritePairs(pairs: seq<Pair>, ghost p: Parameter, w: BinWriter)
    requires w.Valid() && forall i :: 0 <= i < |pairs| ==> pairs[i].key < p && pairs[i].value < p
    modifies w`out, w.uv
    ensures w.out == old(w.out) + EncodePairs(pairs, p)
    decreases p, 0
  {
    hide Encode;
    for i := 0 to |pairs|
      invariant w.out + EncodePairs(pairs[i..], p) == old(w.out) + EncodePairs(pairs, p)
    {
      ghost var before := w.out;
      var k, v := pairs[i].key, pairs[i].value;
      assert EncodePairs(pairs[i..], p) == Encode(k) + Encode(v) + EncodePairs(pairs[i + 1..], p) by {
        assert pairs[i..][1..] == pairs[i + 1..];
      }
      EncodeBinary(k, w);
      EncodeBinary(v, w);
      Appended(before, Encode(k), Encode(v));
      Appended(before, Encode(k) + Encode(v), EncodePairs(pairs[i + 1..], p));
    }
    assert w.out + [] == w.out;
  }

  /** Whether a reader has done what a decoding function says, with the error staying set. */
  twostate predicate DidRead<T>(r: BinReader, result: Read<T>, v: T)
    reads r
  {
    && |r.unread| <= |old(r.unread)|
    && (old(r.err) ==> r.err)
    && (!old(r.err) ==>
          match result
          case Got(w, rest) => !r.err && v == w && r.unread == rest
          case Failed => r.err)
  }

  /** Decoding from a reader; once the reader has failed, only empty values come out. */
  method DecodeBinary(r: BinReader) returns (p: Parameter)
    modifies r
    ensures DidRead(r, Decode(old(r.unread)), p)
    decreases |r.unread|, 0
  {
    hide TakeVarUint, FromLittleEndian, DecodeAll, DecodePairs;
    ghost var data := r.unread;
    var t := r.ReadNumber(1);
    if r.err || t == ANY {
      if data != [] { OneByte(data); }
      return AnyValue;
    }
    OneByte(data);
    if t == INTEROP_INTERFACE {
      p := Interop;
    } else if t == BOOL {
      ghost var rest := r.unread;
      var b := r.ReadNumber(1);
      if rest != [] { OneByte(rest); }
      p := Bool(b != 0);
    } else if t == INTEGER {
      var v := r.ReadNumber(8);
      p := Integer(ToSigned64(v));
    } else if t == BYTE_ARRAY || t == PUBLIC_KEY || t == SIGNATURE {
      var n := r.ReadVarUint();
      p := ByteString(t, None);
      if n != MAX_UINT64 {
        var b := r.ReadBytes(n);
        p := ByteString(t, Some(b));
      }
    } else if t == STRING {
      var b := r.ReadVarBytes();
      p := Str(b);
    } else if t == HASH160 {
      var b := r.ReadBytes(20);
      p := Hash160(b);
    } else if t == HASH256 {
      var b := r.ReadBytes(32);
      p := Hash256(b);
    } else if t == ARRAY {
      p := ReadArray(r);
    } else if t == MAP {
      p := ReadMap(r);
    } else {
      r.err := true;
      p := AnyValue;
    }
  }

  function DecodeArray(data: seq<Byte>): Read<Parameter> {
    var n := TakeVarUint(data);
    if n.Failed? || n.value > MAX_ARRAY_SIZE then Failed
    else
      var r := DecodeAll(n.value, n.rest);
      if r.Failed? then Failed else Got(Array(r.value), r.rest)
  }

  function DecodeMap(data: seq<Byte>): Read<Parameter> {
    var n := TakeVarUint(data);
    if n.Failed? || n.value > MAX_ARRAY_SIZE then Failed
    else
      var r := DecodePairs(n.value, n.rest);
      if r.Failed? then Failed else Got(Map(r.value), r.rest)
  }

  method ReadArray(r: BinReader) returns (p: Parameter)
    modifies r
    ensures DidRead(r, DecodeArray(old(r.unread)), p)
    decreases |r.unread|, 2
  {
    hide TakeVarUint, DecodeAll;
    p := Array([]);
    if !r.err {
      var n := r.ReadVarUint();
      if n > MAX_ARRAY_SIZE {
        r.err := true;
      } else {
        var elems := ReadAll(r, n);
        p := Array(elems);
      }
    }
  }

  method ReadMap(r: BinReader) returns (p: Parameter)
    modifies r
    ensures DidRead(r, DecodeMap(old(r.unread)), p)
    decreases |r.unread|, 2
  {
    hide TakeVarUint, DecodePairs;
    p := Map([]);
    if !r.err {
      var n := r.ReadVarUint();
      if n > MAX_ARRAY_SIZE {
        r.err := true;
      } else {
        var pairs := ReadPairs(r, n);
        p := Map(pairs);
      }
    }
  }

  /** Elements read so far followed by what the rest of the data gives. */
  function Prepend<T>(s: seq<T>, r: Read<seq<T>>): Read<seq<T>> {
    if r.Failed? then Failed else Got(s + r.value, r.rest)
  }

  lemma PrependEmpty<T>(s: seq<T>, r: Read<seq<T>>)
    ensures Prepend([], r) == r
    ensures r.Got? && r.value == [] ==> Prepend(s, r) == Got(s, r.rest)
  {
    if r.Got? { assert [] + r.value == r.value && s + [] == s; }
  }

  method ReadAll(r: BinReader, n: nat) returns (elems: seq<Parameter>)
    modifies r
    ensures DidRead(r, DecodeAll(n, old(r.unread)), elems)
    decreases |r.unread|, 1
  {
    hide Decode;
    elems := [];
    PrependEmpty(elems, DecodeAll(n, r.unread));
    for i := 0 to n
      invariant |r.unread| <= |old(r.unread)| && (old(r.err) ==> r.err)
      invariant !r.err ==> DecodeAll(n, old(r.unread)) == Prepend(elems, DecodeAll(n - i, r.unread))
      invariant r.err && !old(r.err) ==> DecodeAll(n, old(r.unread)).Failed?
    {
      ghost var done, data := elems, r.unread;
      var p := DecodeBinary(r);
      elems := elems + [p];
      if !r.err {
        var others := DecodeAll(n - i - 1, r.unread);
        if others.Got? { assert done + ([p] + others.value) == elems + others.value; }
      }
    }
    PrependEmpty(elems, DecodeAll(0, r.unread));
  }

  method ReadPairs(r: BinReader, n: nat) returns (pairs: seq<Pair>)
    modifies r
    ensures DidRead(r, DecodePairs(n, old(r.unread)), pairs)
    decreases |r.unread|, 1
  {
    hide Decode;
    pairs := [];
    PrependEmpty(pairs, DecodePairs(n, r.unread));
    for i := 0 to n
      invariant |r.unread| <= |old(r.unread)| && (old(r.err) ==> r.err)
      invariant !r.err ==> DecodePairs(n, old(r.unread)) == Prepend(pairs, DecodePairs(n - i, r.unread))
      invariant r.err && !old(r.err) ==> DecodePairs(n, old(r.unread)).Failed?
    {
      ghost var done, data := pairs, r.unread;
      var k := DecodeBinary(r);
      var v := DecodeBinary(r);
      pairs := pairs + [Pair(k, v)];
      if !r.err {
        var others := DecodePairs(n - i - 1, r.unread);
        if others.Got? { assert done + ([Pair(k, v)] + others.value) == pairs + others.value; }
      }
    }
    PrependEmpty(pairs, DecodePairs(0, r.unread));
  }

  /** Writing a parameter and reading it back. */
  method WriteThenRead(p: Parameter, following: seq<Byte>) returns (q: Parameter, left: seq<Byte>, failed: bool)
    requires WellTyped(p)
    ensures failed <==> !WithinLimits(p)
    ensures !failed ==> q == p && left == following
  {
    var w := new BinWriter();
    EncodeBinary(p, w);
    w.WriteBytes(following);
    assert [] + Encode(p) + following == Encode(p) + following;
    RoundTrip(p, following);
    var r := new BinReader(w.out);
    q := DecodeBinary(r);
    left, failed := r.unread, r.err;
  }
}
