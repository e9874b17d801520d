/**
 * The byte strings that stand for a parameter, described without the decoder, and the proof that the decoder accepts
 * exactly those (pkg/smartcontract/parameter.go, pkg/io/binaryReader.go).
 */
module ParameterForms {
  import opened Common
  import opened Bytes
  import opened BinaryIO
  import opened ParameterCodec

  // ----- numbers -----

  /** How many bytes a number takes, told by its first one. */
  function Width(first: Byte): nat { if first <= 252 then 1 else [3, 5, 9][first - 253] }

  /** The form of n, in any width that holds it, followed by the body. */
  predicate Headed(s: seq<Byte>, n: nat, body: seq<Byte>) {
    && s != [] && Width(s[0]) <= |s| && s[Width(s[0])..] == body
    && n == if s[0] <= 252 then s[0] else FromLittleEndian(s[1..Width(s[0])])
  }

  lemma TakenForm(data: seq<Byte>, n: nat, rest: seq<Byte>)
    ensures TakeVarUint(data) == Got(n, rest) <==> Headed(data, n, rest)
  {
    hide FromLittleEndian;
    if data != [] && data[0] > 252 && Width(data[0]) <= |data| {
      var w := Width(data[0]);
      assert data[1..][..w - 1] == data[1..w];
      assert data[1..][w - 1..] == data[w..];
    }
  }

  // ----- parameters -----

  /** What may be written for a parameter. */
  ghost predicate Stands(p: Parameter, s: seq<Byte>)
    decreases p, 0x1000001
  {
    s != [] &&
    match p
    case AnyValue => s == [0x00]
    case Interop => s == [0x30]
    case Bool(b) => s[0] == 0x10 && |s| == 2 && (b <==> s[1] != 0)
    case Integer(n) =>
      && s[0] == 0x11 && |s| == 9
      && var v := FromLittleEndian(s[1..]);
      n == if v < 0x8000_0000_0000_0000 then v else v - 0x1_0000_0000_0000_0000
    case ByteString(t, None) => s[0] == t && t in {0x12, 0x16, 0x17} && Headed(s[1..], MAX_UINT64, [])
    case ByteString(t, Some(b)) =>
      s[0] == t && t in {0x12, 0x16, 0x17} && |b| != MAX_UINT64 && Headed(s[1..], |b|, b)
    case Str(b) => s[0] == 0x13 && |b| <= 0x1000000 && Headed(s[1..], |b|, b)
    case Hash160(h) => |h| == 20 && s == [0x14] + h
    case Hash256(h) => |h| == 32 && s == [0x15] + h
    case Array(elems) =>
      s[0] == 0x20 && |elems| <= 0x1000000 && exists body :: Headed(s[1..], |elems|, body) && StandsAll(elems, body, p)
    case Map(pairs) =>
      && s[0] == 0x22 && |pairs| <= 0x1000000
      && exists body :: Headed(s[1..], |pairs|, body) && StandsPairs(pairs, body, p)
  }

  /** Parts of p. */
  ghost predicate Below(elems: seq<Parameter>, p: Parameter) { forall i :: 0 <= i < |elems| ==> elems[i] < p }

  ghost predicate PairsBelow(pairs: seq<Pair>, p: Parameter) {
    forall i :: 0 <= i < |pairs| ==> pairs[i].key < p && pairs[i].value < p
  }

  /** One after the other. */
  ghost predicate StandsAll(elems: seq<Parameter>, s: seq<Byte>, p: Parameter)
    requires Below(elems, p)
    decreases p, |elems|
  {
    if elems == [] then s == []
    else exists k: nat :: k <= |s| && Stands(elems[0], s[..k]) && StandsAll(elems[1..], s[k..], p)
  }

  ghost predicate StandsPairs(pairs: seq<Pair>, s: seq<Byte>, p: Parameter)
    requires PairsBelow(pairs, p)
    decreases p, |pairs|
  {
    if pairs == [] then s == []
    else exists k: nat, n: nat ::
      && k <= n <= |s| && Stands(pairs[0].key, s[..k]) && Stands(pairs[0].value, s[k..n])
      && StandsPairs(pairs[1..], s[n..], p)
  }

  lemma HeadedExtends(x: seq<Byte>, n: nat, body: seq<Byte>, rest: seq<Byte>)
    requires Headed(x, n, body)
    ensures Headed(x + rest, n, body + rest)
  {
    var w := Width(x[0]);
    assert (x + rest)[1..w] == x[1..w];
    assert (x + rest)[w..] == x[w..] + rest;
  }

  lemma HeadedCut(d: seq<Byte>, n: nat, body: seq<Byte>, rest: seq<Byte>)
    requires Headed(d, n, body + rest)
    ensures |rest| < |d| && d == d[..|d| - |rest|] + rest && Headed(d[..|d| - |rest|], n, body)
  {
    hide FromLittleEndian;
    var w := Width(d[0]);
    var x := d[..|d| - |rest|];
    assert |d| == w + |body| + |rest|;
    assert d == x + rest by { EndsWith(d, w, body, rest); }
    assert x[w..] == body by { EndsWith(d, w, body, rest); }
    assert x[1..w] == d[1..w];
  }

  lemma EndsWith(d: seq<Byte>, w: nat, body: seq<Byte>, rest: seq<Byte>)
    requires w <= |d| && d[w..] == body + rest
    ensures d == d[..|d| - |rest|] + rest && d[..|d| - |rest|][w..] == body
  {
    assert d == d[..w] + d[w..];
    assert d[|d| - |rest|..] == d[w..][|body|..] == rest;
    assert d[..|d| - |rest|][w..] == d[w..][..|body|] == body;
  }

  // ----- what stands for a parameter is decoded to it -----

  lemma ByteStringDecodes(p: Parameter, s: seq<Byte>, rest: seq<Byte>)
    requires Stands(p, s) && p.ByteString?
    ensures Decode(s + rest) == Got(p, rest)
  {
    hide TakeVarUint, Headed;
    var data := s + rest;
    assert data[1..] == s[1..] + rest;
    var b := if p.v.None? then [] else p.v.value;
    var n := if p.v.None? then MAX_UINT64 else |b|;
    HeadedExtends(s[1..], n, b, rest);
    TakenForm(data[1..], n, b + rest);
    assert [] + rest == rest;
    TakeBytesBack(b, rest);
  }

  lemma StringDecodes(p: Parameter, s: seq<Byte>, rest: seq<Byte>)
    requires Stands(p, s) && p.Str?
    ensures Decode(s + rest) == Got(p, rest)
  {
    hide TakeVarUint, Headed;
    var data := s + rest;
    assert data[1..] == s[1..] + rest;
    HeadedExtends(s[1..], |p.s|, p.s, rest);
    TakenForm(data[1..], |p.s|, p.s + rest);
    TakeBytesBack(p.s, rest);
  }

  lemma IntegerDecodes(p: Parameter, s: seq<Byte>, rest: seq<Byte>)
    requires Stands(p, s) && p.Integer?
    ensures Decode(s + rest) == Got(p, rest)
  {
    hide FromLittleEndian, TakeVarUint, Headed;
    var data := s + rest;
    assert data[1..] == s[1..] + rest;
    assert data[1..][..8] == s[1..];
    assert data[1..][8..] == rest;
  }

  lemma FixedDecodes(p: Parameter, s: seq<Byte>, rest: seq<Byte>)
    requires Stands(p, s) && (p.AnyValue? || p.Interop? || p.Bool? || p.Hash160? || p.Hash256?)
    ensures Decode(s + rest) == Got(p, rest)
  {
    hide TakeVarUint, Headed, TakeNumber;
    var data := s + rest;
    assert data[1..] == s[1..] + rest;
    if p.Bool? {
      assert data[1..][1..] == rest;
    } else if p.Hash160? || p.Hash256? {
      TakeBytesBack(p.h, rest);
    } else {
      assert data[1..] == rest;
    }
  }

  lemma LeafDecodes(p: Parameter, s: seq<Byte>, rest: seq<Byte>)
    requires Stands(p, s) && !p.Array? && !p.Map?
    ensures Decode(s + rest) == Got(p, rest)
  {
    hide Decode, Stands;
    if p.ByteString? { ByteStringDecodes(p, s, rest); }
    else if p.Str? { StringDecodes(p, s, rest); }
    else if p.Integer? { IntegerDecodes(p, s, rest); }
    else { FixedDecodes(p, s, rest); }
  }

  lemma {:induction false} StandsDecodes(p: Parameter, s: seq<Byte>, rest: seq<Byte>)
    requires Stands(p, s)
    ensures Decode(s + rest) == Got(p, rest)
    decreases p, 0x1000001
  {
    hide TakeVarUint, DecodeAll, DecodePairs, StandsAll, StandsPairs, Headed;
    if p.Array? {
      var body :| Headed(s[1..], |p.elems|, body) && StandsAll(p.elems, body, p);
      assert (s + rest)[1..] == s[1..] + rest;
      HeadedExtends(s[1..], |p.elems|, body, rest);
      TakenForm(s[1..] + rest, |p.elems|, body + rest);
      AllDecode(p.elems, body, p, rest);
    } else if p.Map? {
      var body :| Headed(s[1..], |p.pairs|, body) && StandsPairs(p.pairs, body, p);
      assert (s + rest)[1..] == s[1..] + rest;
      HeadedExtends(s[1..], |p.pairs|, body, rest);
      TakenForm(s[1..] + rest, |p.pairs|, body + rest);
      PairsDecode(p.pairs, body, p, rest);
    } else {
      LeafDecodes(p, s, rest);
    }
  }

  lemma {:induction false} AllDecode(elems: seq<Parameter>, s: seq<Byte>, p: Parameter, rest: seq<Byte>)
    requires Below(elems, p) && StandsAll(elems, s, p)
    ensures DecodeAll(|elems|, s + rest) == Got(elems, rest)
    decreases p, |elems|
  {
    hide Stands, Decode;
    if elems == [] {
      assert s + rest == rest;
    } else {
      var k: nat :| k <= |s| && Stands(elems[0], s[..k]) && StandsAll(elems[1..], s[k..], p);
      StandsDecodes(elems[0], s[..k], s[k..] + rest);
      assert s + rest == s[..k] + (s[k..] + rest);
      AllDecode(elems[1..], s[k..], p, rest);
      assert [elems[0]] + elems[1..] == elems;
    }
  }

  /** Where the first pair and its key end. */
  lemma PairsSplit(pairs: seq<Pair>, s: seq<Byte>, p: Parameter) returns (k: nat, n: nat)
    requires PairsBelow(pairs, p) && StandsPairs(pairs, s, p) && pairs != []
    ensures k <= n <= |s| && Stands(pairs[0].key, s[..k]) && Stands(pairs[0].value, s[k..n])
    ensures PairsBelow(pairs[1..], p) && StandsPairs(pairs[1..], s[n..], p)
  {
    hide Stands;
    k, n :| k <= n <= |s| && Stands(pairs[0].key, s[..k]) && Stands(pairs[0].value, s[k..n])
            && StandsPairs(pairs[1..], s[n..], p);
  }

  lemma PairsDecoded(n: nat, data: seq<Byte>, key: Read<Parameter>, val: Read<Parameter>, others: Read<seq<Pair>>)
    requires n > 0 && key == Decode(data) && key.Got? && val == Decode(key.rest) && val.Got?
    requires others == DecodePairs(n - 1, val.rest) && others.Got?
    ensures DecodePairs(n, data) == Got([Pair(key.value, val.value)] + others.value, others.rest)
  {
    hide Decode;
  }

  lemma {:induction false} PairsDecode(pairs: seq<Pair>, s: seq<Byte>, p: Parameter, rest: seq<Byte>)
    requires PairsBelow(pairs, p) && StandsPairs(pairs, s, p)
    ensures DecodePairs(|pairs|, s + rest) == Got(pairs, rest)
    decreases p, |pairs|
  {
    if pairs == [] {
      assert s + rest == rest;
    } else {
      PairsDecodeOn(pairs, s, p, rest);
    }
  }

  lemma {:induction false} PairsDecodeOn(pairs: seq<Pair>, s: seq<Byte>, p: Parameter, rest: seq<Byte>)
    requires PairsBelow(pairs, p) && StandsPairs(pairs, s, p) && pairs != []
    ensures DecodePairs(|pairs|, s + rest) == Got(pairs, rest)
    decreases p, |pairs|, 0
  {
    hide Stands, Decode, StandsPairs, DecodePairs;
    var k, n := PairsSplit(pairs, s, p);
    var after, tail := s[k..n] + (s[n..] + rest), s[n..] + rest;
    StandsDecodes(pairs[0].key, s[..k], after);
    StandsDecodes(pairs[0].value, s[k..n], tail);
    assert s + rest == s[..k] + after;
    PairsDecode(pairs[1..], s[n..], p, rest);
    PairsDecoded(|pairs|, s + rest, Got(pairs[0].key, after), Got(pairs[0].value, tail), Got(pairs[1..], rest));
    assert [pairs[0]] + pairs[1..] == pairs;
  }

  // ----- what is decoded stands for the result -----

  /** What the decoder has taken before a body of known length. */
  lemma ByteStringShape(data: seq<Byte>)
    requires Decode(data).Got? && Decode(data).value.ByteString?
    ensures var r, n := Decode(data), TakeVarUint(data[1..]);
            && data[0] == r.value.t && r.value.t in {0x12, 0x16, 0x17} && n.Got?
            && (r.value.v.None? ==> n.value == MAX_UINT64 && n.rest == [] + r.rest)
            && (r.value.v.Some? ==>
                  && n.value == |r.value.v.value| && n.value != MAX_UINT64
                  && n.rest == r.value.v.value + r.rest)
  {
    hide TakeVarUint;
  }

  lemma StringShape(data: seq<Byte>)
    requires Decode(data).Got? && Decode(data).value.Str?
    ensures var r, n := Decode(data), TakeVarUint(data[1..]);
            && data[0] == 0x13 && n.Got? && n.value == |r.value.s| <= 0x1000000 && n.rest == r.value.s + r.rest
  {
    hide TakeVarUint;
  }

  lemma ArrayShape(data: seq<Byte>)
    requires Decode(data).Got? && Decode(data).value.Array?
    ensures var r, n := Decode(data), TakeVarUint(data[1..]);
            && data[0] == 0x20 && n.Got? && n.value <= 0x1000000
            && DecodeAll(n.value, n.rest) == Got(r.value.elems, r.rest)
  {
    hide TakeVarUint, DecodeAll;
  }

  lemma MapShape(data: seq<Byte>)
    requires Decode(data).Got? && Decode(data).value.Map?
    ensures var r, n := Decode(data), TakeVarUint(data[1..]);
            && data[0] == 0x22 && n.Got? && n.value <= 0x1000000
            && DecodePairs(n.value, n.rest) == Got(r.value.pairs, r.rest)
  {
    hide TakeVarUint, DecodePairs;
  }

  /** The whole, given its first byte and a headed rest. */
  lemma Whole(data: seq<Byte>, n: nat, body: seq<Byte>, rest: seq<Byte>)
    requires data != [] && Headed(data[1..], n, body + rest)
    ensures |rest| < |data| && data == data[..|data| - |rest|] + rest && data[..|data| - |rest|] != []
    ensures data[..|data| - |rest|][0] == data[0] && Headed(data[..|data| - |rest|][1..], n, body)
  {
    hide Headed;
    var tail := data[1..];
    HeadedCut(tail, n, body, rest);
    assert data[..|data| - |rest|][1..] == tail[..|tail| - |rest|];
    assert data == [data[0]] + tail;
  }

  lemma ByteStringStands(data: seq<Byte>)
    requires Decode(data).Got? && Decode(data).value.ByteString?
    ensures var r := Decode(data);
            && |r.rest| < |data| && data == data[..|data| - |r.rest|] + r.rest
            && Stands(r.value, data[..|data| - |r.rest|])
  {
    hide TakeVarUint, Headed, Decode;
    var r := Decode(data);
    ByteStringShape(data);
    var n := TakeVarUint(data[1..]);
    TakenForm(data[1..], n.value, n.rest);
    Whole(data, n.value, if r.value.v.None? then [] else r.value.v.value, r.rest);
  }

  lemma StringStands(data: seq<Byte>)
    requires Decode(data).Got? && Decode(data).value.Str?
    ensures var r := Decode(data);
            && |r.rest| < |data| && data == data[..|data| - |r.rest|] + r.rest
            && Stands(r.value, data[..|data| - |r.rest|])
  {
    hide TakeVarUint, Headed, Decode;
    var r := Decode(data);
    StringShape(data);
    var n := TakeVarUint(data[1..]);
    TakenForm(data[1..], n.value, n.rest);
    Whole(data, n.value, r.value.s, r.rest);
  }

  lemma PlainShape(data: seq<Byte>)
    requires Decode(data).Got?
    ensures var r := Decode(data);
            && data != []
            && (r.value.AnyValue? ==> data[0] == 0x00 && r.rest == data[1..])
            && (r.value.Interop? ==> data[0] == 0x30 && r.rest == data[1..])
            && (r.value.Bool? ==>
                  && data[0] == 0x10 && |data| >= 2 && (r.value.b <==> data[1] != 0) && r.rest == data[2..])
  {
    hide TakeVarUint, TakeVarBytes, DecodeAll, DecodePairs, TakeNumber, TakeBytes;
  }

  lemma IntegerShape(data: seq<Byte>)
    requires Decode(data).Got? && Decode(data).value.Integer?
    ensures var r, v := Decode(data), TakeNumber(data[1..], 8);
            data[0] == 0x11 && v.Got? && r == Got(Integer(ToSigned64(v.value)), v.rest)
  {
    hide TakeVarUint, TakeVarBytes, DecodeAll, DecodePairs, TakeNumber, TakeBytes, ToSigned64;
  }

  lemma HashShape(data: seq<Byte>)
    requires Decode(data).Got? && (Decode(data).value.Hash160? || Decode(data).value.Hash256?)
    ensures var r := Decode(data);
            && data[0] == (if r.value.Hash160? then 0x14 else 0x15)
            && TakeBytes(data[1..], if r.value.Hash160? then 20 else 32) == Got(r.value.h, r.rest)
  {
    hide TakeVarUint, TakeVarBytes, DecodeAll, DecodePairs, TakeNumber, TakeBytes;
  }

  /** A parameter of fixed size, given where it ends. */
  lemma FixedStands(data: seq<Byte>)
    requires Decode(data).Got?
    requires var p := Decode(data).value; !p.ByteString? && !p.Str? && !p.Array? && !p.Map?
    ensures var r := Decode(data);
            && |r.rest| < |data| && data == data[..|data| - |r.rest|] + r.rest
            && Stands(r.value, data[..|data| - |r.rest|])
  {
    hide FromLittleEndian, Decode, Headed;
    var r := Decode(data);
    PlainShape(data);
    var k := if r.value.Integer? then 9 else if r.value.Hash160? then 21 else if r.value.Hash256? then 33
             else if r.value.Bool? then 2 else 1;
    if r.value.Integer? {
      IntegerShape(data);
      assert data[1..][..8] == data[..9][1..] && data[1..][8..] == data[9..];
    } else if r.value.Hash160? || r.value.Hash256? {
      HashShape(data);
      assert data[..k] == [data[0]] + data[1..][..k - 1] && data[1..][k - 1..] == data[k..];
    }
    assert r.rest == data[k..];
    assert data == data[..k] + data[k..];
  }

  lemma {:induction false} DecodedStands(data: seq<Byte>)
    requires Decode(data).Got?
    ensures var r := Decode(data);
            && |r.rest| < |data| && data == data[..|data| - |r.rest|] + r.rest
            && Stands(r.value, data[..|data| - |r.rest|])
    decreases |data|, 0
  {
    hide TakeVarUint, DecodeAll, DecodePairs, StandsAll, StandsPairs, Headed, Decode;
    var r := Decode(data);
    if r.value.Array? {
      ArrayShape(data);
      var n := TakeVarUint(data[1..]);
      TakenForm(data[1..], n.value, n.rest);
      AllStand(n.value, n.rest, r.value);
      Whole(data, n.value, n.rest[..|n.rest| - |r.rest|], r.rest);
    } else if r.value.Map? {
      MapShape(data);
      var n := TakeVarUint(data[1..]);
      TakenForm(data[1..], n.value, n.rest);
      PairsStand(n.value, n.rest, r.value);
      Whole(data, n.value, n.rest[..|n.rest| - |r.rest|], r.rest);
    } else if r.value.ByteString? {
      ByteStringStands(data);
    } else if r.value.Str? {
      StringStands(data);
    } else {
      FixedStands(data);
    }
  }

  lemma AllShape(n: nat, data: seq<Byte>)
    requires n > 0 && DecodeAll(n, data).Got?
    ensures var r, first := DecodeAll(n, data), Decode(data);
            && first.Got?
            && var others := DecodeAll(n - 1, first.rest);
               others.Got? && r == Got([first.value] + others.value, others.rest)
  {
    hide Decode;
  }

  lemma AllJoin(first: Parameter, elems: seq<Parameter>, s: seq<Byte>, k: nat, p: Parameter)
    requires Below([first] + elems, p) && Below(elems, p)
    requires k <= |s| && Stands(first, s[..k]) && StandsAll(elems, s[k..], p)
    ensures StandsAll([first] + elems, s, p)
  {
    hide Stands;
    assert ([first] + elems)[1..] == elems;
  }

  lemma NoElements(data: seq<Byte>, p: Parameter)
    ensures DecodeAll(0, data) == Got([], data) && StandsAll([], [], p)
  {}

  lemma OtherElementsBelow(first: Parameter, elems: seq<Parameter>, p: Parameter)
    requires Below([first] + elems, p)
    ensures Below(elems, p)
  {
    forall i | 0 <= i < |elems| ensures elems[i] < p { assert ([first] + elems)[i + 1] == elems[i]; }
  }

  lemma {:induction false} AllStand(n: nat, data: seq<Byte>, p: Parameter)
    requires DecodeAll(n, data).Got? && Below(DecodeAll(n, data).value, p)
    ensures var r := DecodeAll(n, data);
            && |r.rest| <= |data| && data == data[..|data| - |r.rest|] + r.rest && |r.value| == n
            && StandsAll(r.value, data[..|data| - |r.rest|], p)
    decreases |data|, n + 1
  {
    hide Stands, Decode, DecodeAll, StandsAll, Below;
    if n == 0 {
      NoElements(data, p);
      assert data == data[..0] + data;
    } else {
      AllShape(n, data);
      var first := Decode(data);
      var others := DecodeAll(n - 1, first.rest);
      DecodedStands(data);
      OtherElementsBelow(first.value, others.value, p);
      AllStand(n - 1, first.rest, p);
      assert first.rest == first.rest[..0] + first.rest;
      Pieces(data, first.rest, first.rest, others.rest);
      AllJoin(first.value, others.value, data[..|data| - |others.rest|], |data| - |first.rest|, p);
    }
  }

  lemma PairsShape(n: nat, data: seq<Byte>)
    requires n > 0 && DecodePairs(n, data).Got?
    ensures var r, key := DecodePairs(n, data), Decode(data);
            && key.Got? && Decode(key.rest).Got?
            && var val := Decode(key.rest);
               var others := DecodePairs(n - 1, val.rest);
               others.Got? && r == Got([Pair(key.value, val.value)] + others.value, others.rest)
  {
    hide Decode;
  }

  lemma NoPairs(data: seq<Byte>, p: Parameter)
    ensures DecodePairs(0, data) == Got([], data) && StandsPairs([], [], p)
  {}

  lemma PairsJoin(pair: Pair, pairs: seq<Pair>, s: seq<Byte>, k: nat, m: nat, p: Parameter)
    requires PairsBelow([pair] + pairs, p) && PairsBelow(pairs, p)
    requires k <= m <= |s| && Stands(pair.key, s[..k]) && Stands(pair.value, s[k..m]) && StandsPairs(pairs, s[m..], p)
    ensures StandsPairs([pair] + pairs, s, p)
  {
    hide Stands;
    assert ([pair] + pairs)[1..] == pairs;
  }

  lemma {:induction false} PairsStand(n: nat, data: seq<Byte>, p: Parameter)
    requires DecodePairs(n, data).Got? && PairsBelow(DecodePairs(n, data).value, p)
    ensures var r := DecodePairs(n, data);
            && |r.rest| <= |data| && data == data[..|data| - |r.rest|] + r.rest && |r.value| == n
            && StandsPairs(r.value, data[..|data| - |r.rest|], p)
    decreases |data|, n + 1
  {
    hide Stands, Decode, DecodePairs, StandsPairs, PairsBelow;
    if n == 0 {
      NoPairs(data, p);
      assert data == data[..0] + data;
    } else {
      PairsShape(n, data);
      var key := Decode(data);
      var val := Decode(key.rest);
      var others := DecodePairs(n - 1, val.rest);
      DecodedStands(data);
      DecodedStands(key.rest);
      OthersBelow(Pair(key.value, val.value), others.value, p);
      PairsStand(n - 1, val.rest, p);
      Pieces(data, key.rest, val.rest, others.rest);
      PairsJoin(Pair(key.value, val.value), others.value, data[..|data| - |others.rest|], |data| - |key.rest|,
                |data| - |val.rest|, p);
    }
  }

  lemma OthersBelow(pair: Pair, pairs: seq<Pair>, p: Parameter)
    requires PairsBelow([pair] + pairs, p)
    ensures PairsBelow(pairs, p)
  {
    forall i | 0 <= i < |pairs| ensures pairs[i].key < p && pairs[i].value < p {
      assert ([pair] + pairs)[i + 1] == pairs[i];
    }
  }

  /** Three pieces one after the other, and a rest. */
  lemma Pieces(d: seq<Byte>, a: seq<Byte>, b: seq<Byte>, c: seq<Byte>)
    requires |c| <= |b| <= |a| <= |d| && d == d[..|d| - |a|] + a
    requires a == a[..|a| - |b|] + b && b == b[..|b| - |c|] + c
    ensures var s := d[..|d| - |c|];
            && d == s + c && s[..|d| - |a|] == d[..|d| - |a|]
            && s[|d| - |a|..|d| - |b|] == a[..|a| - |b|] && s[|d| - |b|..] == b[..|b| - |c|]
  {
    assert d[|d| - |a|..] == a && a[|a| - |b|..] == b && b[|b| - |c|..] == c;
    assert d[|d| - |b|..] == b;
    assert d[|d| - |c|..] == c;
  }

  /** Decoding succeeds exactly on the byte strings that stand for a parameter, and yields that parameter. */
  lemma DecodesExactly(data: seq<Byte>, p: Parameter, rest: seq<Byte>)
    ensures Decode(data) == Got(p, rest) <==> exists s :: data == s + rest && Stands(p, s)
  {
    hide Decode, Stands;
    if Decode(data) == Got(p, rest) {
      DecodedStands(data);
      assert data == data[..|data| - |rest|] + rest;
    }
    if s :| data == s + rest && Stands(p, s) { StandsDecodes(p, s, rest); }
  }
}
