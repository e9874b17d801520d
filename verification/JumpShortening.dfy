/** The compiler's last pass: long jumps become short ones inside the byte array (pkg/compiler/codegen.go). */
module JumpShortening {
  import opened Bytes
  import opened Opcodes
  import opened Context
  import opened Instructions
  import opened InPlace

  /** Size difference of the two jump forms, and the size of INITSLOT. */
  const LONG_TO_SHORT_REMOVE_COUNT := 3

  // ----- the position map -----

  function CountBelow(offsets: seq<nat>, x: int): (n: nat)
    ensures n <= |offsets|
  {
    if offsets == [] then 0
    else CountBelow(offsets[..|offsets| - 1], x) + (if offsets[|offsets| - 1] < x then 1 else 0)
  }

  /** Where byte position x of the long program ends up once three bytes are gone for each earlier offset. */
  function Pos(offsets: seq<nat>, x: int): int {
    x - LONG_TO_SHORT_REMOVE_COUNT * CountBelow(offsets, x)
  }

  /** Distance, after the removal, between two positions that were r bytes apart. */
  function NewOffset(offsets: seq<nat>, ip: int, r: int): int { Pos(offsets, ip + r) - Pos(offsets, ip) }

  predicate Increasing(offsets: seq<nat>) {
    forall i, j :: 0 <= i < j < |offsets| ==> offsets[i] < offsets[j]
  }

  lemma {:induction false} CountBelowIsIndex(offsets: seq<nat>, k: nat, x: int)
    requires k <= |offsets|
    requires forall i :: 0 <= i < k ==> offsets[i] < x
    requires forall i :: k <= i < |offsets| ==> x <= offsets[i]
    ensures CountBelow(offsets, x) == k
  {
    if offsets != [] {
      CountBelowIsIndex(offsets[..|offsets| - 1], if k == |offsets| then k - 1 else k, x);
    }
  }

  // ----- the program-level specification -----

  /** Byte offsets of the first n instructions that are marked for shortening or removal. */
  function Offsets(p: seq<Ins>, cut: seq<bool>, n: nat): seq<nat>
    requires n <= |p| && n <= |cut|
  {
    if n == 0 then []
    else Offsets(p, cut, n - 1) + if cut[n - 1] then [Addr(p, n - 1)] else []
  }

  /** An instruction at address ip with its relative offsets recomputed for the shortened layout. */
  function FixIns(ins: Ins, ip: nat, offsets: seq<nat>): (fixed: Ins)
    ensures fixed.op == ins.op
    ensures WellFormed(ins) ==> |fixed.arg| == |ins.arg|
  {
    if IsShortJump(ins.op) then
      Ins(ins.op, [Low8(NewOffset(offsets, ip, OffsetOf(ins.arg)))])
    else if IsLongJump(ins.op) || ins.op == PUSHA then
      Ins(ins.op, LE32(NewOffset(offsets, ip, OffsetOf(ins.arg))))
    else if ins.op == TRYL && |ins.arg| == 8 then
      Ins(TRYL, LE32(NewOffset(offsets, ip, Signed32(ins.arg[..4])))
              + LE32(NewOffset(offsets, ip, Signed32(ins.arg[4..]))))
    else ins
  }

  /** What is left of one instruction: a marked INITSLOT disappears, a marked long jump keeps one offset byte. */
  function ShrinkIns(ins: Ins, cut: bool): seq<Ins> {
    if !cut then [ins]
    else if ins.op == INITSLOT then []
    else if IsLongJump(ins.op) && |ins.arg| == 4 then [Ins(ToShortForm(ins.op), ins.arg[..1])]
    else [ins]
  }

  function FixTo(p: seq<Ins>, offsets: seq<nat>, n: nat): (f: seq<Ins>)
    requires n <= |p|
    ensures |f| == n
  {
    if n == 0 then [] else FixTo(p, offsets, n - 1) + [FixIns(p[n - 1], Addr(p, n - 1), offsets)]
  }

  function ShrinkTo(f: seq<Ins>, cut: seq<bool>, n: nat): seq<Ins>
    requires n <= |f| && n <= |cut|
  {
    if n == 0 then [] else ShrinkTo(f, cut, n - 1) + ShrinkIns(f[n - 1], cut[n - 1])
  }

  /** The instruction list that the shortened bytes stand for. */
  function Shortened(p: seq<Ins>, cut: seq<bool>): seq<Ins>
    requires |cut| == |p|
  {
    ShrinkTo(FixTo(p, Offsets(p, cut, |p|), |p|), cut, |p|)
  }

  /** Only long jumps and INITSLOT may be marked, and short TRY is never emitted. */
  predicate Shortenable(p: seq<Ins>, cut: seq<bool>) {
    && |cut| == |p|
    && WellFormedProgram(p)
    && (forall i :: 0 <= i < |p| ==> p[i].op != TRY)
    && (forall i :: 0 <= i < |p| && cut[i] ==> p[i].op == INITSLOT || IsLongJump(p[i].op))
  }

  lemma {:induction false} FixToAt(p: seq<Ins>, offsets: seq<nat>, n: nat, i: nat)
    requires i < n <= |p|
    ensures FixTo(p, offsets, n)[i] == FixIns(p[i], Addr(p, i), offsets)
  {
    if i < n - 1 { FixToAt(p, offsets, n - 1, i); }
  }

  // ----- the in-place algorithm -----

  method PutUint32(b: array<Byte>, at: nat, v: int)
    requires at + 4 <= b.Length
    modifies b
    ensures b[..] == old(b[..])[..at] + LE32(v) + old(b[..])[at + 4..]
  {
    var le := LE32(v);
    b[at], b[at + 1], b[at + 2], b[at + 3] := le[0], le[1], le[2], le[3];
  }

  /** Buffer t is s after bytes src..end were copied to dst. */
  ghost predicate MovedDown(s: seq<Byte>, t: seq<Byte>, dst: int, src: int, end: int) {
    && |t| == |s| && 0 <= dst <= src <= end <= |s|
    && t[..dst] == s[..dst]
    && t[dst..dst + (end - src)] == s[src..end]
    && t[dst + (end - src)..] == s[dst + (end - src)..]
  }

  /** A move of size bytes towards the front; source and destination may overlap. */
  method MoveDown(b: array<Byte>, dst: nat, src: nat, size: nat)
    requires dst <= src && src + size <= b.Length
    modifies b
    ensures MovedDown(old(b[..]), b[..], dst, src, src + size)
  {
    var i := 0;
    while i < size
      invariant 0 <= i <= size
      invariant forall k :: 0 <= k < dst ==> b[k] == old(b[k])
      invariant forall k :: dst + i <= k < b.Length ==> b[k] == old(b[k])
      invariant forall k :: dst <= k < dst + i ==> b[k] == old(b[k - dst + src])
    {
      b[dst + i] := b[src + i];
      i := i + 1;
    }
    assert b[dst..dst + size] == old(b[src..src + size]);
    assert b[dst..dst + size] == b[..][dst..dst + size] && old(b[src..src + size]) == old(b[..])[src..src + size];
  }

  /** Least index at which a monotone predicate holds. */
  method Search(n: nat, f: nat -> bool) returns (i: nat)
    requires forall a, b :: 0 <= a <= b < n && f(a) ==> f(b)
    ensures i <= n
    ensures forall a :: 0 <= a < i ==> !f(a)
    ensures forall a :: i <= a < n ==> f(a)
  {
    var j := n;
    i := 0;
    while i < j
      invariant 0 <= i <= j <= n
      invariant forall a :: 0 <= a < i ==> !f(a)
      invariant forall a :: j <= a < n ==> f(a)
    {
      var h := (i + j) / 2;
      if !f(h) { i := h + 1; } else { j := h; }
    }
  }

  /** The correction is exactly the change that the position map makes to the distance from ip to target. */
  method CalcOffsetCorrection(ip: nat, target: int, offsets: seq<nat>) returns (c: int)
    requires Increasing(offsets)
    ensures target - ip + c == NewOffset(offsets, ip, target - ip)
  {
    hide NewOffset, CountBelow;
    var cnt := 0;
    var f := (i: nat) => i < |offsets| && (offsets[i] >= ip || offsets[i] >= target);
    var start := Search(|offsets|, f);
    forall a | 0 <= a < |offsets|
      ensures a < start <==> offsets[a] < ip && offsets[a] < target
    {
      assert f(a) <==> start <= a;
    }
    var i := start;
    while i < |offsets| && (offsets[i] < target || offsets[i] <= ip)
      invariant start <= i <= |offsets|
      invariant forall j :: start <= j < i ==> offsets[j] < target || offsets[j] <= ip
      invariant cnt == LONG_TO_SHORT_REMOVE_COUNT *
                       (if start < i && target <= ip && offsets[i - 1] == ip then i - 1 - start else i - start)
    {
      var ind := offsets[i];
      if ip <= ind < target || (ind != ip && target <= ind <= ip) {
        cnt := cnt + LONG_TO_SHORT_REMOVE_COUNT;
      }
      i := i + 1;
    }
    Correction(ip, target, offsets, start, i, cnt);
    if ip < target {
      return -cnt;
    }
    return cnt;
  }

  /** What the loop of the correction has counted. */
  lemma Correction(ip: nat, target: int, offsets: seq<nat>, start: nat, i: nat, cnt: int)
    requires Increasing(offsets) && start <= i <= |offsets|
    requires forall a :: 0 <= a < |offsets| ==> (a < start <==> offsets[a] < ip && offsets[a] < target)
    requires forall j :: start <= j < i ==> offsets[j] < target || offsets[j] <= ip
    requires i < |offsets| ==> offsets[i] >= target && offsets[i] > ip
    requires cnt == LONG_TO_SHORT_REMOVE_COUNT *
                    (if start < i && target <= ip && offsets[i - 1] == ip then i - 1 - start else i - start)
    ensures target - ip + (if ip < target then -cnt else cnt) == NewOffset(offsets, ip, target - ip)
  {
    if ip < target {
      CountBelowIsIndex(offsets, start, ip);
      CountBelowIsIndex(offsets, i, target);
    } else {
      CountBelowIsIndex(offsets, start, target);
      CountBelowIsIndex(offsets, if start < i && offsets[i - 1] == ip then i - 1 else i, ip);
    }
  }

  lemma {:induction false} FixedIsWellFormed(ins: Ins, ip: nat, offsets: seq<nat>)
    requires WellFormed(ins)
    ensures WellFormed(FixIns(ins, ip, offsets))
  {}

  lemma {:induction false} OffsetsIncrease(p: seq<Ins>, cut: seq<bool>, n: nat)
    requires n <= |p| && n <= |cut|
    ensures Increasing(Offsets(p, cut, n))
    ensures forall o :: o in Offsets(p, cut, n) ==> o < Addr(p, n)
  {
    if n > 0 {
      OffsetsIncrease(p, cut, n - 1);
      var before := Offsets(p, cut, n - 1);
      assert forall i :: 0 <= i < |before| ==> before[i] in before;
    }
  }

  method AlterShort(b: array<Byte>, ip: nat, at: nat, offsets: seq<nat>)
    requires Increasing(offsets) && at < b.Length
    modifies b
    ensures b[..] == old(b[..])[..at] + [Low8(NewOffset(offsets, ip, Signed8(old(b[at]))))] + old(b[..])[at + 1..]
  {
    var offset := Signed8(b[at]);
    var c := CalcOffsetCorrection(ip, ip + offset, offsets);
    b[at] := Low8(offset + c);
  }

  method AlterLong(b: array<Byte>, ip: nat, at: nat, offsets: seq<nat>)
    requires Increasing(offsets) && at + 4 <= b.Length
    modifies b
    ensures var offset := Signed32(old(b[at..at + 4]));
            b[..] == old(b[..])[..at] + LE32(NewOffset(offsets, ip, offset)) + old(b[..])[at + 4..]
  {
    var offset := Signed32(b[at..at + 4]);
    var c := CalcOffsetCorrection(ip, ip + offset, offsets);
    PutUint32(b, at, offset + c);
  }

  lemma TwoWords<T>(s: seq<T>, t: seq<T>, u: seq<T>, at: nat, c: seq<T>, d: seq<T>)
    requires at + 8 <= |s| && |c| == |d| == 4
    requires t == s[..at] + c + s[at + 4..] && u == t[..at + 4] + d + t[at + 8..]
    ensures u == s[..at] + (c + d) + s[at + 8..]
    ensures s[at..at + 4] == s[at..at + 8][..4] && t[at + 4..at + 8] == s[at..at + 8][4..]
  {}

  method AlterTry(b: array<Byte>, ip: nat, at: nat, offsets: seq<nat>)
    requires Increasing(offsets) && at + 8 <= b.Length
    modifies b
    ensures var arg := old(b[at..at + 8]);
            b[..] == old(b[..])[..at] + (LE32(NewOffset(offsets, ip, Signed32(arg[..4])))
                   + LE32(NewOffset(offsets, ip, Signed32(arg[4..])))) + old(b[..])[at + 8..]
  {
    hide LE32, NewOffset, Signed32, Increasing;
    ghost var s := b[..];
    AlterLong(b, ip, at, offsets);
    ghost var t := b[..];
    AlterLong(b, ip, at + 4, offsets);
    TwoWords(s, t, b[..], at, LE32(NewOffset(offsets, ip, Signed32(s[at..at + 4]))),
             LE32(NewOffset(offsets, ip, Signed32(t[at + 4..at + 8]))));
  }

  /** Recomputes the offsets of the one instruction whose parameter lies between ip and nextIP. */
  method AlterInstruction(b: array<Byte>, op: Byte, ip: nat, nextIP: nat, offsets: seq<nat>, ghost ins: Ins)
    requires Increasing(offsets) && WellFormed(ins) && ins.op == op && op != TRY
    requires nextIP == ip + 1 + |ins.arg| <= b.Length && b[ip + 1..nextIP] == ins.arg
    modifies b
    ensures b[..] == old(b[..])[..ip + 1] + FixIns(ins, ip, offsets).arg + old(b[..])[nextIP..]
  {
    hide LE32, NewOffset, Low8, Signed8, Signed32, WellFormed, Increasing;
    if ins.op !in {PUSHDATA1, PUSHDATA2, PUSHDATA4} { ArgumentSize(ins); }
    if IsShortJump(op) {
      AlterShort(b, ip, nextIP - 1, offsets);
    } else if IsLongJump(op) || op == PUSHA {
      AlterLong(b, ip, nextIP - 4, offsets);
    } else if op == TRYL {
      AlterTry(b, ip, nextIP - 8, offsets);
    } else {
      assert b[..] == b[..ip + 1] + b[ip + 1..nextIP] + b[nextIP..];
    }
  }

  /** One turn of pass one. */
  method AlterNext(b: array<Byte>, ctx: Cursor, f: Fetch, offsets: seq<nat>, ghost p: seq<Ins>, ghost g: seq<Ins>,
                   ghost i: nat)
    returns (next: Fetch)
    requires ctx.prog == b && Increasing(offsets) && SameShape(p, g) && WellFormedProgram(p)
    requires i < |p| && p[i].op != TRY && g[i] == FixIns(p[i], Addr(p, i), offsets)
    requires Standing(b[..], ctx.ip, ctx.nextip, f, p, g, i)
    modifies b, ctx
    ensures Standing(b[..], ctx.ip, ctx.nextip, next, p, g, i + 1)
  {
    hide FetchAt, Encode, FixIns, Increasing, Half, SameShape;
    HalfStep(p, g, i);
    AlterInstruction(b, f.op, ctx.ip, ctx.nextip, offsets, p[i]);
    NextIsInstruction(b[..], p, g, i + 1);
    next := ctx.Next();
  }

  lemma FixedShape(p: seq<Ins>, offsets: seq<nat>)
    requires WellFormedProgram(p)
    ensures SameShape(p, FixTo(p, offsets, |p|))
  {
    forall i | 0 <= i < |p| { FixedInstruction(p, offsets, i); }
  }

  /** Pass one: every relative offset in the script is recomputed where it stands. */
  method AlterOffsets(b: array<Byte>, offsets: seq<nat>, ghost p: seq<Ins>, ghost cut: seq<bool>)
    requires Shortenable(p, cut) && offsets == Offsets(p, cut, |p|)
    requires b[..] == Encode(p)
    modifies b
    ensures b[..] == Encode(FixTo(p, offsets, |p|))
  {
    hide FetchAt, Encode, Half, FixTo, SameShape, WellFormed;
    OffsetsIncrease(p, cut, |p|);
    ghost var g := FixTo(p, offsets, |p|);
    FixedShape(p, offsets);
    HalfBounds(p, g);
    ghost var i := 0;
    var ctx := new Cursor(b, 0);
    NextIsInstruction(b[..], p, g, 0);
    var f := ctx.Next();
    while f.Fetched?
      invariant fresh(ctx) && ctx.prog == b
      invariant 0 <= i <= |p|
      invariant Standing(b[..], ctx.ip, ctx.nextip, f, p, g, i)
      decreases |p| - i
    {
      FixToAt(p, offsets, |p|, i);
      f := AlterNext(b, ctx, f, offsets, p, g, i);
      i := i + 1;
    }
  }

  // ----- pass two: removal -----

  predicate CutShape(f: seq<Ins>, cut: seq<bool>) {
    && |cut| == |f|
    && forall k :: 0 <= k < |f| && cut[k] ==>
         || (f[k].op == INITSLOT && |f[k].arg| == 2)
         || (IsLongJump(f[k].op) && |f[k].arg| == 4)
  }

  /** The bytes a marked instruction leaves behind. */
  function Head(ins: Ins): seq<Byte> {
    if IsLongJump(ins.op) && |ins.arg| == 4 then [ToShortForm(ins.op), ins.arg[0]] else []
  }

  function NextCut(cut: seq<bool>, k: nat): (n: nat)
    requires k <= |cut|
    ensures k <= n <= |cut| && (n < |cut| ==> cut[n])
    ensures forall j :: k <= j < n ==> !cut[j]
    decreases |cut| - k
  {
    if k == |cut| || cut[k] then k else NextCut(cut, k + 1)
  }

  /** A stretch of unmarked instructions is copied unchanged. */
  lemma {:induction false} ShrinkStretch(f: seq<Ins>, cut: seq<bool>, k: nat, n: nat)
    requires |cut| == |f| && k <= n <= |f| && forall j :: k <= j < n ==> !cut[j]
    ensures ShrinkTo(f, cut, n) == ShrinkTo(f, cut, k) + f[k..n]
    ensures Offsets(f, cut, n) == Offsets(f, cut, k)
  {
    if k < n {
      ShrinkStretch(f, cut, k, n - 1);
      assert f[k..n] == f[k..n - 1] + [f[n - 1]];
    } else {
      assert f[k..n] == [];
    }
  }

  lemma EncodeShrinkIns(f: seq<Ins>, cut: seq<bool>, k: nat)
    requires CutShape(f, cut) && k < |f| && cut[k]
    ensures Encode(ShrinkIns(f[k], true)) == Head(f[k])
  {}

  lemma EncodeThree(a: seq<Ins>, m: seq<Ins>, t: seq<Ins>)
    ensures Encode(a + m + t) == Encode(a) + Encode(m) + Encode(t)
  {
    EncodeAppend(a, m);
    EncodeAppend(a + m, t);
  }

  /** Output bytes up to the next marked instruction n after k. */
  lemma {:induction false} EncodeToNextCut(f: seq<Ins>, cut: seq<bool>, k: nat, n: nat)
    requires CutShape(f, cut) && k < n <= |f| && cut[k] && forall j :: k < j < n ==> !cut[j]
    ensures Encode(ShrinkTo(f, cut, n)) == Encode(ShrinkTo(f, cut, k)) + Head(f[k]) + Encode(f[k + 1..n])
  {
    hide Encode, Offsets, Head, ShrinkIns;
    EncodeShrinkIns(f, cut, k);
    ShrinkStretch(f, cut, k + 1, n);
    EncodeThree(ShrinkTo(f, cut, k), ShrinkIns(f[k], true), f[k + 1..n]);
  }

  lemma SliceEncode(f: seq<Ins>, i: nat, j: nat)
    requires i <= j <= |f|
    ensures Addr(f, i) <= Addr(f, j) <= |Encode(f)|
    ensures Encode(f)[Addr(f, i)..Addr(f, j)] == Encode(f[i..j])
  {
    hide Encode, Addr;
    EncodedLength(f, i);
    EncodedLength(f, j);
    AddrMonotone(f, i, j);
    assert f[..j] == f[..i] + f[i..j];
    EncodeAppend(f[..i], f[i..j]);
    assert f == f[..j] + f[j..];
    EncodeAppend(f[..j], f[j..]);
    MiddleOfThree(Encode(f[..i]), Encode(f[i..j]), Encode(f[j..]));
  }

  lemma MiddleOfThree<T>(a: seq<T>, b: seq<T>, c: seq<T>)
    ensures (a + b + c)[|a|..|a| + |b|] == b
  {}

  /** First byte removed for marked instruction k: the whole INITSLOT, or what follows opcode and low offset byte. */
  function StartOf(f: seq<Ins>, k: nat): nat
    requires k < |f|
  {
    Addr(f, k) + |Head(f[k])|
  }

  /** Head of turn i of pass two, about to remove bytes of marked instruction k. */
  ghost predicate Shrinking(s: seq<Byte>, f: seq<Ins>, cut: seq<bool>, offsets: seq<nat>, k: nat, i: nat)
    requires CutShape(f, cut)
  {
    && k < |f| && cut[k] && i < |offsets| && offsets[i] == Addr(f, k)
    && offsets == Offsets(f, cut, |f|) && offsets[..i] == Offsets(f, cut, k)
    && |s| == |Encode(f)| && Addr(f, k + 1) == StartOf(f, k) + 3 <= |s|
    && |Encode(ShrinkTo(f, cut, k))| == Addr(f, k) - LONG_TO_SHORT_REMOVE_COUNT * i
    && s[..StartOf(f, k) - LONG_TO_SHORT_REMOVE_COUNT * i] == Encode(ShrinkTo(f, cut, k)) + Head(f[k])
    && s[Addr(f, k + 1)..] == Encode(f)[Addr(f, k + 1)..]
    && (s[Addr(f, k)] == INITSLOT <==> f[k].op == INITSLOT)
  }

  /** What a correct turn leaves behind: the next turn's state, or the finished output. */
  ghost predicate Shrunk(s: seq<Byte>, f: seq<Ins>, cut: seq<bool>, offsets: seq<nat>, k: nat, i: nat)
    requires CutShape(f, cut) && k <= |f|
  {
    if i < |offsets| then Shrinking(s, f, cut, offsets, k, i)
    else
      && |s| == |Encode(f)| >= LONG_TO_SHORT_REMOVE_COUNT * i
      && s[..|s| - LONG_TO_SHORT_REMOVE_COUNT * i] == Encode(ShrinkTo(f, cut, |f|))
  }

  /** End of the bytes that turn i moves, given the next marked instruction n. */
  function EndOf(f: seq<Ins>, n: nat): nat
    requires n <= |f|
  {
    if n < |f| then StartOf(f, n) else Addr(f, n)
  }

  lemma {:induction false} OffsetsArePrefix(f: seq<Ins>, cut: seq<bool>, k: nat, n: nat)
    requires |cut| == |f| && k <= n <= |f|
    ensures Offsets(f, cut, k) <= Offsets(f, cut, n)
  {
    if k < n { OffsetsArePrefix(f, cut, k, n - 1); }
  }

  lemma NextOffset(f: seq<Ins>, cut: seq<bool>, k: nat)
    requires |cut| == |f| && k < |f| && cut[k]
    ensures var offsets, n := Offsets(f, cut, |f|), NextCut(cut, k + 1);
            var i := |Offsets(f, cut, k)|;
            && i < |offsets| && offsets[i] == Addr(f, k) && offsets[..i] == Offsets(f, cut, k)
            && Offsets(f, cut, n) == offsets[..i + 1]
            && (i + 1 < |offsets| <==> n < |f|)
            && (n < |f| ==> offsets[i + 1] == Addr(f, n))
  {
    hide Offsets, Addr, ShrinkTo, NextCut;
    var n := NextCut(cut, k + 1);
    OffsetStep(f, cut, k);
    OffsetsArePrefix(f, cut, k + 1, |f|);
    OffsetsArePrefix(f, cut, k, |f|);
    ShrinkStretch(f, cut, k + 1, n);
    if n < |f| {
      OffsetStep(f, cut, n);
      OffsetsArePrefix(f, cut, n + 1, |f|);
    }
  }

  lemma OffsetStep(f: seq<Ins>, cut: seq<bool>, k: nat)
    requires |cut| == |f| && k < |f| && cut[k]
    ensures Offsets(f, cut, k + 1) == Offsets(f, cut, k) + [Addr(f, k)]
  {}

  /** Bytes of the stretch between two marked instructions, read from a buffer whose tail is still the old program. */
  lemma StretchBytes(f: seq<Ins>, k: nat, n: nat, s: seq<Byte>)
    requires k < n <= |f| && Addr(f, k + 1) <= |s| == |Encode(f)|
    requires s[Addr(f, k + 1)..] == Encode(f)[Addr(f, k + 1)..]
    ensures Addr(f, k + 1) <= Addr(f, n) <= |s|
    ensures s[Addr(f, k + 1)..Addr(f, n)] == Encode(f[k + 1..n])
    ensures n < |f| ==> Addr(f, n) + 1 + |f[n].arg| == Addr(f, n + 1) <= |s| && s[Addr(f, n)] == f[n].op
    ensures n < |f| && |f[n].arg| > 0 ==> s[Addr(f, n) + 1] == f[n].arg[0]
    ensures n == |f| ==> Addr(f, n) == |s|
  {
    var e, lo, mid := Encode(f), Addr(f, k + 1), Addr(f, n);
    SliceEncode(f, k + 1, n);
    EncodedLength(f, |f|);
    assert f[..|f|] == f;
    TailSlice(s, e, lo, lo, mid);
    if n < |f| {
      StretchHead(f, n, s, lo);
    }
  }

  lemma TailSlice(s: seq<Byte>, e: seq<Byte>, lo: nat, i: nat, j: nat)
    requires lo <= i <= j <= |s| == |e| && s[lo..] == e[lo..]
    ensures s[i..j] == e[i..j]
    ensures i < |s| ==> s[i] == e[i]
  {}

  lemma StretchHead(f: seq<Ins>, n: nat, s: seq<Byte>, lo: nat)
    requires n < |f| && lo <= Addr(f, n) <= |s| == |Encode(f)| && s[lo..] == Encode(f)[lo..]
    ensures Addr(f, n) + 1 + |f[n].arg| == Addr(f, n + 1) <= |s| && s[Addr(f, n)] == f[n].op
    ensures |f[n].arg| > 0 ==> s[Addr(f, n) + 1] == f[n].arg[0]
  {
    EncodeSplit(f, n);
    var e, mid := Encode(f), Addr(f, n);
    TailSlice(s, e, lo, mid, mid);
    if |f[n].arg| > 0 { TailSlice(s, e, lo, mid + 1, mid + 1); }
    assert e[mid] == InsBytes(f[n])[0];
    assert |f[n].arg| > 0 ==> e[mid + 1] == InsBytes(f[n])[1];
  }

  /** The buffer t after the bytes between marked instruction k and the next one, n, moved down. */
  ghost predicate Moved(s: seq<Byte>, t: seq<Byte>, f: seq<Ins>, k: nat, n: nat, dst: int)
    requires k < n <= |f|
  {
    var moved := Encode(f[k + 1..n]) + if n < |f| then Head(f[n]) else [];
    && |t| == |s| && 0 <= dst && dst + |moved| <= |t|
    && t[..dst] == s[..dst] && t[dst..dst + |moved|] == moved
    && EndOf(f, n) == Addr(f, k + 1) + |moved|
  }

  lemma MovedPrefix(s: seq<Byte>, t: seq<Byte>, f: seq<Ins>, cut: seq<bool>, offsets: seq<nat>, k: nat, n: nat, i: nat)
    requires CutShape(f, cut) && Shrinking(s, f, cut, offsets, k, i) && n == NextCut(cut, k + 1)
    requires Moved(s, t, f, k, n, StartOf(f, k) - LONG_TO_SHORT_REMOVE_COUNT * i)
    ensures var e := EndOf(f, n) - LONG_TO_SHORT_REMOVE_COUNT * (i + 1);
            0 <= e <= |t| && t[..e] == Encode(ShrinkTo(f, cut, n)) + if n < |f| then Head(f[n]) else []
  {
    hide Encode, ShrinkTo, Offsets, Addr, Head;
    EncodeToNextCut(f, cut, k, n);
    JoinPrefix(t, StartOf(f, k) - LONG_TO_SHORT_REMOVE_COUNT * i, Encode(ShrinkTo(f, cut, k)), Head(f[k]),
               Encode(f[k + 1..n]), if n < |f| then Head(f[n]) else []);
  }

  lemma TurnContinues(s: seq<Byte>, t: seq<Byte>, f: seq<Ins>, cut: seq<bool>, offsets: seq<nat>, k: nat, n: nat,
                      i: nat)
    requires CutShape(f, cut) && Shrinking(s, f, cut, offsets, k, i) && n == NextCut(cut, k + 1) < |f|
    requires Moved(s, t, f, k, n, StartOf(f, k) - LONG_TO_SHORT_REMOVE_COUNT * i)
    requires Addr(f, k + 1) <= Addr(f, n + 1) == StartOf(f, n) + 3 <= |s| && t[Addr(f, n + 1)..] == s[Addr(f, n + 1)..]
    requires t[Addr(f, n)] == INITSLOT <==> f[n].op == INITSLOT
    ensures Shrinking(t, f, cut, offsets, n, i + 1)
  {
    hide Encode, ShrinkTo, Offsets, Addr, Head;
    NextOffset(f, cut, k);
    MovedPrefix(s, t, f, cut, offsets, k, n, i);
    TailSlice(s, Encode(f), Addr(f, k + 1), Addr(f, n + 1), |s|);
  }

  lemma JoinPrefix(t: seq<Byte>, dst: nat, a: seq<Byte>, h: seq<Byte>, m: seq<Byte>, z: seq<Byte>)
    requires dst + |m + z| <= |t| && t[..dst] == a + h && t[dst..dst + |m + z|] == m + z
    ensures t[..dst + |m + z|] == a + h + m + z
  {}

  lemma UpdateThenSlice<T>(s: seq<T>, lo: nat, mid: nat, x: T)
    requires lo <= mid && mid + 2 <= |s|
    ensures s[mid := x][lo..mid + 2] == s[lo..mid] + [x, s[mid + 1]]
  {}

  /** The stretch that turn i moves, read after the next marked opcode was replaced by its short form. */
  lemma StretchWithHead(f: seq<Ins>, cut: seq<bool>, k: nat, n: nat, s: seq<Byte>, s': seq<Byte>)
    requires CutShape(f, cut) && k < n <= |f| && (n < |f| ==> cut[n])
    requires Addr(f, k + 1) <= |s| == |Encode(f)| && s[Addr(f, k + 1)..] == Encode(f)[Addr(f, k + 1)..]
    requires Addr(f, n) <= |s| && (n < |f| ==> Addr(f, n) < |s|)
    requires s' == if n < |f| && IsLongJump(f[n].op) then s[Addr(f, n) := ToShortForm(f[n].op)] else s
    ensures Addr(f, k + 1) <= EndOf(f, n) <= |s|
    ensures s'[Addr(f, k + 1)..EndOf(f, n)] == Encode(f[k + 1..n]) + if n < |f| then Head(f[n]) else []
  {
    hide Encode, Addr, FetchAt;
    StretchBytes(f, k, n, s);
    if n < |f| && IsLongJump(f[n].op) {
      UpdateThenSlice(s, Addr(f, k + 1), Addr(f, n), ToShortForm(f[n].op));
    }
  }

  /** The next marked opcode, if it is a jump, has its short form. */
  ghost predicate OpReplaced(s: seq<Byte>, s': seq<Byte>, f: seq<Ins>, n: nat)
    requires n <= |f|
  {
    if n < |f| && IsLongJump(f[n].op) then Addr(f, n) < |s| && s' == s[Addr(f, n) := ToShortForm(f[n].op)] else s' == s
  }

  lemma AfterMove(s: seq<Byte>, s': seq<Byte>, t: seq<Byte>, f: seq<Ins>, cut: seq<bool>, offsets: seq<nat>,
                  k: nat, n: nat, i: nat)
    requires CutShape(f, cut) && Shrinking(s, f, cut, offsets, k, i) && n == NextCut(cut, k + 1)
    requires OpReplaced(s, s', f, n)
    requires MovedDown(s', t, StartOf(f, k) - LONG_TO_SHORT_REMOVE_COUNT * i, Addr(f, k + 1), EndOf(f, n))
    ensures Shrunk(t, f, cut, offsets, n, i + 1)
  {
    hide Encode, ShrinkTo, Offsets, Addr, NextCut;
    TurnFacts(s, f, cut, offsets, k, n, i);
    var dst := StartOf(f, k) - LONG_TO_SHORT_REMOVE_COUNT * i;
    var size := EndOf(f, n) - Addr(f, k + 1);
    StretchWithHead(f, cut, k, n, s, s');
    assert t[..dst] == s[..dst];
    assert Moved(s, t, f, k, n, dst);
    if n < |f| {
      TailAfterMove(s, s', t, dst + size, Addr(f, n), EndOf(f, n), Addr(f, n + 1));
      TurnContinues(s, t, f, cut, offsets, k, n, i);
    } else {
      MovedPrefix(s, t, f, cut, offsets, k, n, i);
    }
    NextOffset(f, cut, k);
  }

  lemma TailAfterMove(s: seq<Byte>, s': seq<Byte>, t: seq<Byte>, w: nat, mid: nat, end: nat, next: nat)
    requires |s| == |s'| == |t| && w + 3 <= end && mid <= end <= mid + 2 && end < next == end + 3 <= |s|
    requires forall x :: 0 <= x < |s| && x != mid ==> s'[x] == s[x]
    requires t[w..] == s'[w..]
    ensures t[next..] == s[next..] && t[mid] == s'[mid]
  {}

  /** Everything a turn reads from the buffer, in terms of the program. */
  lemma TurnFacts(s: seq<Byte>, f: seq<Ins>, cut: seq<bool>, offsets: seq<nat>, k: nat, n: nat, i: nat)
    requires CutShape(f, cut) && Shrinking(s, f, cut, offsets, k, i) && n == NextCut(cut, k + 1)
    ensures k < n <= |f| && i < |offsets| && offsets[i] < |s|
    ensures StartOf(f, k) == if s[offsets[i]] == INITSLOT then offsets[i] else offsets[i] + 2
    ensures LONG_TO_SHORT_REMOVE_COUNT * i <= StartOf(f, k) && StartOf(f, k) + 3 == Addr(f, k + 1) <= EndOf(f, n) <= |s|
    ensures Addr(f, k + 1) <= Addr(f, n) <= |s|
    ensures n == |f| <==> i == |offsets| - 1
    ensures n == |f| ==> EndOf(f, n) == Addr(f, n) == |s|
    ensures n < |f| ==>
              && offsets[i + 1] == Addr(f, n) < |s| && s[offsets[i + 1]] == f[n].op
              && (f[n].op != INITSLOT <==> IsLongJump(f[n].op))
              && EndOf(f, n) == (if f[n].op == INITSLOT then Addr(f, n) else Addr(f, n) + 2)
              && Addr(f, n) + 1 + |f[n].arg| == Addr(f, n + 1) <= |s|
  {
    hide Encode, ShrinkTo, Offsets, Addr;
    NextOffset(f, cut, k);
    StretchBytes(f, k, n, s);
  }

  /** Range of bytes that turn i moves; the next marked jump gets its short opcode on the way. */
  method PrepareTurn(b: array<Byte>, offsets: seq<nat>, i: nat, ghost f: seq<Ins>, ghost cut: seq<bool>, ghost k: nat,
                     ghost n: nat)
    returns (start: nat, end: nat)
    requires CutShape(f, cut) && Shrinking(b[..], f, cut, offsets, k, i) && n == NextCut(cut, k + 1)
    modifies b
    ensures start == StartOf(f, k) && end == EndOf(f, n)
    ensures OpReplaced(old(b[..]), b[..], f, n)
  {
    TurnFacts(b[..], f, cut, offsets, k, n, i);
    hide Shrinking, CutShape, Addr, StartOf, EndOf, NextCut;
    start := offsets[i] + 2;
    if b[offsets[i]] == INITSLOT { start := offsets[i]; }
    end := b.Length;
    if i != |offsets| - 1 {
      end := offsets[i + 1];
      var op := b[offsets[i + 1]];
      if op != INITSLOT {
        end := end + 2;
        b[offsets[i + 1]] := ToShortForm(op);
      }
    }
  }

  /** One turn of pass two: removes the bytes of marked instruction k by moving the stretch after it down. */
  method ShrinkNext(b: array<Byte>, offsets: seq<nat>, i: nat, ghost f: seq<Ins>, ghost cut: seq<bool>, ghost k: nat,
                    ghost n: nat)
    requires CutShape(f, cut) && Shrinking(b[..], f, cut, offsets, k, i) && n == NextCut(cut, k + 1)
    modifies b
    ensures n <= |f| && Shrunk(b[..], f, cut, offsets, n, i + 1)
  {
    hide Shrinking, Shrunk, StartOf, EndOf, OpReplaced, MovedDown, Addr, Head, Encode, Offsets, ShrinkTo;
    ghost var s := b[..];
    TurnFacts(s, f, cut, offsets, k, n, i);
    var start, end := PrepareTurn(b, offsets, i, f, cut, k, n);
    ghost var s' := b[..];
    MoveDown(b, start - LONG_TO_SHORT_REMOVE_COUNT * i, start + 3, end - (start + 3));
    AfterMove(s, s', b[..], f, cut, offsets, k, n, i);
  }

  lemma FirstMarked(f: seq<Ins>, cut: seq<bool>, offsets: seq<nat>, k: nat)
    requires CutShape(f, cut) && offsets == Offsets(f, cut, |f|) && offsets != []
    requires k == NextCut(cut, 0)
    ensures k < |f| && cut[k] && offsets[0] == Addr(f, k) < Addr(f, k + 1) <= |Encode(f)|
    ensures Addr(f, k + 1) == Addr(f, k) + 1 + |f[k].arg|
    ensures Encode(f)[offsets[0]] == f[k].op && (|f[k].arg| > 0 ==> Encode(f)[offsets[0] + 1] == f[k].arg[0])
    ensures Encode(f)[..offsets[0]] == Encode(ShrinkTo(f, cut, k))
    ensures Offsets(f, cut, k) == []
  {
    hide Encode, Addr, NextCut;
    FirstStretch(f, cut, k);
    NextOffset(f, cut, k);
    EncodeSplit(f, k);
    StretchHead(f, k, Encode(f), Addr(f, k));
    PrefixOfThree(Encode(f[..k]), InsBytes(f[k]), Encode(f[k + 1..]));
  }

  lemma PrefixOfThree<T>(a: seq<T>, b: seq<T>, c: seq<T>)
    ensures (a + b + c)[..|a|] == a
  {}

  /** Up to the first mark nothing has changed; with offsets there is a mark. */
  lemma FirstStretch(f: seq<Ins>, cut: seq<bool>, k: nat)
    requires |cut| == |f| && Offsets(f, cut, |f|) != [] && k == NextCut(cut, 0)
    ensures k < |f| && ShrinkTo(f, cut, k) == f[..k] && Offsets(f, cut, k) == []
  {
    hide Addr, NextCut;
    ShrinkStretch(f, cut, 0, k);
    assert ShrinkTo(f, cut, 0) == [] && Offsets(f, cut, 0) == [];
    assert [] + f[0..k] == f[..k];
  }

  /** The buffer when pass two begins, after the first marked opcode was replaced. */
  lemma FirstTurn(e: seq<Byte>, s: seq<Byte>, f: seq<Ins>, cut: seq<bool>, offsets: seq<nat>, k: nat)
    requires CutShape(f, cut) && offsets == Offsets(f, cut, |f|) && offsets != []
    requires k == NextCut(cut, 0) && e == Encode(f) && OpReplaced(e, s, f, k)
    ensures k < |f| && Shrinking(s, f, cut, offsets, k, 0)
  {
    hide Encode, Addr, ShrinkTo, Offsets, NextCut;
    FirstMarked(f, cut, offsets, k);
    var a := offsets[0];
    assert s[..a] == e[..a];
    if IsLongJump(f[k].op) {
      assert s[..a + 2] == s[..a] + [s[a], s[a + 1]];
    }
    assert s[Addr(f, k + 1)..] == e[Addr(f, k + 1)..];
    assert offsets[..0] == [];
  }

  /** Pass two: the marked bytes are removed and what follows them moves down. */
  method RemoveMarked(b: array<Byte>, offsets: seq<nat>, ghost f: seq<Ins>, ghost cut: seq<bool>) returns (n: nat)
    requires CutShape(f, cut) && offsets == Offsets(f, cut, |f|) && offsets != []
    requires b[..] == Encode(f)
    modifies b
    ensures n <= b.Length && b[..n] == Encode(ShrinkTo(f, cut, |f|))
  {
    hide Offsets, Encode, ShrinkTo, Addr, Shrinking;
    ghost var k: nat := NextCut(cut, 0);
    FirstMarked(f, cut, offsets, k);
    ghost var s := b[..];
    var op := b[offsets[0]];
    if op != INITSLOT { b[offsets[0]] := ToShortForm(op); }
    FirstTurn(s, b[..], f, cut, offsets, k);
    var i := 0;
    while i < |offsets|
      invariant 0 <= i <= |offsets| && k <= |f|
      invariant Shrunk(b[..], f, cut, offsets, k, i)
    {
      ghost var next := NextAfter(cut, k, b[..], f, offsets, i);
      ShrinkNext(b, offsets, i, f, cut, k, next);
      k := next;
      i := i + 1;
    }
    n := b.Length - LONG_TO_SHORT_REMOVE_COUNT * |offsets|;
  }

  ghost function NextAfter(cut: seq<bool>, k: nat, s: seq<Byte>, f: seq<Ins>, offsets: seq<nat>, i: nat): (n: nat)
    requires CutShape(f, cut) && Shrinking(s, f, cut, offsets, k, i)
    ensures k + 1 <= |cut| && n == NextCut(cut, k + 1)
  {
    NextCut(cut, k + 1)
  }

  lemma FixWithoutOffsets(ins: Ins, ip: nat)
    requires WellFormed(ins)
    ensures FixIns(ins, ip, []) == ins
  {
    hide FetchAt, WellFormed, LE32, Signed32;
    if ins.op !in {PUSHDATA1, PUSHDATA2, PUSHDATA4} { ArgumentSize(ins); }
    assert forall r :: NewOffset([], ip, r) == r;
    if IsLongJump(ins.op) || ins.op == PUSHA {
      LE32OfSigned32(ins.arg);
    } else if ins.op == TRYL {
      LE32OfSigned32(ins.arg[..4]);
      LE32OfSigned32(ins.arg[4..]);
      assert ins.arg == ins.arg[..4] + ins.arg[4..];
    }
  }

  lemma {:induction false} NothingMarked(p: seq<Ins>, cut: seq<bool>, n: nat)
    requires |cut| == |p| && n <= |p| && Offsets(p, cut, n) == [] && WellFormedProgram(p)
    ensures FixTo(p, [], n) == ShrinkTo(p, cut, n) == p[..n]
  {
    hide FetchAt, FixIns, WellFormed, Addr;
    if n > 0 {
      NoOffsetNoMark(p, cut, n);
      NothingMarked(p, cut, n - 1);
      FixWithoutOffsets(p[n - 1], Addr(p, n - 1));
      TakeOneMore(p, n);
    }
  }

  lemma NoOffsetNoMark(p: seq<Ins>, cut: seq<bool>, n: nat)
    requires |cut| == |p| && 0 < n <= |p| && Offsets(p, cut, n) == []
    ensures !cut[n - 1] && Offsets(p, cut, n - 1) == []
  {}

  lemma TakeOneMore<T>(s: seq<T>, n: nat)
    requires 0 < n <= |s|
    ensures s[..n] == s[..n - 1] + [s[n - 1]]
  {}

  lemma {:induction false} OffsetsDependOnSizes(p: seq<Ins>, f: seq<Ins>, cut: seq<bool>, n: nat)
    requires |cut| == |p| == |f| && n <= |p|
    requires forall j :: 0 <= j < |p| ==> |p[j].arg| == |f[j].arg|
    ensures Offsets(p, cut, n) == Offsets(f, cut, n)
  {
    if n > 0 {
      OffsetsDependOnSizes(p, f, cut, n - 1);
      AddrDependsOnSizes(p, f, n - 1);
    }
  }

  lemma FixedInstruction(p: seq<Ins>, offsets: seq<nat>, i: nat)
    requires WellFormedProgram(p) && i < |p|
    ensures var x := FixTo(p, offsets, |p|)[i];
            && WellFormed(x) && x.op == p[i].op && |x.arg| == |p[i].arg|
            && (x.op == INITSLOT ==> |x.arg| == 2) && (IsLongJump(x.op) ==> |x.arg| == 4)
  {
    hide FetchAt;
    FixToAt(p, offsets, |p|, i);
    FixedIsWellFormed(p[i], Addr(p, i), offsets);
    if p[i].op !in {PUSHDATA1, PUSHDATA2, PUSHDATA4} { ArgumentSize(p[i]); }
  }

  /** Fixing offsets keeps every instruction's place, so the marked ones are still where they were. */
  lemma FixedProgram(p: seq<Ins>, cut: seq<bool>)
    requires Shortenable(p, cut)
    ensures var f := FixTo(p, Offsets(p, cut, |p|), |p|);
            && CutShape(f, cut) && WellFormedProgram(f)
            && Offsets(f, cut, |f|) == Offsets(p, cut, |p|)
            && forall i :: 0 <= i <= |p| ==> Addr(f, i) == Addr(p, i)
  {
    hide FetchAt, WellFormed, Offsets, FixTo;
    var offsets := Offsets(p, cut, |p|);
    var f := FixTo(p, offsets, |p|);
    forall i | 0 <= i < |p|
      ensures WellFormed(f[i]) && |f[i].arg| == |p[i].arg|
      ensures cut[i] ==> if f[i].op == INITSLOT then |f[i].arg| == 2 else IsLongJump(f[i].op) && |f[i].arg| == 4
    {
      FixedInstruction(p, offsets, i);
    }
    forall i | 0 <= i <= |p| ensures Addr(f, i) == Addr(p, i) { AddrDependsOnSizes(p, f, i); }
    OffsetsDependOnSizes(p, f, cut, |p|);
  }

  /** The pass as a whole: the first n bytes left in the array are exactly the shortened program. */
  method ShortenJumps(b: array<Byte>, offsets: seq<nat>, ghost p: seq<Ins>, ghost cut: seq<bool>) returns (n: nat)
    requires Shortenable(p, cut) && offsets == Offsets(p, cut, |p|)
    requires b[..] == Encode(p)
    modifies b
    ensures n <= b.Length && b[..n] == Encode(Shortened(p, cut))
  {
    hide Encode, Offsets, FixTo, ShrinkTo, Shortenable, CutShape;
    if |offsets| == 0 {
      UnmarkedUnchanged(p, cut);
      return b.Length;
    }
    FixedProgram(p, cut);
    AlterOffsets(b, offsets, p, cut);
    n := RemoveMarked(b, offsets, FixTo(p, offsets, |p|), cut);
  }

  lemma UnmarkedUnchanged(p: seq<Ins>, cut: seq<bool>)
    requires Shortenable(p, cut) && Offsets(p, cut, |p|) == []
    ensures Shortened(p, cut) == p
  {
    NothingMarked(p, cut, |p|);
    assert p[..|p|] == p;
  }
}
