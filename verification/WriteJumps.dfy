/** Label resolution: label numbers in long-form instructions become relative offsets (pkg/compiler/codegen.go). */
module WriteJumps {
  import opened Bytes
  import opened Opcodes
  import opened Context
  import opened Instructions
  import opened InPlace
  import opened JumpShortening
  import opened ShortenedProgram

  /** How a step ends: a value, a reported error, or a run-time panic on a label equal to the table's length. */
  datatype Outcome<T> = Done(value: T) | Failed | Panics

  /** Relative offset for the label number stored in the first two parameter bytes. */
  function LabelOffset(l: seq<int>, ip: nat, arg: seq<Byte>): Outcome<int>
    requires |arg| == 4
  {
    var index := U16(arg[..2]);
    if index > |l| then Failed
    else if index == |l| then Panics
    else if l[index] < 0 then Failed
    else if !IsInt32(l[index] - ip) then Failed
    else Done(l[index] - ip)
  }

  function CountAt(counts: map<nat, nat>, ip: nat): nat { if ip in counts then counts[ip] else 0 }

  /** The instruction at address ip with labels replaced, and whether it is marked for shortening. */
  function ResolveIns(ins: Ins, ip: nat, l: seq<int>, counts: map<nat, nat>): (r: Outcome<(Ins, bool)>)
    ensures r.Done? ==> r.value.0.op == ins.op && |r.value.0.arg| == |ins.arg|
  {
    if ins.op == TRYL && |ins.arg| == 8 then
      match LabelOffset(l, ip, ins.arg[..4])
      case Failed => Failed
      case Panics => Panics
      case Done(c) =>
        match LabelOffset(l, ip, ins.arg[4..])
        case Failed => Failed
        case Panics => Panics
        case Done(d) => Done((Ins(TRYL, LE32(c) + LE32(d)), false))
    else if (IsLongJump(ins.op) || ins.op == PUSHA) && |ins.arg| == 4 then
      match LabelOffset(l, ip, ins.arg)
      case Failed => Failed
      case Panics => Panics
      case Done(offset) => Done((Ins(ins.op, LE32(offset)), ins.op != PUSHA && IsInt8(offset)))
    else if ins.op == INITSLOT && |ins.arg| == 2 then
      var count := CountAt(counts, ip);
      if count == 0 && ins.arg[1] == 0 then Done((ins, true))
      else if count > 255 then Failed
      else Done((Ins(INITSLOT, [count, ins.arg[1]]), false))
    else Done((ins, false))
  }

  /** What the whole pass yields on the instructions before n; the first failure wins. */
  function Resolve(p: seq<Ins>, l: seq<int>, counts: map<nat, nat>, n: nat): (r: Outcome<(seq<Ins>, seq<bool>)>)
    requires n <= |p|
    ensures r.Done? ==> |r.value.0| == |r.value.1| == n
  {
    if n == 0 then Done(([], []))
    else
      match Resolve(p, l, counts, n - 1)
      case Failed => Failed
      case Panics => Panics
      case Done(before) =>
        match ResolveIns(p[n - 1], Addr(p, n - 1), l, counts)
        case Failed => Failed
        case Panics => Panics
        case Done(x) => Done((before.0 + [x.0], before.1 + [x.1]))
  }

  /** Target of the in-place pass: resolved where possible, otherwise untouched. */
  function Goal(p: seq<Ins>, l: seq<int>, counts: map<nat, nat>, n: nat): (g: seq<Ins>)
    requires n <= |p|
    ensures |g| == n
  {
    if n == 0 then []
    else
      var r := ResolveIns(p[n - 1], Addr(p, n - 1), l, counts);
      Goal(p, l, counts, n - 1) + [if r.Done? then r.value.0 else p[n - 1]]
  }

  lemma {:induction false} GoalAt(p: seq<Ins>, l: seq<int>, counts: map<nat, nat>, n: nat, i: nat)
    requires i < n <= |p|
    ensures var r := ResolveIns(p[i], Addr(p, i), l, counts);
            Goal(p, l, counts, n)[i] == if r.Done? then r.value.0 else p[i]
  {
    if i < n - 1 { GoalAt(p, l, counts, n - 1, i); }
  }

  lemma {:induction false} GoalIsResolved(p: seq<Ins>, l: seq<int>, counts: map<nat, nat>, n: nat)
    requires n <= |p| && Resolve(p, l, counts, n).Done?
    ensures Resolve(p, l, counts, n).value.0 == Goal(p, l, counts, n)
  {
    if n > 0 { GoalIsResolved(p, l, counts, n - 1); }
  }

  lemma GoalShape(p: seq<Ins>, l: seq<int>, counts: map<nat, nat>)
    ensures SameShape(p, Goal(p, l, counts, |p|))
  {
    hide ResolveIns;
    forall i | 0 <= i < |p| { GoalAt(p, l, counts, |p|, i); }
  }

  /** Writes the offset of one label over the label's number. */
  method ReplaceLabelWithOffset(b: array<Byte>, ip: nat, at: nat, l: seq<int>) returns (r: Outcome<int>)
    requires at + 4 <= b.Length
    modifies b
    ensures r == LabelOffset(l, ip, old(b[at..at + 4]))
    ensures b[..] == if r.Done? then old(b[..])[..at] + LE32(r.value) + old(b[..])[at + 4..] else old(b[..])
  {
    assert b[at..at + 4][..2] == b[at..at + 2];
    var index := U16(b[at..at + 2]);
    if index > |l| { return Failed; }
    if index == |l| { return Panics; }
    if l[index] < 0 { return Failed; }
    var offset := l[index] - ip;
    if !IsInt32(offset) { return Failed; }
    PutUint32(b, at, offset);
    return Done(offset);
  }

  method ResolveLong(b: array<Byte>, op: Byte, ip: nat, at: nat, l: seq<int>) returns (r: Outcome<bool>)
    requires at + 4 <= b.Length && (IsLongJump(op) || op == PUSHA)
    modifies b
    ensures var x := ResolveIns(Ins(op, old(b[at..at + 4])), ip, l, map[]);
            && (x.Failed? <==> r.Failed?) && (x.Panics? <==> r.Panics?)
            && (x.Done? ==> r == Done(x.value.1)
                            && b[..] == old(b[..])[..at] + x.value.0.arg + old(b[..])[at + 4..])
  {
    hide LE32, LabelOffset;
    var o := ReplaceLabelWithOffset(b, ip, at, l);
    match o
    case Done(offset) => return Done(op != PUSHA && IsInt8(offset));
    case Failed => return Failed;
    case Panics => return Panics;
  }

  /** Fills in the local variable count of a function prologue. */
  method ResolveInitSlot(b: array<Byte>, ip: nat, counts: map<nat, nat>) returns (r: Outcome<bool>)
    requires ip + 3 <= b.Length
    modifies b
    ensures var x := ResolveIns(Ins(INITSLOT, old(b[ip + 1..ip + 3])), ip, [], counts);
            && (x.Failed? <==> r.Failed?) && (x.Panics? <==> r.Panics?)
            && (x.Done? ==> r == Done(x.value.1)
                            && b[..] == old(b[..])[..ip + 1] + x.value.0.arg + old(b[..])[ip + 3..])
  {
    var count := CountAt(counts, ip);
    if count == 0 && b[ip + 2] == 0 {
      assert b[..] == b[..ip + 1] + b[ip + 1..ip + 3] + b[ip + 3..];
      return Done(true);
    }
    if count > 255 { return Failed; }
    b[ip + 1] := count;
    return Done(false);
  }

  /** The loop body on the instruction whose parameter lies between ip and nextIP: true means marked. */
  method ResolveInstruction(b: array<Byte>, op: Byte, ip: nat, nextIP: nat, l: seq<int>, counts: map<nat, nat>,
                            ghost ins: Ins)
    returns (r: Outcome<bool>)
    requires WellFormed(ins) && ins.op == op
    requires nextIP == ip + 1 + |ins.arg| <= b.Length && b[ip + 1..nextIP] == ins.arg
    modifies b
    ensures var x := ResolveIns(ins, ip, l, counts);
            && (x.Failed? <==> r.Failed?) && (x.Panics? <==> r.Panics?)
            && (x.Done? ==> r == Done(x.value.1)
                            && b[..] == old(b[..])[..ip + 1] + x.value.0.arg + old(b[..])[nextIP..])
  {
    hide LE32, LabelOffset, WellFormed, FetchAt, CountAt;
    if op !in {PUSHDATA1, PUSHDATA2, PUSHDATA4} { ArgumentSize(ins); }
    if op == TRYL {
      r := ResolveTry(b, ip, nextIP - 8, l);
    } else if IsLongJump(op) || op == PUSHA {
      r := ResolveLong(b, op, ip, nextIP - 4, l);
    } else if op == INITSLOT {
      r := ResolveInitSlot(b, ip, counts);
    } else {
      assert b[..] == b[..ip + 1] + b[ip + 1..nextIP] + b[nextIP..];
      return Done(false);
    }
  }

  method ResolveTry(b: array<Byte>, ip: nat, at: nat, l: seq<int>) returns (r: Outcome<bool>)
    requires at + 8 <= b.Length
    modifies b
    ensures var arg := old(b[at..at + 8]);
            var x := ResolveIns(Ins(TRYL, arg), ip, l, map[]);
            && (x.Failed? <==> r.Failed?) && (x.Panics? <==> r.Panics?)
            && (x.Done? ==> r == Done(false)
                            && b[..] == old(b[..])[..at] + x.value.0.arg + old(b[..])[at + 8..])
  {
    hide LE32, LabelOffset;
    ghost var s := b[..];
    assert b[at..at + 4] == b[at..at + 8][..4] && b[at + 4..at + 8] == b[at..at + 8][4..];
    var c := ReplaceLabelWithOffset(b, ip, at, l);
    if c.Failed? { return Failed; }
    if c.Panics? { return Panics; }
    ghost var t := b[..];
    assert b[at + 4..at + 8] == s[at + 4..at + 8];
    var d := ReplaceLabelWithOffset(b, ip, at + 4, l);
    if d.Failed? { return Failed; }
    if d.Panics? { return Panics; }
    TwoWords(s, t, b[..], at, LE32(c.value), LE32(d.value));
    return Done(false);
  }

  lemma {:induction false} FailurePersists(p: seq<Ins>, l: seq<int>, counts: map<nat, nat>, i: nat, n: nat)
    requires i <= n <= |p| && !Resolve(p, l, counts, i).Done?
    ensures Resolve(p, l, counts, n) == Resolve(p, l, counts, i)
  {
    hide ResolveIns;
    if i < n { FailurePersists(p, l, counts, i, n - 1); }
  }

  /** One turn of the loop: resolves instruction i and fetches the next one. */
  method ResolveNext(b: array<Byte>, ctx: Cursor, f: Fetch, l: seq<int>, counts: map<nat, nat>,
                     ghost p: seq<Ins>, ghost g: seq<Ins>, ghost i: nat)
    returns (r: Outcome<bool>, next: Fetch)
    requires ctx.prog == b && WellFormedProgram(p) && g == Goal(p, l, counts, |p|) && i < |p|
    requires Standing(b[..], ctx.ip, ctx.nextip, f, p, g, i)
    modifies b, ctx
    ensures var x := ResolveIns(p[i], Addr(p, i), l, counts);
            && (x.Failed? <==> r.Failed?) && (x.Panics? <==> r.Panics?)
            && (x.Done? ==> r == Done(x.value.1) && Standing(b[..], ctx.ip, ctx.nextip, next, p, g, i + 1))
  {
    hide FetchAt, Encode, Half, SameShape, ResolveIns, Goal;
    GoalShape(p, l, counts);
    GoalAt(p, l, counts, |p|, i);
    HalfStep(p, g, i);
    r := ResolveInstruction(b, f.op, ctx.ip, ctx.nextip, l, counts, p[i]);
    if r.Done? {
      NextIsInstruction(b[..], p, g, i + 1);
      next := ctx.Next();
    } else {
      next := f;
    }
  }

  /** Marked instructions found before n. */
  function Marks(p: seq<Ins>, l: seq<int>, counts: map<nat, nat>, n: nat): seq<nat>
    requires n <= |p| && Resolve(p, l, counts, n).Done?
  {
    Offsets(p, Resolve(p, l, counts, n).value.1 + seq(|p| - n, _ => false), n)
  }

  lemma {:induction false} OffsetsUseOwnMarks(p: seq<Ins>, cut: seq<bool>, cut': seq<bool>, n: nat)
    requires n <= |p| && n <= |cut| && n <= |cut'| && cut[..n] == cut'[..n]
    ensures Offsets(p, cut, n) == Offsets(p, cut', n)
  {
    if n > 0 {
      assert cut[..n][..n - 1] == cut[..n - 1] && cut'[..n][..n - 1] == cut'[..n - 1];
      assert cut[n - 1] == cut[..n][n - 1] == cut'[n - 1];
      OffsetsUseOwnMarks(p, cut, cut', n - 1);
    }
  }

  lemma NextMark(p: seq<Ins>, l: seq<int>, counts: map<nat, nat>, i: nat)
    requires i < |p| && Resolve(p, l, counts, i).Done? && ResolveIns(p[i], Addr(p, i), l, counts).Done?
    ensures Resolve(p, l, counts, i + 1).Done?
    ensures Marks(p, l, counts, i + 1) == Marks(p, l, counts, i) +
              if ResolveIns(p[i], Addr(p, i), l, counts).value.1 then [Addr(p, i)] else []
  {
    hide ResolveIns;
    var cut, cut' := Resolve(p, l, counts, i).value.1, Resolve(p, l, counts, i + 1).value.1;
    var pad, pad' := seq(|p| - i, _ => false), seq(|p| - i - 1, _ => false);
    assert cut' == cut + [ResolveIns(p[i], Addr(p, i), l, counts).value.1];
    assert (cut + pad)[..i] == cut == (cut' + pad')[..i];
    OffsetsUseOwnMarks(p, cut + pad, cut' + pad', i);
  }

  lemma {:induction false} ResolvedAt(p: seq<Ins>, l: seq<int>, counts: map<nat, nat>, n: nat, i: nat)
    requires i < n <= |p| && Resolve(p, l, counts, n).Done?
    ensures ResolveIns(p[i], Addr(p, i), l, counts) ==
            Done((Resolve(p, l, counts, n).value.0[i], Resolve(p, l, counts, n).value.1[i]))
  {
    hide ResolveIns;
    if i < n - 1 { ResolvedAt(p, l, counts, n - 1, i); }
  }

  lemma ResolvedInstruction(ins: Ins, ip: nat, l: seq<int>, counts: map<nat, nat>)
    requires WellFormed(ins) && ResolveIns(ins, ip, l, counts).Done?
    ensures var (x, cut) := ResolveIns(ins, ip, l, counts).value;
            && WellFormed(x)
            && (cut ==> x.op == INITSLOT || IsLongJump(x.op))
            && (cut && IsLongJump(x.op) ==> IsInt8(OffsetOf(x.arg)))
  {
    hide LE32, Signed32, LabelOffset;
    if (IsLongJump(ins.op) || ins.op == PUSHA) && |ins.arg| == 4 {
      Signed32OfLE32(LabelOffset(l, ip, ins.arg).value) by { LabelOffsetFits(l, ip, ins.arg); }
    }
  }

  lemma LabelOffsetFits(l: seq<int>, ip: nat, arg: seq<Byte>)
    requires |arg| == 4 && LabelOffset(l, ip, arg).Done?
    ensures IsInt32(LabelOffset(l, ip, arg).value)
  {}

  /** A fully resolved program is one that the shortening pass accepts. */
  lemma ResolvedIsShortenable(p: seq<Ins>, l: seq<int>, counts: map<nat, nat>)
    requires WellFormedProgram(p) && (forall i :: 0 <= i < |p| ==> p[i].op != TRY)
    requires Resolve(p, l, counts, |p|).Done?
    ensures var (q, cut) := Resolve(p, l, counts, |p|).value;
            && MarkedFit(q, cut) && q == Goal(p, l, counts, |p|)
            && Offsets(q, cut, |p|) == Marks(p, l, counts, |p|)
  {
    hide ResolveIns, WellFormed, FetchAt, Resolve, Goal, Offsets, OffsetOf;
    var (q, cut) := Resolve(p, l, counts, |p|).value;
    GoalIsResolved(p, l, counts, |p|);
    forall i | 0 <= i < |p|
      ensures WellFormed(q[i]) && q[i].op == p[i].op && |q[i].arg| == |p[i].arg|
      ensures cut[i] ==> q[i].op == INITSLOT || IsLongJump(q[i].op)
      ensures cut[i] && IsLongJump(q[i].op) ==> IsInt8(OffsetOf(q[i].arg))
    {
      ResolvedAt(p, l, counts, |p|, i);
      ResolvedInstruction(p[i], Addr(p, i), l, counts);
    }
    OffsetsDependOnSizes(p, q, cut, |p|);
    assert cut + seq(|p| - |p|, _ => false) == cut;
  }

  /**
   * Marked are exactly the long jumps, calls and ENDTRYLs whose offset fits a signed byte, and the prologues of
   * functions that have neither variables nor arguments.
   */
  lemma MarkedExactly(p: seq<Ins>, l: seq<int>, counts: map<nat, nat>, i: nat)
    requires WellFormedProgram(p) && Resolve(p, l, counts, |p|).Done? && i < |p|
    ensures var (q, cut) := Resolve(p, l, counts, |p|).value;
            cut[i] <==>
              || (IsLongJump(q[i].op) && -128 <= OffsetOf(q[i].arg) <= 127)
              || (q[i].op == INITSLOT && CountAt(counts, Addr(p, i)) == 0 && |q[i].arg| == 2 && q[i].arg[1] == 0)
  {
    hide ResolveIns, WellFormed, Resolve, OffsetOf;
    ResolvedAt(p, l, counts, |p|, i);
    InstructionMarked(p[i], Addr(p, i), l, counts);
  }

  lemma InstructionMarked(ins: Ins, ip: nat, l: seq<int>, counts: map<nat, nat>)
    requires WellFormed(ins) && ResolveIns(ins, ip, l, counts).Done?
    ensures var (x, cut) := ResolveIns(ins, ip, l, counts).value;
            && (x.op == INITSLOT ==> |x.arg| == 2)
            && (cut <==> (IsLongJump(x.op) && -128 <= OffsetOf(x.arg) <= 127)
                         || (x.op == INITSLOT && CountAt(counts, ip) == 0 && x.arg[1] == 0))
  {
    hide LE32, Signed32, LabelOffset;
    if (IsLongJump(ins.op) || ins.op == PUSHA) && |ins.arg| == 4 {
      Signed32OfLE32(LabelOffset(l, ip, ins.arg).value) by { LabelOffsetFits(l, ip, ins.arg); }
    }
  }

  /** Labels become offsets, then the script is shortened: the first n bytes are the final script. */
  method ResolveAndShorten(b: array<Byte>, l: seq<int>, counts: map<nat, nat>, ghost p: seq<Ins>)
    returns (r: Outcome<nat>)
    requires WellFormedProgram(p) && (forall i :: 0 <= i < |p| ==> p[i].op != TRY)
    requires b[..] == Encode(p)
    modifies b
    ensures match Resolve(p, l, counts, |p|)
            case Failed => r.Failed?
            case Panics => r.Panics?
            case Done(x) => r.Done? && Shortenable(x.0, x.1) && r.value <= b.Length
                            && b[..r.value] == Encode(Shortened(x.0, x.1))
  {
    hide FetchAt, Encode, Half, SameShape, ResolveIns, Goal, Resolve, Marks;
    ghost var g := Goal(p, l, counts, |p|);
    GoalShape(p, l, counts);
    HalfBounds(p, g);
    NothingResolvedYet(p, l, counts);
    NextIsInstruction(b[..], p, g, 0);
    ghost var i := 0;
    var offsets: seq<nat> := [];
    var ctx := new Cursor(b, 0);
    var f := ctx.Next();
    while f.Fetched?
      invariant fresh(ctx) && ctx.prog == b
      invariant 0 <= i <= |p|
      invariant Standing(b[..], ctx.ip, ctx.nextip, f, p, g, i)
      invariant Resolve(p, l, counts, i).Done? && offsets == Marks(p, l, counts, i)
      decreases |p| - i
    {
      var ip := ctx.ip;
      var step, next := ResolveNext(b, ctx, f, l, counts, p, g, i);
      if !step.Done? {
        StepFailed(p, l, counts, i);
        FailurePersists(p, l, counts, i + 1, |p|);
        if step.Failed? { return Failed; } else { return Panics; }
      }
      NextMark(p, l, counts, i);
      if step.value { offsets := offsets + [ip]; }
      f := next;
      i := i + 1;
    }
    ResolvedIsShortenable(p, l, counts);
    ghost var x := Resolve(p, l, counts, |p|).value;
    var n := ShortenJumps(b, offsets, x.0, x.1);
    return Done(n);
  }

  lemma NothingResolvedYet(p: seq<Ins>, l: seq<int>, counts: map<nat, nat>)
    ensures Resolve(p, l, counts, 0).Done? && Marks(p, l, counts, 0) == []
  {}

  lemma StepFailed(p: seq<Ins>, l: seq<int>, counts: map<nat, nat>, i: nat)
    requires i < |p| && Resolve(p, l, counts, i).Done?
    ensures var x, r := ResolveIns(p[i], Addr(p, i), l, counts), Resolve(p, l, counts, i + 1);
            (x.Failed? <==> r.Failed?) && (x.Panics? <==> r.Panics?)
  {}

  /** In the final script, the reference that was emitted with a label leads to the image of that label's place. */
  lemma LabelReachesItsTarget(p: seq<Ins>, l: seq<int>, counts: map<nat, nat>, i: nat, j: nat)
    requires WellFormedProgram(p) && (forall k :: 0 <= k < |p| ==> p[k].op != TRY)
    requires Resolve(p, l, counts, |p|).Done?
    requires i < |p| && j <= |p| && (IsLongJump(p[i].op) || p[i].op == PUSHA) && |p[i].arg| == 4
    requires U16(p[i].arg[..2]) < |l| && l[U16(p[i].arg[..2])] == Addr(p, j)
    ensures var (q, cut) := Resolve(p, l, counts, |p|).value;
            var final := Shortened(q, cut);
            && NewIndex(q, cut, i) < |final| && NewIndex(q, cut, j) <= |final|
            && LongForm(final[NewIndex(q, cut, i)].op) == LongForm(p[i].op)
            && Addr(final, NewIndex(q, cut, i)) + OffsetOf(final[NewIndex(q, cut, i)].arg)
               == Addr(final, NewIndex(q, cut, j))
  {
    hide WellFormed, FetchAt, Resolve, Goal, Shortened, LE32, Addr;
    var (q, cut) := Resolve(p, l, counts, |p|).value;
    ResolvedIsShortenable(p, l, counts);
    ResolvedAt(p, l, counts, |p|, i);
    GoalShape(p, l, counts);
    AddrDependsOnSizes(p, q, i);
    AddrDependsOnSizes(p, q, j);
    LabelOffsetFits(l, Addr(p, i), p[i].arg);
    Signed32OfLE32(l[U16(p[i].arg[..2])] - Addr(p, i));
    ReferencePreserved(q, cut, i, j);
  }

  /** The same for the two handler labels of TRYL. */
  lemma {:induction false} TryLabelsReachTheirTargets(p: seq<Ins>, l: seq<int>, counts: map<nat, nat>, i: nat, c: nat,
                                                      d: nat)
    requires WellFormedProgram(p) && (forall k :: 0 <= k < |p| ==> p[k].op != TRY)
    requires Resolve(p, l, counts, |p|).Done?
    requires i < |p| && c <= |p| && d <= |p| && p[i].op == TRYL && |p[i].arg| == 8
    requires U16(p[i].arg[..2]) < |l| && l[U16(p[i].arg[..2])] == Addr(p, c)
    requires U16(p[i].arg[4..6]) < |l| && l[U16(p[i].arg[4..6])] == Addr(p, d)
    ensures var (q, cut) := Resolve(p, l, counts, |p|).value;
            var final, i' := Shortened(q, cut), NewIndex(q, cut, i);
            && i' < |final| && NewIndex(q, cut, c) <= |final| && NewIndex(q, cut, d) <= |final|
            && final[i'].op == TRYL && |final[i'].arg| == 8
            && Addr(final, i') + Signed32(final[i'].arg[..4]) == Addr(final, NewIndex(q, cut, c))
            && Addr(final, i') + Signed32(final[i'].arg[4..]) == Addr(final, NewIndex(q, cut, d))
  {
    hide WellFormed, FetchAt, Resolve, Goal, Shortened, LE32, Signed32, Addr;
    var (q, cut) := Resolve(p, l, counts, |p|).value;
    ResolvedIsShortenable(p, l, counts);
    ResolvedAt(p, l, counts, |p|, i);
    GoalShape(p, l, counts);
    AddrDependsOnSizes(p, q, i);
    AddrDependsOnSizes(p, q, c);
    AddrDependsOnSizes(p, q, d);
    TryLabels(p[i], Addr(p, i), l, counts);
    TryPreserved(q, cut, i, c, d);
  }

  lemma TryLabels(ins: Ins, ip: nat, l: seq<int>, counts: map<nat, nat>)
    requires ins.op == TRYL && |ins.arg| == 8 && ResolveIns(ins, ip, l, counts).Done?
    requires U16(ins.arg[..2]) < |l| && U16(ins.arg[4..6]) < |l|
    ensures var x := ResolveIns(ins, ip, l, counts).value.0;
            && x.op == TRYL && |x.arg| == 8
            && ip + Signed32(x.arg[..4]) == l[U16(ins.arg[..2])]
            && ip + Signed32(x.arg[4..]) == l[U16(ins.arg[4..6])]
  {
    hide LE32, Signed32;
    assert ins.arg[..4][..2] == ins.arg[..2] && ins.arg[4..][..2] == ins.arg[4..6];
    var c, d := LabelOffset(l, ip, ins.arg[..4]).value, LabelOffset(l, ip, ins.arg[4..]).value;
    Signed32OfLE32(c);
    Signed32OfLE32(d);
    assert (LE32(c) + LE32(d))[..4] == LE32(c) && (LE32(c) + LE32(d))[4..] == LE32(d);
  }

  /** A function's byte range, both ends included, is carried to the range of its image. */
  method CorrectRange(start: nat, end: nat, offsets: seq<nat>) returns (newStart: int, newEnd: int)
    requires Increasing(offsets) && start <= end
    ensures newStart == Pos(offsets, start)
    ensures newEnd == Pos(offsets, end + 1) - 1
  {
    newStart, newEnd := start, end;
    var i, k := 0, 0;
    while i < |offsets|
      invariant 0 <= k <= i <= |offsets|
      invariant forall j :: 0 <= j < k ==> offsets[j] < start
      invariant forall j :: k <= j < i ==> start <= offsets[j] <= end
      invariant newStart == start - LONG_TO_SHORT_REMOVE_COUNT * k
      invariant newEnd == end - LONG_TO_SHORT_REMOVE_COUNT * i
    {
      var ind := offsets[i];
      if ind > end { break; }
      assert k < i ==> offsets[k] < ind;
      if ind < start {
        newStart := newStart - LONG_TO_SHORT_REMOVE_COUNT;
        k := k + 1;
      }
      newEnd := newEnd - LONG_TO_SHORT_REMOVE_COUNT;
      i := i + 1;
    }
    CountBelowIsIndex(offsets, k, start);
    CountBelowIsIndex(offsets, i, end + 1);
  }
}
