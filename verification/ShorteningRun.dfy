/** The shortened script runs in lock step with the script it was made from. */
module ShorteningRun {
  import opened Bytes
  import opened Opcodes
  import opened Context
  import opened Instructions
  import opened JumpShortening
  import opened ShortenedProgram
  import opened Machine

  // ----- moving every offset in a machine state -----

  /** A relocation keeps absent offsets (negative ones) apart from real ones. */
  ghost predicate Relocation(m: int -> int) {
    forall x :: (m(x) >= 0 <==> x >= 0) && (x < 0 ==> m(x) == x)
  }

  ghost function MoveHandler(m: int -> int, h: Handler): Handler {
    Handler(m(h.catchOffset), m(h.finallyOffset), m(h.endOffset), h.phase)
  }

  ghost function MoveHandlers(m: int -> int, hs: seq<Handler>): seq<Handler> {
    if hs == [] then [] else [MoveHandler(m, hs[0])] + MoveHandlers(m, hs[1..])
  }

  ghost function MoveFrames(m: int -> int, fs: seq<Frame>): seq<Frame> {
    if fs == [] then [] else [Frame(m(fs[0].nextip), MoveHandlers(m, fs[0].handlers))] + MoveFrames(m, fs[1..])
  }

  ghost function MovePointers(m: int -> int, ps: seq<nat>): (r: seq<nat>)
    requires Relocation(m)
    ensures |r| == |ps| && forall i :: 0 <= i < |ps| ==> r[i] == m(ps[i])
  {
    if ps == [] then [] else MovePointers(m, ps[..|ps| - 1]) + [m(ps[|ps| - 1])]
  }

  ghost function MoveState(m: int -> int, st: State): State
    requires Relocation(m)
  {
    if st.Running? then Running(MoveFrames(m, st.frames), st.uncaught, MovePointers(m, st.pointers), st.gas) else st
  }

  ghost function MoveUnwound(m: int -> int, u: Unwound): Unwound {
    if u.Resumed? then Resumed(MoveFrames(m, u.frames), u.caught) else u
  }

  ghost function MoveOperation(m: int -> int, o: Operation): Operation
    requires Relocation(m)
  {
    match o
    case Jump(c, t) => Jump(c, m(t))
    case CallTo(t) => CallTo(m(t))
    case PushPointer(t) => PushPointer(m(t))
    case EndTry(t) => EndTry(m(t))
    case Try(c, f) => Try(m(c), m(f))
    case _ => o
  }

  lemma {:induction false} FramesMoved(m: int -> int, fs: seq<Frame>)
    ensures |MoveFrames(m, fs)| == |fs|
    ensures fs != [] ==> MoveFrames(m, fs)[0] == Frame(m(fs[0].nextip), MoveHandlers(m, fs[0].handlers))
                         && MoveFrames(m, fs)[1..] == MoveFrames(m, fs[1..])
  {
    if fs != [] { FramesMoved(m, fs[1..]); }
  }

  lemma {:induction false} HandlersMoved(m: int -> int, hs: seq<Handler>)
    ensures |MoveHandlers(m, hs)| == |hs|
    ensures hs != [] ==>
              MoveHandlers(m, hs)[0] == MoveHandler(m, hs[0]) && MoveHandlers(m, hs)[1..] == MoveHandlers(m, hs[1..])
  {
    if hs != [] { HandlersMoved(m, hs[1..]); }
  }

  lemma FrameAdded(m: int -> int, f: Frame, fs: seq<Frame>)
    ensures MoveFrames(m, [f] + fs) == [Frame(m(f.nextip), MoveHandlers(m, f.handlers))] + MoveFrames(m, fs)
  {}

  lemma HandlerAdded(m: int -> int, h: Handler, hs: seq<Handler>)
    ensures MoveHandlers(m, [h] + hs) == [MoveHandler(m, h)] + MoveHandlers(m, hs)
  {}

  lemma {:induction false} DropFinishedMoved(m: int -> int, hs: seq<Handler>)
    requires Relocation(m)
    ensures DropFinished(MoveHandlers(m, hs)) == MoveHandlers(m, DropFinished(hs))
  {
    HandlersMoved(m, hs);
    if hs != [] && hs[0].Finished() { DropFinishedMoved(m, hs[1..]); }
  }

  /** Exception handling does not care where code lies. */
  lemma {:induction false} UnwindingMoved(m: int -> int, fs: seq<Frame>)
    requires Relocation(m)
    ensures HandleException(MoveFrames(m, fs)) == MoveUnwound(m, HandleException(fs))
  {
    FramesMoved(m, fs);
    if fs != [] {
      DropFinishedMoved(m, fs[0].handlers);
      var left := DropFinished(fs[0].handlers);
      HandlersMoved(m, left);
      if left == [] {
        UnwindingMoved(m, fs[1..]);
      } else {
        var h := left[0];
        var caught := h.phase == InTry && h.HasCatch();
        var h' := h.(phase := if caught then InCatch else InFinally);
        var top := Frame(if caught then h.catchOffset else h.finallyOffset, [h'] + left[1..]);
        HandlerAdded(m, h', left[1..]);
        FrameAdded(m, top, fs[1..]);
      }
    }
  }

  lemma PointerAdded(m: int -> int, ps: seq<nat>, t: nat)
    requires Relocation(m)
    ensures MovePointers(m, ps + [t]) == MovePointers(m, ps) + [m(t)]
  {}

  lemma EndTryMoved(m: int -> int, cfg: Config, t: nat, st: State, ch: Choice)
    requires Relocation(m) && st.Running? && st.frames != []
    ensures MoveState(m, st).frames != []
    ensures Apply(cfg, EndTry(m(t)), MoveState(m, st), ch) == MoveState(m, Apply(cfg, EndTry(t), st, ch))
  {
    FramesMoved(m, st.frames);
    var top, rest := st.frames[0], st.frames[1..];
    HandlersMoved(m, top.handlers);
    if top.handlers != [] {
      var h := top.handlers[0];
      var closed := h.(phase := InFinally, endOffset := t);
      HandlerAdded(m, closed, top.handlers[1..]);
      FrameAdded(m, Frame(h.finallyOffset, [closed] + top.handlers[1..]), rest);
      FrameAdded(m, Frame(t, top.handlers[1..]), rest);
    }
  }

  lemma EndFinallyMoved(m: int -> int, cfg: Config, st: State, ch: Choice)
    requires Relocation(m) && st.Running? && st.frames != []
    ensures MoveState(m, st).frames != []
    ensures Apply(cfg, EndFinally, MoveState(m, st), ch) == MoveState(m, Apply(cfg, EndFinally, st, ch))
  {
    FramesMoved(m, st.frames);
    UnwindingMoved(m, st.frames);
    var top, rest := st.frames[0], st.frames[1..];
    HandlersMoved(m, top.handlers);
    if !st.uncaught && top.handlers != [] {
      FrameAdded(m, Frame(top.handlers[0].endOffset, top.handlers[1..]), rest);
    }
  }

  lemma JumpMoved(m: int -> int, t: int, st: State)
    requires Relocation(m) && st.Running? && st.frames != []
    ensures MoveState(m, st).frames != []
    ensures JumpTo(MoveState(m, st), m(t)) == MoveState(m, JumpTo(st, t))
  {}

  lemma EnterMoved(m: int -> int, t: nat, st: State)
    requires Relocation(m) && st.Running? && st.frames != []
    ensures MoveState(m, st).frames != []
    ensures Enter(MoveState(m, st), m(t)) == MoveState(m, Enter(st, t))
  {
    FramesMoved(m, st.frames);
    FrameAdded(m, Frame(t, []), st.frames);
  }

  lemma RaiseMoved(m: int -> int, st: State)
    requires Relocation(m) && st.Running? && st.frames != []
    ensures MoveState(m, st).frames != []
    ensures Raise(MoveState(m, st)) == MoveState(m, Raise(st))
    ensures Leave(MoveState(m, st)) == MoveState(m, Leave(st))
  {
    FramesMoved(m, st.frames);
    UnwindingMoved(m, st.frames);
  }

  lemma TryMoved(m: int -> int, cfg: Config, c: int, f: int, st: State, ch: Choice)
    requires Relocation(m) && st.Running? && st.frames != []
    ensures MoveState(m, st).frames != []
    ensures Apply(cfg, Try(m(c), m(f)), MoveState(m, st), ch) == MoveState(m, Apply(cfg, Try(c, f), st, ch))
  {
    FramesMoved(m, st.frames);
    var top, rest := st.frames[0], st.frames[1..];
    HandlersMoved(m, top.handlers);
    var h := Handler(c, f, -1, InTry);
    HandlerAdded(m, h, top.handlers);
    FrameAdded(m, top.(handlers := [h] + top.handlers), rest);
    assert m(c) == -1 <==> c == -1 by { assert m(c) >= 0 <==> c >= 0; }
    assert m(f) == -1 <==> f == -1 by { assert m(f) >= 0 <==> f >= 0; }
  }

  /** Every operation commutes with relocation. */
  lemma ApplyMoved(m: int -> int, cfg: Config, o: Operation, st: State, ch: Choice)
    requires Relocation(m) && st.Running? && st.frames != []
    ensures MoveState(m, st).frames != []
    ensures Apply(cfg, MoveOperation(m, o), MoveState(m, st), ch) == MoveState(m, Apply(cfg, o, st, ch))
  {
    hide MoveFrames, Raise, Leave, JumpTo, Enter, Apply;
    RaiseMoved(m, st);
    match o
    case Jump(_, _) => TransferMoved(m, cfg, o, st, ch);
    case CallTo(_) => TransferMoved(m, cfg, o, st, ch);
    case CallPointer => TransferMoved(m, cfg, o, st, ch);
    case PushPointer(_) => TransferMoved(m, cfg, o, st, ch);
    case Try(c, f) => TryMoved(m, cfg, c, f, st, ch);
    case EndTry(t) => EndTryMoved(m, cfg, t, st, ch);
    case EndFinally => EndFinallyMoved(m, cfg, st, ch);
    case _ => PlainMoved(m, cfg, o, st, ch);
  }

  lemma TransferMoved(m: int -> int, cfg: Config, o: Operation, st: State, ch: Choice)
    requires Relocation(m) && st.Running? && st.frames != [] && MoveState(m, st).frames != []
    requires o.Jump? || o.CallTo? || o.CallPointer? || o.PushPointer?
    ensures Apply(cfg, MoveOperation(m, o), MoveState(m, st), ch) == MoveState(m, Apply(cfg, o, st, ch))
  {
    hide MoveFrames, Raise, Leave, JumpTo, Enter;
    match o
    case Jump(_, t) => JumpMoved(m, t, st);
    case CallTo(t) => EnterMoved(m, t, st);
    case CallPointer => if ch.pointer < |st.pointers| { EnterMoved(m, st.pointers[ch.pointer], st); }
    case PushPointer(t) => PointerAdded(m, st.pointers, t);
  }

  lemma PlainMoved(m: int -> int, cfg: Config, o: Operation, st: State, ch: Choice)
    requires Relocation(m) && st.Running? && st.frames != [] && MoveState(m, st).frames != []
    requires o.Data? || o.Return? || o.Throw? || o.Abort? || o.Misdirected? || o.Syscall?
    ensures Apply(cfg, MoveOperation(m, o), MoveState(m, st), ch) == MoveState(m, Apply(cfg, o, st, ch))
  {
    hide MoveFrames, Raise, Leave, JumpTo, Enter;
    RaiseMoved(m, st);
    RaiseMoved(m, st.(gas := st.gas + ch.fee));
  }

  // ----- the relocation that shortening performs -----

  function Image(p: seq<Ins>, cut: seq<bool>, x: int): int
    requires |cut| == |p|
  {
    if x < 0 then x else
    var y := Pos(Offsets(p, cut, |p|), x);
    if y < 0 then 0 else y
  }

  ghost function ImageMap(p: seq<Ins>, cut: seq<bool>): (m: int -> int)
    requires |cut| == |p|
    ensures Relocation(m) && forall x :: m(x) == Image(p, cut, x)
  {
    (x: int) => Image(p, cut, x)
  }

  predicate Boundary(p: seq<Ins>, x: int) { exists i :: 0 <= i <= |p| && Addr(p, i) == x }

  /** Every reference leads to an instruction boundary; handlers lie after their TRYL, as emitted code has them. */
  predicate WellDirected(p: seq<Ins>) {
    forall i :: 0 <= i < |p| ==> DirectedAt(p, i)
  }

  predicate DirectedAt(p: seq<Ins>, i: nat)
    requires i < |p|
  {
    && (HasOffset(p[i].op) ==> Boundary(p, Addr(p, i) + OffsetOf(p[i].arg)))
    && (p[i].op == TRYL && |p[i].arg| == 8 ==>
          && Boundary(p, Addr(p, i) + Signed32(p[i].arg[..4])) && Signed32(p[i].arg[..4]) >= 0
          && Boundary(p, Addr(p, i) + Signed32(p[i].arg[4..])) && Signed32(p[i].arg[4..]) >= 0)
  }

  lemma {:induction false} ImageOfBoundary(p: seq<Ins>, cut: seq<bool>, i: nat)
    requires Shortenable(p, cut) && i <= |p|
    ensures NewIndex(p, cut, i) <= |Shortened(p, cut)|
    ensures Image(p, cut, Addr(p, i)) == Addr(Shortened(p, cut), NewIndex(p, cut, i))
  {
    hide Shortened, FetchAt, WellFormed;
    NewAddress(p, cut, i);
  }

  /** The parameter that the machine sees: everything after a PUSHDATA length prefix. */
  function Operand(ins: Ins): seq<Byte>
    requires WellFormed(ins)
  {
    ins.arg[FetchAt(InsBytes(ins), 0).lo - 1..]
  }

  lemma OperandIsArgument(ins: Ins)
    requires WellFormed(ins) && ins.op !in {PUSHDATA1, PUSHDATA2, PUSHDATA4}
    ensures Operand(ins) == ins.arg
  {}

  /** The operand of an instruction whose argument stands in b after address a. */
  lemma OperandSlice(b: seq<Byte>, a: nat, ins: Ins)
    requires WellFormed(ins) && a + 1 + |ins.arg| <= |b| && b[a + 1..a + 1 + |ins.arg|] == ins.arg
    ensures var lo := a + FetchAt(InsBytes(ins), 0).lo;
            a < lo <= a + 1 + |ins.arg| && b[lo..a + 1 + |ins.arg|] == Operand(ins)
  {
    hide FetchAt;
    OperandRange(ins);
    SliceOfSlice(b, a + 1, a + 1 + |ins.arg|, FetchAt(InsBytes(ins), 0).lo - 1, |ins.arg|);
  }

  lemma AddressAfter(p: seq<Ins>, i: nat)
    requires i < |p|
    ensures Addr(p, i + 1) == Addr(p, i) + 1 + |p[i].arg|
  {}

  lemma OperandRange(ins: Ins)
    requires WellFormed(ins)
    ensures 0 < FetchAt(InsBytes(ins), 0).lo <= 1 + |ins.arg|
  {}

  lemma {:induction false} NewIndexMonotone(p: seq<Ins>, cut: seq<bool>, i: nat, j: nat)
    requires |cut| == |p| && i <= j <= |p|
    ensures NewIndex(p, cut, i) <= NewIndex(p, cut, j)
  {
    if i < j { NewIndexMonotone(p, cut, i, j - 1); }
  }

  lemma PlainOperation(b: seq<Byte>, b': seq<Byte>, ip: nat, ip': nat, m: int -> int, op: Byte, arg: seq<Byte>)
    requires Relocation(m) && !HasOffset(op) && op != TRY && op != TRYL
    ensures OperationOf(b', ip', op, arg) == MoveOperation(m, OperationOf(b, ip, op, arg))
  {}

  lemma OffsetOperation(b: seq<Byte>, b': seq<Byte>, ip: nat, ip': nat, m: int -> int, op: Byte, arg: seq<Byte>,
                        op': Byte, arg': seq<Byte>)
    requires Relocation(m) && HasOffset(op) && LongForm(op') == LongForm(op)
    requires InScript(b, ip + OffsetOf(arg)) && InScript(b', ip' + OffsetOf(arg'))
    requires ip' + OffsetOf(arg') == m(ip + OffsetOf(arg))
    ensures OperationOf(b', ip', op', arg') == MoveOperation(m, OperationOf(b, ip, op, arg))
  {}

  lemma TryOperationMoved(b: seq<Byte>, b': seq<Byte>, ip: nat, ip': nat, m: int -> int, arg: seq<Byte>,
                          arg': seq<Byte>)
    requires Relocation(m) && |arg| == |arg'| == 8
    requires InScript(b, ip + Signed32(arg[..4])) && InScript(b, ip + Signed32(arg[4..]))
    requires InScript(b', ip' + Signed32(arg'[..4])) && InScript(b', ip' + Signed32(arg'[4..]))
    requires ip' + Signed32(arg'[..4]) == m(ip + Signed32(arg[..4])) &&
             (Signed32(arg[..4]) == 0 <==> Signed32(arg'[..4]) == 0)
    requires ip' + Signed32(arg'[4..]) == m(ip + Signed32(arg[4..])) &&
             (Signed32(arg[4..]) == 0 <==> Signed32(arg'[4..]) == 0)
    ensures OperationOf(b', ip', TRYL, arg') == MoveOperation(m, OperationOf(b, ip, TRYL, arg))
  {
    hide Signed32;
    assert m(-1) == -1;
  }

  /** Fetched instruction i and its image: the same operation on relocated targets, at the same price. */
  ghost predicate SameOperation(p: seq<Ins>, cut: seq<bool>, i: nat)
    requires Shortenable(p, cut) && i < |p|
  {
    var b, b' := Encode(p), Encode(Shortened(p, cut));
    var m := ImageMap(p, cut);
    var ip, ip' := Addr(p, i), Image(p, cut, Addr(p, i));
    && ip' >= 0
    && var f, f' := FetchAt(b, ip), FetchAt(b', ip');
       && f.Fetched? && f'.Fetched?
       && f.hi == Addr(p, i + 1) && f'.hi == Image(p, cut, f.hi)
       && LongForm(f'.op) == LongForm(f.op) && Coefficient(f'.op) == Coefficient(f.op)
       && OperationOf(b', ip', f'.op, b'[f'.lo..f'.hi]) == MoveOperation(m, OperationOf(b, ip, f.op, b[f.lo..f.hi]))
       && (!HasOffset(f.op) && f.op != TRYL ==> f'.op == f.op && b'[f'.lo..f'.hi] == b[f.lo..f.hi])
  }

  lemma BoundaryInScript(p: seq<Ins>, i: nat)
    requires i <= |p|
    ensures InScript(Encode(p), Addr(p, i))
  {
    EncodedLength(p, |p|);
    assert p[..|p|] == p;
    AddrMonotone(p, i, |p|);
  }

  /** Facts shared by all cases: where instruction i and its image are fetched from. */
  lemma FetchBoth(p: seq<Ins>, cut: seq<bool>, i: nat)
    requires Shortenable(p, cut) && i < |p| && !Dropped(p, cut, i)
    ensures var q, i' := Shortened(p, cut), NewIndex(p, cut, i);
            && i' < |q| && WellFormed(q[i']) && WellFormed(p[i])
            && Image(p, cut, Addr(p, i)) == Addr(q, i') && Image(p, cut, Addr(p, i + 1)) == Addr(q, i' + 1)
            && var f, f' := FetchAt(Encode(p), Addr(p, i)), FetchAt(Encode(q), Addr(q, i'));
               && f.Fetched? && f.op == p[i].op && f.hi == Addr(p, i + 1) <= |Encode(p)|
               && Encode(p)[f.lo..f.hi] == Operand(p[i])
               && f'.Fetched? && f'.op == q[i'].op && f'.hi == Addr(q, i' + 1) <= |Encode(q)|
               && Encode(q)[f'.lo..f'.hi] == Operand(q[i'])
  {
    hide Encode, Shortened, FetchAt, WellFormed, Addr, Operand, Image;
    ImageOfBoundary(p, cut, i);
    ImageOfBoundary(p, cut, i + 1);
    InstructionAtNewIndex(p, cut, i);
    ShortenedBytesDecode(p, cut);
    var q, i' := Shortened(p, cut), NewIndex(p, cut, i);
    FetchInstruction(p, i);
    AddressAfter(p, i);
    OperandSlice(Encode(p), Addr(p, i), p[i]);
    FetchInstruction(q, i');
    AddressAfter(q, i');
    OperandSlice(Encode(q), Addr(q, i'), q[i']);
  }

  lemma PlainSame(p: seq<Ins>, cut: seq<bool>, i: nat)
    requires Shortenable(p, cut) && i < |p| && !HasOffset(p[i].op) && p[i].op != TRYL && !Dropped(p, cut, i)
    ensures SameOperation(p, cut, i)
  {
    hide Encode, Shortened, FetchAt, WellFormed, Addr, Operand, Image, OperationOf, MoveOperation, NewIndex;
    FetchBoth(p, cut, i);
    PlainPreserved(p, cut, i);
    PlainOperation(Encode(p), Encode(Shortened(p, cut)), Addr(p, i), Image(p, cut, Addr(p, i)), ImageMap(p, cut),
                   p[i].op, Operand(p[i]));
  }

  lemma OffsetSame(p: seq<Ins>, cut: seq<bool>, i: nat)
    requires MarkedFit(p, cut) && i < |p| && HasOffset(p[i].op) && DirectedAt(p, i)
    ensures SameOperation(p, cut, i)
  {
    hide Encode, Shortened, FetchAt, WellFormed, Addr, Operand, Image, OperationOf, MoveOperation, NewIndex, OffsetOf;
    FetchBoth(p, cut, i);
    var j :| 0 <= j <= |p| && Addr(p, j) == Addr(p, i) + OffsetOf(p[i].arg);
    ReferencePreserved(p, cut, i, j);
    ImageOfBoundary(p, cut, j);
    var q, i' := Shortened(p, cut), NewIndex(p, cut, i);
    OperandIsArgument(p[i]);
    OperandIsArgument(q[i']);
    BoundaryInScript(p, j);
    BoundaryInScript(q, NewIndex(p, cut, j));
    OffsetOperation(Encode(p), Encode(q), Addr(p, i), Addr(q, i'), ImageMap(p, cut), p[i].op, p[i].arg, q[i'].op,
                    q[i'].arg);
  }

  /** A handler offset is zero, meaning absent, in the new layout exactly when it was zero before. */
  lemma {:induction false} AbsentStaysAbsent(p: seq<Ins>, cut: seq<bool>, i: nat, j: nat)
    requires Shortenable(p, cut) && i < |p| && j <= |p| && !Dropped(p, cut, i) && Addr(p, i) <= Addr(p, j)
    ensures NewIndex(p, cut, i) <= |Shortened(p, cut)| && NewIndex(p, cut, j) <= |Shortened(p, cut)|
    ensures Addr(p, i) == Addr(p, j) <==>
            Addr(Shortened(p, cut), NewIndex(p, cut, i)) == Addr(Shortened(p, cut), NewIndex(p, cut, j))
  {
    hide Shortened, FetchAt, WellFormed;
    ImageOfBoundary(p, cut, i);
    ImageOfBoundary(p, cut, j);
    if j < i {
      AddrMonotone(p, j, i);
    } else if i < j {
      AddrMonotone(p, i, j);
      NewIndexMonotone(p, cut, i + 1, j);
      AddrMonotone(Shortened(p, cut), NewIndex(p, cut, i), NewIndex(p, cut, j));
    }
  }

  lemma TrySame(p: seq<Ins>, cut: seq<bool>, i: nat)
    requires MarkedFit(p, cut) && i < |p| && p[i].op == TRYL && DirectedAt(p, i)
    ensures SameOperation(p, cut, i)
  {
    hide Encode, Shortened, FetchAt, WellFormed, Addr, Operand, Image, OperationOf, MoveOperation, NewIndex, Signed32;
    FetchBoth(p, cut, i);
    ArgumentSize(p[i]);
    var c :| 0 <= c <= |p| && Addr(p, c) == Addr(p, i) + Signed32(p[i].arg[..4]);
    var d :| 0 <= d <= |p| && Addr(p, d) == Addr(p, i) + Signed32(p[i].arg[4..]);
    TryPreserved(p, cut, i, c, d);
    ImageOfBoundary(p, cut, c);
    ImageOfBoundary(p, cut, d);
    AbsentStaysAbsent(p, cut, i, c);
    AbsentStaysAbsent(p, cut, i, d);
    var q, i' := Shortened(p, cut), NewIndex(p, cut, i);
    OperandIsArgument(p[i]);
    OperandIsArgument(q[i']);
    BoundaryInScript(p, c);
    BoundaryInScript(p, d);
    BoundaryInScript(q, NewIndex(p, cut, c));
    BoundaryInScript(q, NewIndex(p, cut, d));
    TryOperationMoved(Encode(p), Encode(q), Addr(p, i), Addr(q, i'), ImageMap(p, cut), p[i].arg, q[i'].arg);
  }

  lemma OperationPreserved(p: seq<Ins>, cut: seq<bool>, i: nat)
    requires MarkedFit(p, cut) && WellDirected(p) && i < |p| && !Dropped(p, cut, i)
    ensures SameOperation(p, cut, i)
  {
    hide SameOperation, DirectedAt;
    assert DirectedAt(p, i);
    if HasOffset(p[i].op) {
      OffsetSame(p, cut, i);
    } else if p[i].op == TRYL {
      TrySame(p, cut, i);
    } else {
      PlainSame(p, cut, i);
    }
  }

  // ----- states whose offsets are instruction boundaries -----

  predicate Site(p: seq<Ins>, x: int) { x == -1 || Boundary(p, x) }

  predicate HandlersOnSites(p: seq<Ins>, hs: seq<Handler>) {
    forall i :: 0 <= i < |hs| ==>
      Site(p, hs[i].catchOffset) && Site(p, hs[i].finallyOffset) && Site(p, hs[i].endOffset)
  }

  predicate FrameOnSites(p: seq<Ins>, f: Frame) { Site(p, f.nextip) && HandlersOnSites(p, f.handlers) }

  predicate FramesOnSites(p: seq<Ins>, fs: seq<Frame>) { forall i :: 0 <= i < |fs| ==> FrameOnSites(p, fs[i]) }

  predicate OnSites(p: seq<Ins>, st: State) {
    st.Running? ==>
      && st.frames != [] && FramesOnSites(p, st.frames)
      && forall i :: 0 <= i < |st.pointers| ==> Boundary(p, st.pointers[i])
  }

  predicate OperationOnSites(p: seq<Ins>, o: Operation) {
    match o
    case Jump(_, t) => Boundary(p, t)
    case CallTo(t) => Boundary(p, t)
    case PushPointer(t) => Boundary(p, t)
    case EndTry(t) => Boundary(p, t)
    case Try(c, f) => Site(p, c) && Site(p, f)
    case _ => true
  }

  lemma {:induction false} DropFinishedOnSites(p: seq<Ins>, hs: seq<Handler>)
    requires HandlersOnSites(p, hs)
    ensures HandlersOnSites(p, DropFinished(hs))
  {
    if hs != [] && hs[0].Finished() { DropFinishedOnSites(p, hs[1..]); }
  }

  lemma {:induction false} UnwindingOnSites(p: seq<Ins>, fs: seq<Frame>)
    requires FramesOnSites(p, fs)
    ensures HandleException(fs).Resumed? ==>
              HandleException(fs).frames != [] && FramesOnSites(p, HandleException(fs).frames)
  {
    hide Boundary;
    if fs != [] {
      assert FrameOnSites(p, fs[0]);
      DropFinishedOnSites(p, fs[0].handlers);
      if DropFinished(fs[0].handlers) == [] { UnwindingOnSites(p, fs[1..]); }
    }
  }

  lemma ApplyOnSites(p: seq<Ins>, cfg: Config, o: Operation, st: State, ch: Choice)
    requires st.Running? && OnSites(p, st) && OperationOnSites(p, o)
    ensures OnSites(p, Apply(cfg, o, st, ch))
  {
    hide Boundary, HandleException;
    UnwindingOnSites(p, st.frames);
    assert FrameOnSites(p, st.frames[0]);
  }

  lemma OffsetOperationOnSites(p: seq<Ins>, b: seq<Byte>, ip: nat, op: Byte, arg: seq<Byte>)
    requires HasOffset(op) && Boundary(p, ip + OffsetOf(arg))
    ensures OperationOnSites(p, OperationOf(b, ip, op, arg))
  {}

  lemma TryOperationOnSites(p: seq<Ins>, b: seq<Byte>, ip: nat, arg: seq<Byte>)
    requires |arg| == 8 && Boundary(p, ip + Signed32(arg[..4])) && Boundary(p, ip + Signed32(arg[4..]))
    ensures OperationOnSites(p, OperationOf(b, ip, TRYL, arg))
  {}

  lemma PlainOperationOnSites(p: seq<Ins>, b: seq<Byte>, ip: nat, op: Byte, arg: seq<Byte>)
    requires !HasOffset(op) && op != TRY && op != TRYL
    ensures OperationOnSites(p, OperationOf(b, ip, op, arg))
  {}

  lemma FetchedOperationOnSites(p: seq<Ins>, i: nat)
    requires WellFormedProgram(p) && i < |p| && p[i].op != TRY && DirectedAt(p, i)
    ensures var f := FetchAt(Encode(p), Addr(p, i));
            f.Fetched? && f.hi == Addr(p, i + 1) <= |Encode(p)| && f.op == p[i].op
            && OperationOnSites(p, OperationOf(Encode(p), Addr(p, i), f.op, Encode(p)[f.lo..f.hi]))
  {
    hide Encode, FetchAt, WellFormed, Addr, Operand, OperationOf, Boundary, OperationOnSites;
    FetchInstruction(p, i);
    AddressAfter(p, i);
    OperandSlice(Encode(p), Addr(p, i), p[i]);
    if HasOffset(p[i].op) {
      OperandIsArgument(p[i]);
      OffsetOperationOnSites(p, Encode(p), Addr(p, i), p[i].op, p[i].arg);
    } else if p[i].op == TRYL {
      ArgumentSize(p[i]);
      OperandIsArgument(p[i]);
      TryOperationOnSites(p, Encode(p), Addr(p, i), p[i].arg);
    } else {
      PlainOperationOnSites(p, Encode(p), Addr(p, i), p[i].op, Operand(p[i]));
    }
  }

  // ----- the reference run, in which a dropped prologue does nothing -----

  /** First instruction from i on that is not dropped. */
  function SkipFrom(p: seq<Ins>, cut: seq<bool>, i: nat): (j: nat)
    requires |cut| == |p| && i <= |p|
    ensures i <= j <= |p| && (j < |p| ==> !Dropped(p, cut, j))
    ensures NewIndex(p, cut, j) == NewIndex(p, cut, i)
    decreases |p| - i
  {
    if i == |p| || !Dropped(p, cut, i) then i else SkipFrom(p, cut, i + 1)
  }

  ghost function IndexAt(p: seq<Ins>, x: int): (i: nat)
    requires Boundary(p, x)
    ensures i <= |p| && Addr(p, i) == x
  {
    var i :| 0 <= i <= |p| && Addr(p, i) == x;
    i
  }

  /** The state just before the next instruction that still exists. */
  ghost function SkipDropped(p: seq<Ins>, cut: seq<bool>, st: State): State
    requires |cut| == |p| && OnSites(p, st)
  {
    if st.Running? && st.frames[0].nextip >= 0 then
      assert FrameOnSites(p, st.frames[0]);
      JumpTo(st, Addr(p, SkipFrom(p, cut, IndexAt(p, st.frames[0].nextip))))
    else st
  }

  /** One step of the long script, in which prologues without slots are passed over. */
  ghost function ReferenceStep(p: seq<Ins>, cut: seq<bool>, cfg: Config, st: State, ch: Choice): State
    requires |cut| == |p| && st.Running? && OnSites(p, st)
  {
    Step(Encode(p), cfg, SkipDropped(p, cut, st), ch)
  }

  lemma SkippedState(p: seq<Ins>, cut: seq<bool>, st: State)
    requires Shortenable(p, cut) && st.Running? && OnSites(p, st) && st.frames[0].nextip >= 0
    ensures var st2, i := SkipDropped(p, cut, st), SkipFrom(p, cut, IndexAt(p, st.frames[0].nextip));
            && st2.Running? && OnSites(p, st2) && st2.frames[0].nextip == Addr(p, i)
            && MoveState(ImageMap(p, cut), st2) == MoveState(ImageMap(p, cut), st)
  {
    hide Shortened, FetchAt, WellFormed, Image;
    assert FrameOnSites(p, st.frames[0]);
    var i := IndexAt(p, st.frames[0].nextip);
    var j := SkipFrom(p, cut, i);
    var m := ImageMap(p, cut);
    ImageOfBoundary(p, cut, i);
    ImageOfBoundary(p, cut, j);
    JumpMoved(m, Addr(p, j), st);
    FramesMoved(m, st.frames);
    assert m(Addr(p, j)) == m(st.frames[0].nextip);
    var moved := MoveFrames(m, st.frames);
    assert moved == [moved[0]] + moved[1..];
  }

  /** One step: relocating the long script's next state gives the short script's next state. */
  lemma StepMoved(p: seq<Ins>, cut: seq<bool>, cfg: Config, st: State, ch: Choice)
    requires MarkedFit(p, cut) && WellDirected(p) && st.Running? && OnSites(p, st)
    ensures OnSites(p, ReferenceStep(p, cut, cfg, st, ch))
    ensures var m := ImageMap(p, cut);
            && MoveState(m, st).Running? && MoveState(m, st).frames != []
            && Step(Encode(Shortened(p, cut)), cfg, MoveState(m, st), ch) ==
               MoveState(m, ReferenceStep(p, cut, cfg, st, ch))
  {
    hide Encode, Shortened, FetchAt, WellFormed, Addr, OperationOf, MoveOperation, NewIndex, MoveFrames, Apply,
         Boundary, Image,
      Coefficient;
    var m := ImageMap(p, cut);
    FramesMoved(m, st.frames);
    if st.frames[0].nextip >= 0 {
      SkippedState(p, cut, st);
      var st2 := SkipDropped(p, cut, st);
      FramesMoved(m, st2.frames);
      var i := SkipFrom(p, cut, IndexAt(p, st.frames[0].nextip));
      if i == |p| {
        EndMoved(p, cut, cfg, st2, ch);
      } else {
        InstructionMoved(p, cut, cfg, st2, ch, i);
      }
    }
  }

  lemma {:induction false} EndMoved(p: seq<Ins>, cut: seq<bool>, cfg: Config, st: State, ch: Choice)
    requires Shortenable(p, cut) && st.Running? && OnSites(p, st) && st.frames[0].nextip == Addr(p, |p|)
    ensures OnSites(p, Step(Encode(p), cfg, st, ch))
    ensures var m := ImageMap(p, cut);
            && MoveState(m, st).frames != []
            && Step(Encode(Shortened(p, cut)), cfg, MoveState(m, st), ch) == MoveState(m, Step(Encode(p), cfg, st, ch))
  {
    hide Encode, Shortened, WellFormed, Addr, OperationOf, MoveOperation, MoveFrames, Apply, Boundary, Image,
         Coefficient, FetchAt;
    var m, q := ImageMap(p, cut), Shortened(p, cut);
    FramesMoved(m, st.frames);
    ImageOfBoundary(p, cut, |p|);
    NewIndexOfEnd(p, cut);
    EncodedLength(p, |p|);
    EncodedLength(q, |q|);
    assert p[..|p|] == p && q[..|q|] == q;
    ApplyMoved(m, cfg, Return, st, ch);
    ApplyOnSites(p, cfg, Return, st, ch);
    assert MoveOperation(m, Return) == Return by { ReturnMoved(m); }
  }

  lemma ReturnMoved(m: int -> int)
    requires Relocation(m)
    ensures MoveOperation(m, Return) == Return
  {}

  lemma NewIndexOfEnd(p: seq<Ins>, cut: seq<bool>)
    requires Shortenable(p, cut)
    ensures NewIndex(p, cut, |p|) == |Shortened(p, cut)|
  {
    ShrunkPrefix(Fixed(p, cut), cut, |p|, |p|);
    NewIndexIsLength(p, cut, |p|);
  }

  lemma InstructionMoved(p: seq<Ins>, cut: seq<bool>, cfg: Config, st: State, ch: Choice, i: nat)
    requires MarkedFit(p, cut) && WellDirected(p) && st.Running? && OnSites(p, st)
    requires i < |p| && !Dropped(p, cut, i) && st.frames[0].nextip == Addr(p, i)
    ensures OnSites(p, Step(Encode(p), cfg, st, ch))
    ensures var m := ImageMap(p, cut);
            && MoveState(m, st).frames != []
            && Step(Encode(Shortened(p, cut)), cfg, MoveState(m, st), ch) == MoveState(m, Step(Encode(p), cfg, st, ch))
  {
    hide Encode, Shortened, WellFormed, Addr, OperationOf, MoveOperation, MoveFrames, Apply, Boundary, Image, FetchAt,
         Coefficient,
      NewIndex, DirectedAt;
    var m := ImageMap(p, cut);
    FramesMoved(m, st.frames);
    OperationPreserved(p, cut, i);
    assert DirectedAt(p, i);
    FetchedOperationOnSites(p, i);
    var b, b' := Encode(p), Encode(Shortened(p, cut));
    var f := FetchAt(b, Addr(p, i));
    var gas := st.gas + Coefficient(f.op) * cfg.base;
    var moved := JumpTo(st.(gas := gas), f.hi);
    var o := OperationOf(b, Addr(p, i), f.op, b[f.lo..f.hi]);
    JumpMoved(m, f.hi, st.(gas := gas));
    BoundaryHolds(p, i + 1);
    ApplyOnSites(p, cfg, o, moved, ch);
    ApplyMoved(m, cfg, o, moved, ch);
  }

  lemma BoundaryHolds(p: seq<Ins>, i: nat)
    requires i <= |p|
    ensures Boundary(p, Addr(p, i))
  {}

  // ----- whole runs -----

  /** What a step executes, apart from where code lies: the operation in its long form and its data parameter. */
  datatype Event = Event(op: Byte, data: seq<Byte>) | Nothing

  function EventAt(script: seq<Byte>, st: State): Event {
    if st.Running? && st.frames != [] && st.frames[0].nextip >= 0 then
      match FetchAt(script, st.frames[0].nextip)
      case AtEnd => Event(RET, [])
      case Malformed => Nothing
      case Fetched(op, lo, hi) =>
        Event(LongForm(op), if HasOffset(op) || op == TRY || op == TRYL then [] else script[lo..hi])
    else Nothing
  }

  ghost function ReferenceRun(p: seq<Ins>, cut: seq<bool>, cfg: Config, st: State, choices: seq<Choice>): State
    requires MarkedFit(p, cut) && WellDirected(p) && OnSites(p, st)
    decreases |choices|
  {
    if choices == [] || !st.Running? then st
    else
      StepMoved(p, cut, cfg, st, choices[0]);
      ReferenceRun(p, cut, cfg, ReferenceStep(p, cut, cfg, st, choices[0]), choices[1..])
  }

  ghost function ReferenceTrace(p: seq<Ins>, cut: seq<bool>, cfg: Config, st: State, choices: seq<Choice>): seq<Event>
    requires MarkedFit(p, cut) && WellDirected(p) && OnSites(p, st)
    decreases |choices|
  {
    if choices == [] || !st.Running? then []
    else
      StepMoved(p, cut, cfg, st, choices[0]);
      [EventAt(Encode(p), SkipDropped(p, cut, st))]
      + ReferenceTrace(p, cut, cfg, ReferenceStep(p, cut, cfg, st, choices[0]), choices[1..])
  }

  function Trace(script: seq<Byte>, cfg: Config, st: State, choices: seq<Choice>): seq<Event>
    requires st.Running? ==> st.frames != []
    decreases |choices|
  {
    if choices == [] || !st.Running? then []
    else
      FramesRemain(script, cfg, st, choices[0]);
      [EventAt(script, st)] + Trace(script, cfg, Step(script, cfg, st, choices[0]), choices[1..])
  }

  lemma EventMoved(p: seq<Ins>, cut: seq<bool>, st: State)
    requires MarkedFit(p, cut) && WellDirected(p) && st.Running? && OnSites(p, st)
    ensures EventAt(Encode(Shortened(p, cut)), MoveState(ImageMap(p, cut), st)) ==
            EventAt(Encode(p), SkipDropped(p, cut, st))
  {
    hide Encode, Shortened, FetchAt, WellFormed, Addr, OperationOf, MoveOperation, NewIndex, MoveFrames, Boundary,
         Image, Coefficient;
    var m := ImageMap(p, cut);
    FramesMoved(m, st.frames);
    if st.frames[0].nextip >= 0 {
      SkippedState(p, cut, st);
      var st2 := SkipDropped(p, cut, st);
      FramesMoved(m, st2.frames);
      var i := SkipFrom(p, cut, IndexAt(p, st.frames[0].nextip));
      if i == |p| {
        EndEvent(p, cut);
      } else {
        OperationPreserved(p, cut, i);
      }
    }
  }

  lemma EndEvent(p: seq<Ins>, cut: seq<bool>)
    requires Shortenable(p, cut)
    ensures Addr(p, |p|) == |Encode(p)| && FetchAt(Encode(p), Addr(p, |p|)) == AtEnd
    ensures var q := Shortened(p, cut);
            Image(p, cut, Addr(p, |p|)) == |Encode(q)| && FetchAt(Encode(q), |Encode(q)|) == AtEnd
  {
    hide Encode, Shortened, WellFormed;
    ImageOfBoundary(p, cut, |p|);
    NewIndexOfEnd(p, cut);
    var q := Shortened(p, cut);
    EncodedLength(p, |p|);
    EncodedLength(q, |q|);
    assert p[..|p|] == p && q[..|q|] == q;
  }

  /**
   * For every sequence of data-dependent outcomes, the shortened script runs as the long one does: the same
   * operations in the same order, the same gas, and the same final state up to where code lies.
   */
  lemma {:induction false} ShortenedRunsAlike(p: seq<Ins>, cut: seq<bool>, cfg: Config, st: State, choices: seq<Choice>)
    requires MarkedFit(p, cut) && WellDirected(p) && OnSites(p, st)
    ensures var m, short := ImageMap(p, cut), Encode(Shortened(p, cut));
            && (MoveState(m, st).Running? ==> MoveState(m, st).frames != [])
            && Run(short, cfg, MoveState(m, st), choices) == MoveState(m, ReferenceRun(p, cut, cfg, st, choices))
            && Trace(short, cfg, MoveState(m, st), choices) == ReferenceTrace(p, cut, cfg, st, choices)
    decreases |choices|
  {
    hide Encode, Shortened, FetchAt, WellFormed, Step, ReferenceStep, MoveFrames, Image, WellDirected, Boundary,
         EventAt;
    var m, short := ImageMap(p, cut), Encode(Shortened(p, cut));
    if st.Running? {
      FramesMoved(m, st.frames);
      if choices != [] {
        StepMoved(p, cut, cfg, st, choices[0]);
        EventMoved(p, cut, st);
        FramesRemain(short, cfg, MoveState(m, st), choices[0]);
        ShortenedRunsAlike(p, cut, cfg, ReferenceStep(p, cut, cfg, st, choices[0]), choices[1..]);
      }
    }
  }
}
