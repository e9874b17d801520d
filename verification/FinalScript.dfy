/** Label resolution and shortening together: what the compiler finally returns runs as the emitted code means. */
module FinalScript {
  import opened Bytes
  import opened Opcodes
  import opened Context
  import opened Instructions
  import opened InPlace
  import opened JumpShortening
  import opened ShortenedProgram
  import opened WriteJumps
  import opened Machine
  import opened ShorteningRun

  /**
   * Labels are set at instruction boundaries, handler labels after their TRYL; inline short jumps stay on boundaries.
   */
  predicate EmittedAt(p: seq<Ins>, l: seq<int>, i: nat)
    requires i < |p|
  {
    && (IsShortJump(p[i].op) ==> Boundary(p, Addr(p, i) + OffsetOf(p[i].arg)))
    && ((IsLongJump(p[i].op) || p[i].op == PUSHA) && |p[i].arg| == 4 && U16(p[i].arg[..2]) < |l| ==>
          Boundary(p, l[U16(p[i].arg[..2])]))
    && (p[i].op == TRYL && |p[i].arg| == 8 && U16(p[i].arg[..2]) < |l| && U16(p[i].arg[4..6]) < |l| ==>
          && Boundary(p, l[U16(p[i].arg[..2])]) && l[U16(p[i].arg[..2])] >= Addr(p, i)
          && Boundary(p, l[U16(p[i].arg[4..6])]) && l[U16(p[i].arg[4..6])] >= Addr(p, i))
  }

  predicate Emitted(p: seq<Ins>, l: seq<int>) {
    && WellFormedProgram(p)
    && forall i :: 0 <= i < |p| ==> p[i].op != TRY && EmittedAt(p, l, i)
  }

  lemma BoundaryCarries(p: seq<Ins>, q: seq<Ins>, x: int)
    requires SameShape(p, q) && Boundary(p, x)
    ensures Boundary(q, x)
  {
    var i :| 0 <= i <= |p| && Addr(p, i) == x;
    AddrDependsOnSizes(p, q, i);
  }

  lemma {:induction false} ResolvedIsDirectedAt(p: seq<Ins>, l: seq<int>, counts: map<nat, nat>, q: seq<Ins>, i: nat)
    requires i < |p| && SameShape(p, q) && WellFormed(p[i]) && EmittedAt(p, l, i)
    requires ResolveIns(p[i], Addr(p, i), l, counts).Done? && ResolveIns(p[i], Addr(p, i), l, counts).value.0 == q[i]
    ensures DirectedAt(q, i)
  {
    hide Boundary, FetchAt, WellFormed, LE32, Signed32, Signed8, Addr, U16;
    AddrDependsOnSizes(p, q, i);
    var op, arg := p[i].op, p[i].arg;
    if op !in {PUSHDATA1, PUSHDATA2, PUSHDATA4} { ArgumentSize(p[i]); }
    if IsShortJump(op) {
      BoundaryCarries(p, q, Addr(p, i) + OffsetOf(arg));
    } else if IsLongJump(op) || op == PUSHA {
      BoundaryCarries(p, q, l[U16(arg[..2])]);
      Signed32OfLE32(l[U16(arg[..2])] - Addr(p, i));
    } else if op == TRYL {
      assert arg[4..][..2] == arg[4..6] && arg[..4][..2] == arg[..2];
      TryLabels(p[i], Addr(p, i), l, counts);
      BoundaryCarries(p, q, l[U16(arg[..2])]);
      BoundaryCarries(p, q, l[U16(arg[4..6])]);
    }
  }

  /** A resolved program meets everything that the run theorem asks for. */
  lemma ResolvedIsDirected(p: seq<Ins>, l: seq<int>, counts: map<nat, nat>)
    requires Emitted(p, l) && Resolve(p, l, counts, |p|).Done?
    ensures var (q, cut) := Resolve(p, l, counts, |p|).value;
            MarkedFit(q, cut) && WellDirected(q)
  {
    hide FetchAt, WellFormed, ResolveIns, Resolve, Goal, EmittedAt, DirectedAt;
    var (q, cut) := Resolve(p, l, counts, |p|).value;
    ResolvedIsShortenable(p, l, counts);
    GoalShape(p, l, counts);
    forall i | 0 <= i < |q| ensures DirectedAt(q, i) {
      ResolvedAt(p, l, counts, |p|, i);
      assert EmittedAt(p, l, i);
      ResolvedIsDirectedAt(p, l, counts, q, i);
    }
  }

  /** The script that the compiler returns, started anywhere the resolved code could start, runs like it. */
  lemma {:induction false} CompiledRunsAlike(p: seq<Ins>, l: seq<int>, counts: map<nat, nat>, cfg: Config, i: nat,
                                             choices: seq<Choice>)
    requires Emitted(p, l) && Resolve(p, l, counts, |p|).Done? && i <= |p|
    ensures var (q, cut) := Resolve(p, l, counts, |p|).value;
            var final, m := Encode(Shortened(q, cut)), ImageMap(q, cut);
            var start := Running([Frame(Addr(q, i), [])], false, [], 0);
            && MarkedFit(q, cut) && WellDirected(q) && OnSites(q, start) && m(Addr(q, i)) >= 0
            && var entry := Running([Frame(m(Addr(q, i)), [])], false, [], 0);
               && Run(final, cfg, entry, choices) == MoveState(m, ReferenceRun(q, cut, cfg, start, choices))
               && Trace(final, cfg, entry, choices) == ReferenceTrace(q, cut, cfg, start, choices)
  {
    hide Encode, Shortened, FetchAt, WellFormed, Resolve, WellDirected, ReferenceRun, ReferenceTrace, Run, Trace,
         Boundary;
    var (q, cut) := Resolve(p, l, counts, |p|).value;
    ResolvedIsDirected(p, l, counts);
    BoundaryHolds(q, i);
    var start := Running([Frame(Addr(q, i), [])], false, [], 0);
    ShortenedRunsAlike(q, cut, cfg, start, choices);
    var m := ImageMap(q, cut);
    FrameAdded(m, Frame(Addr(q, i), []), []);
    assert [Frame(Addr(q, i), [])] + [] == [Frame(Addr(q, i), [])];
    assert MovePointers(m, []) == [];
    assert MoveState(m, start) == Running([Frame(m(Addr(q, i)), [])], false, [], 0);
  }
}
