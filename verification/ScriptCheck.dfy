/** The static script checker and what its acceptance guarantees for every run (pkg/vm/contract_checks.go). */
module ScriptCheck {
  import opened Bytes
  import opened Opcodes
  import opened Context
  import opened Machine

  // ----- bit fields (pkg/util/bitfield/bitfield.go) -----

  const ELEM_BITS := 64

  /** A bit field of whole words; setting a bit beyond them is an index error. */
  datatype Field = Field(words: nat, bits: set<nat>) {
    predicate Fits(i: nat) { i / ELEM_BITS < words }
    predicate IsSubset(o: Field) { words <= o.words && bits <= o.bits }
  }

  function NewField(n: nat): Field {
    Field(if n == 0 then 1 else 1 + (n - 1) / ELEM_BITS, {})
  }

  // ----- the checker -----

  datatype Verdict = Correct | Incorrect | Panicked

  datatype Methods = AnyMethods | Entries(field: Field)

  predicate IsItemType(t: Byte) { t in {0x00, 0x10, 0x20, 0x21, 0x28, 0x30, 0x40, 0x41, 0x48, 0x60} }

  predicate HasTypeParameter(op: Byte) { op in {NEWARRAYT, ISTYPE, CONVERT} }

  predicate TypeParameterOk(op: Byte, arg: seq<Byte>) {
    |arg| == 1 && IsItemType(arg[0]) && (arg[0] == 0x00 ==> op == NEWARRAYT)
  }

  /** Offsets recorded as jump targets by one instruction, in order; the last one may be out of the script. */
  function TargetsOf(ip: nat, op: Byte, arg: seq<Byte>): seq<int> {
    if HasOffset(op) then [ip + OffsetOf(arg)]
    else if op == TRY || op == TRYL then
      var half := |arg| / 2;
      [ip + OffsetOf(arg[..half]), ip + OffsetOf(arg[half..])]
    else []
  }

  /** What the loop has found so far, or how it ended. */
  datatype Scan = Scanned(starts: set<nat>, jumps: set<nat>) | Stopped(verdict: Verdict)

  /** Recording of targets: out of the script is an error, beyond the bit field is a panic. */
  function Record(length: nat, targets: seq<int>): (r: Scan)
    ensures r.Stopped? ==> r.verdict != Correct
  {
    if targets == [] then Scanned({}, {})
    else if !(0 <= targets[0] <= length) then Stopped(Incorrect)
    else if !NewField(length).Fits(targets[0]) then Stopped(Panicked)
    else
      match Record(length, targets[1..])
      case Stopped(v) => Stopped(v)
      case Scanned(s, j) => Scanned(s, {targets[0] as nat} + j)
  }

  function CheckInstruction(length: nat, ip: nat, op: Byte, arg: seq<Byte>): (r: Scan)
    ensures r.Stopped? ==> r.verdict != Correct
  {
    if HasTypeParameter(op) && !TypeParameterOk(op, arg) then Stopped(Incorrect)
    else Record(length, TargetsOf(ip, op, arg))
  }

  /** Result of the scanning loop started at ip. */
  function ScanFrom(b: seq<Byte>, ip: nat): (r: Scan)
    ensures r.Stopped? ==> r.verdict != Correct
    decreases |b| - ip
  {
    match FetchAt(b, ip)
    case AtEnd => Scanned({}, {})
    case Malformed => Stopped(Incorrect)
    case Fetched(op, lo, hi) =>
      match CheckInstruction(|b|, ip, op, b[lo..hi])
      case Stopped(v) => Stopped(v)
      case Scanned(_, j) =>
        match ScanFrom(b, hi)
        case Stopped(v) => Stopped(v)
        case Scanned(s', j') => Scanned({ip} + s', j + j')
  }

  /** Linearly decoded instruction starts. */
  function Starts(b: seq<Byte>): set<nat> {
    match ScanFrom(b, 0)
    case Scanned(s, j) => s
    case Stopped(_) => {}
  }

  function CheckVerdict(b: seq<Byte>, methods: Methods): Verdict {
    match ScanFrom(b, 0)
    case Stopped(v) => v
    case Scanned(s, j) =>
      if !(j <= s) then Incorrect
      else if methods.Entries? && !methods.field.IsSubset(Field(NewField(|b|).words, s)) then Incorrect
      else Correct
  }

  method RecordTargets(l: nat, targets: seq<int>, jumps: Field) returns (r: Verdict, jumps': Field)
    requires jumps.words == NewField(l).words
    ensures match Record(l, targets)
            case Stopped(v) => r == v && v != Correct
            case Scanned(_, j) => r == Correct && jumps' == Field(jumps.words, jumps.bits + j)
  {
    jumps' := jumps;
    var i := 0;
    assert targets[0..] == targets;
    while i < |targets|
      invariant 0 <= i <= |targets| && jumps'.words == jumps.words
      invariant jumps.bits <= jumps'.bits
      invariant match Record(l, targets[i..])
                case Stopped(v) => Record(l, targets) == Stopped(v) && v != Correct
                case Scanned(_, j) =>
                  Record(l, targets).Scanned? && jumps.bits + Record(l, targets).jumps == jumps'.bits + j
    {
      var off := targets[i];
      assert targets[i..][1..] == targets[i + 1..];
      if !(0 <= off <= l) { return Incorrect, jumps'; }
      if !jumps'.Fits(off) { return Panicked, jumps'; }
      jumps' := Field(jumps'.words, jumps'.bits + {off as nat});
      i := i + 1;
    }
    return Correct, jumps';
  }

  /** The scan from ip, given what was recorded before it, leads to the scan of the whole script. */
  ghost predicate Scanning(b: seq<Byte>, ip: nat, instrs: Field, jumps: Field) {
    && instrs.words == jumps.words == NewField(|b|).words
    && match ScanFrom(b, ip)
       case Stopped(v) => ScanFrom(b, 0) == Stopped(v)
       case Scanned(s, j) => ScanFrom(b, 0) == Scanned(instrs.bits + s, jumps.bits + j)
  }

  lemma {:induction false} ScanningStep(b: seq<Byte>, ip: nat, instrs: Field, jumps: Field)
    requires Scanning(b, ip, instrs, jumps) && FetchAt(b, ip).Fetched?
    ensures var f := FetchAt(b, ip);
            match CheckInstruction(|b|, ip, f.op, b[f.lo..f.hi])
            case Stopped(v) => ScanFrom(b, 0) == Stopped(v)
            case Scanned(_, j) =>
              Scanning(b, f.hi, Field(instrs.words, instrs.bits + {ip}), Field(jumps.words, jumps.bits + j))
  {
    hide FetchAt, CheckInstruction, NewField;
    var f := FetchAt(b, ip);
    var c := CheckInstruction(|b|, ip, f.op, b[f.lo..f.hi]);
    if c.Scanned? && ScanFrom(b, f.hi).Scanned? {
      var rest := ScanFrom(b, f.hi);
      assert instrs.bits + ({ip} + rest.starts) == (instrs.bits + {ip}) + rest.starts;
      assert jumps.bits + (c.jumps + rest.jumps) == (jumps.bits + c.jumps) + rest.jumps;
    }
  }

  /** The checker's loop over a cursor. Its verdict is the one of the specification. */
  method IsScriptCorrect(script: array<Byte>, methods: Methods) returns (r: Verdict)
    ensures r == CheckVerdict(script[..], methods)
  {
    hide FetchAt, CheckInstruction, TargetsOf, TypeParameterOk;
    var l := script.Length;
    var instrs, jumps := NewField(l), NewField(l);
    var ctx := new Cursor(script, 0);
    while ctx.nextip < l
      invariant fresh(ctx) && ctx.prog == script
      invariant ctx.nextip <= l
      invariant Scanning(script[..], ctx.nextip, instrs, jumps)
      decreases l - ctx.nextip
    {
      ghost var ip0 := ctx.nextip;
      var f := ctx.Next();
      if !f.Fetched? { return Incorrect; }
      ScanningStep(script[..], ctx.ip, instrs, jumps);
      instrs := Field(instrs.words, instrs.bits + {ctx.ip});
      r, jumps := CheckOne(script, l, ctx.ip, f, jumps);
      if r != Correct { return r; }
    }
    ScanAtEnd(script[..], ctx.nextip);
    if !jumps.IsSubset(instrs) { return Incorrect; }
    if methods.Entries? && !methods.field.IsSubset(instrs) { return Incorrect; }
    return Correct;
  }

  lemma ScanAtEnd(b: seq<Byte>, ip: nat)
    requires |b| <= ip
    ensures ScanFrom(b, ip) == Scanned({}, {})
  {}

  /** The switch of the loop body. */
  method CheckOne(script: array<Byte>, l: nat, ip: nat, f: Fetch, jumps: Field) returns (r: Verdict, jumps': Field)
    requires f.Fetched? && f.lo <= f.hi <= script.Length && jumps.words == NewField(l).words
    ensures match CheckInstruction(l, ip, f.op, script[f.lo..f.hi])
            case Stopped(v) => r == v && v != Correct
            case Scanned(_, j) => r == Correct && jumps' == Field(jumps.words, jumps.bits + j)
  {
    var param := script[f.lo..f.hi];
    if HasTypeParameter(f.op) && !TypeParameterOk(f.op, param) { return Incorrect, jumps; }
    r, jumps' := RecordTargets(l, TargetsOf(ip, f.op, param), jumps);
  }

  // ----- when the checker itself fails -----

  /** Recording panics exactly on a target at the script's end when the length fills its last word. */
  predicate HitsFieldEnd(length: nat, targets: seq<int>) {
    && length > 0 && length % ELEM_BITS == 0
    && exists k :: 0 <= k < |targets| && targets[k] == length && forall i :: 0 <= i < k ==> 0 <= targets[i] < length
  }

  lemma {:induction false} RecordPanics(length: nat, targets: seq<int>)
    ensures Record(length, targets) == Stopped(Panicked) <==> HitsFieldEnd(length, targets)
  {
    if targets != [] {
      RecordPanics(length, targets[1..]);
      var t := targets[0];
      if 0 <= t <= length {
        assert NewField(length).Fits(t) <==> !(length > 0 && length % ELEM_BITS == 0 && t == length);
        if NewField(length).Fits(t) {
          if HitsFieldEnd(length, targets[1..]) {
            var k :| 0 <= k < |targets[1..]| && targets[1..][k] == length
                     && forall i :: 0 <= i < k ==> 0 <= targets[1..][i] < length;
            assert targets[k + 1] == length;
            assert forall i :: 0 <= i < k + 1 ==> i == 0 || targets[i] == targets[1..][i - 1];
          }
          if HitsFieldEnd(length, targets) {
            var k :| 0 <= k < |targets| && targets[k] == length && forall i :: 0 <= i < k ==> 0 <= targets[i] < length;
            assert targets[1..][k - 1] == length;
            assert forall i :: 0 <= i < k - 1 ==> targets[1..][i] == targets[i + 1];
          }
        }
      }
    }
  }

  /** The scan started at ip arrives at x without stopping. */
  predicate ScansTo(b: seq<Byte>, ip: nat, x: nat)
    decreases |b| - ip
  {
    ip == x ||
    var f := FetchAt(b, ip);
    f.Fetched? && CheckInstruction(|b|, ip, f.op, b[f.lo..f.hi]).Scanned? && ScansTo(b, f.hi, x)
  }

  /** Instruction x makes the checker panic. */
  predicate PanicsAt(b: seq<Byte>, x: nat) {
    var f := FetchAt(b, x);
    && f.Fetched? && (HasTypeParameter(f.op) ==> TypeParameterOk(f.op, b[f.lo..f.hi]))
    && HitsFieldEnd(|b|, TargetsOf(x, f.op, b[f.lo..f.hi]))
  }

  lemma {:induction false} ScanPanics(b: seq<Byte>, ip: nat)
    ensures ScanFrom(b, ip) == Stopped(Panicked) <==> exists x :: ScansTo(b, ip, x) && PanicsAt(b, x)
    decreases |b| - ip
  {
    hide FetchAt, HitsFieldEnd, Record, TypeParameterOk, TargetsOf;
    var f := FetchAt(b, ip);
    if f.Fetched? {
      RecordPanics(|b|, TargetsOf(ip, f.op, b[f.lo..f.hi]));
      ScanPanics(b, f.hi);
      if ScanFrom(b, ip) == Stopped(Panicked) {
        if PanicsAt(b, ip) {
          assert ScansTo(b, ip, ip);
        } else {
          var x :| ScansTo(b, f.hi, x) && PanicsAt(b, x);
          assert ScansTo(b, ip, x);
        }
      }
    }
  }

  /**
   * The checker panics instead of returning a verdict exactly when the instructions before some jump check out and
   * that jump leads to the very end of a script whose length is a multiple of the bit field's word.
   */
  lemma CheckerPanics(b: seq<Byte>, methods: Methods)
    ensures CheckVerdict(b, methods) == Panicked <==> exists x :: ScansTo(b, 0, x) && PanicsAt(b, x)
  {
    ScanPanics(b, 0);
  }

  /** For instance on every script of 64 bytes that starts with a jump to its own end. */
  lemma JumpToTheEndPanics(b: seq<Byte>)
    requires |b| == 64 && b[0] == JMP && b[1] == 0x40
    ensures CheckVerdict(b, AnyMethods) == Panicked
  {
    assert FetchAt(b, 0) == Fetched(JMP, 1, 2);
    assert b[1..2] == [0x40];
    assert TargetsOf(0, JMP, [0x40]) == [64];
    assert HitsFieldEnd(64, [64]) by { assert [64][0] == 64; }
    assert ScansTo(b, 0, 0) && PanicsAt(b, 0);
    CheckerPanics(b, AnyMethods);
  }
}
