/** The statement language of contract functions and its meaning: labelled loops, switches and early exits. */
module Statements {
  import opened Common
  import opened StackCode
  import opened ExprLowering

  datatype Stmt =
    | Skip
    | Assign(x: nat, e: Expr)
    | IncDec(x: nat, up: bool)
    | Invoke(f: nat)
    | Seq(first: Stmt, second: Stmt)
    | If(init: Stmt, cond: Expr, body: Stmt, otherwise: Option<Stmt>)
    | For(lbl: Option<nat>, init: Stmt, guard: Option<Expr>, post: Stmt, body: Stmt)
    | Range(lbl: Option<nat>, over: Expr, key: Option<nat>, val: Option<nat>, body: Stmt)
    | Switch(lbl: Option<nat>, tag: Option<Expr>, numeric: bool, clauses: Clauses)
    | Break(name: Option<nat>)
    | Continue(name: Option<nat>)
    | Return(result: Option<Expr>)

  /** A clause without case expressions is the default; falls says that its body ends in fallthrough. */
  datatype Clauses = NoClauses | Clause(cases: seq<Expr>, body: Stmt, falls: bool, next: Clauses)

  // ----- meaning -----

  datatype Outcome =
    | Normal(env: Locals, trace: seq<nat>)
    | Broke(name: Option<nat>, env: Locals, trace: seq<nat>)
    | Continued(name: Option<nat>, env: Locals, trace: seq<nat>)
    | Gave(result: Option<Value>, env: Locals, trace: seq<nat>)
    | OutOfFuel
    | Stuck
    | Differs

  /**
   * The language looks at all cases before it takes the default clause; the emitted code takes whichever clause comes
   * first. Both follows the two and stops at the first switch where they part.
   */
  datatype Mode = Source | Emitted | Both

  /** Whether an exit statement naming a label (or none) concerns a construct with label lbl. */
  predicate Concerns(name: Option<nat>, lbl: Option<nat>) { name.None? || name == lbl }

  /** The body is over and the loop goes on. */
  predicate GoesOn(o: Outcome, lbl: Option<nat>) { o.Normal? || (o.Continued? && Concerns(o.name, lbl)) }

  /** A construct ends normally when a break that concerns it leaves its body. */
  function Caught(o: Outcome, lbl: Option<nat>): Outcome {
    if o.Broke? && Concerns(o.name, lbl) then Normal(o.env, o.trace) else o
  }

  function Exec(w: World, m: Mode, s: Stmt, env: Locals, tr: seq<nat>, fuel: nat): Outcome
    decreases fuel, s, 1
  {
    match s
    case Skip => Normal(env, tr)
    case Assign(x, e) =>
      var r := Eval(w, e, env, tr);
      if r.Fine? then Normal(env[x := r.v], r.trace) else Stuck
    case IncDec(x, up) =>
      var v := Get(env, x);
      var d := if up then 1 else -1;
      if v.Int? && IsInt256(v.n + d) then Normal(env[x := Int(v.n + d)], tr) else Stuck
    case Invoke(f) => Normal(env, tr + [f])
    case Seq(a, b) =>
      var o := Exec(w, m, a, env, tr, fuel);
      if o.Normal? then Exec(w, m, b, o.env, o.trace, fuel) else o
    case If(init, cond, body, otherwise) =>
      var o := Exec(w, m, init, env, tr, fuel);
      if !o.Normal? then o
      else
        var r := Eval(w, cond, o.env, o.trace);
        if !(r.Fine? && r.v.Bool?) then Stuck
        else if r.v.b then Exec(w, m, body, o.env, r.trace, fuel)
        else if otherwise.Some? then Exec(w, m, otherwise.value, o.env, r.trace, fuel)
        else Normal(o.env, r.trace)
    case For(_, init, _, _, _) =>
      var o := Exec(w, m, init, env, tr, fuel);
      if o.Normal? then ExecFor(w, m, s, o.env, o.trace, fuel) else o
    case Range(_, over, _, _, _) =>
      var r := Eval(w, over, env, tr);
      if r.Fine? && r.v.Arr? && IsInt256(|r.v.elems|)
      then ExecRange(w, m, s, r.v.elems, 0, env, r.trace, fuel)
      else Stuck
    case Switch(lbl, tag, numeric, clauses) =>
      var r := TagValue(w, tag, env, tr);
      if r.Fine? then Caught(ExecClauses(w, m, clauses, numeric, r.v, env, r.trace, fuel), lbl) else Stuck
    case Break(name) => Broke(name, env, tr)
    case Continue(name) => Continued(name, env, tr)
    case Return(result) =>
      if result.None? then Gave(None, env, tr)
      else
        var r := Eval(w, result.value, env, tr);
        if r.Fine? then Gave(Some(r.v), env, r.trace) else Stuck
  }

  function GuardValue(w: World, guard: Option<Expr>, env: Locals, tr: seq<nat>): Result {
    if guard.None? then Fine(Bool(true), tr) else Eval(w, guard.value, env, tr)
  }

  /** A for loop from its condition on. */
  function ExecFor(w: World, m: Mode, s: Stmt, env: Locals, tr: seq<nat>, fuel: nat): Outcome
    requires s.For?
    decreases fuel, s, 0
  {
    if fuel == 0 then OutOfFuel
    else
      var r := GuardValue(w, s.guard, env, tr);
      if !(r.Fine? && r.v.Bool?) then Stuck
      else if !r.v.b then Normal(env, r.trace)
      else
        var o := Exec(w, m, s.body, env, r.trace, fuel - 1);
        if GoesOn(o, s.lbl) then
          var q := Exec(w, m, s.post, o.env, o.trace, fuel - 1);
          if q.Normal? then ExecFor(w, m, s, q.env, q.trace, fuel - 1) else q
        else Caught(o, s.lbl)
  }

  function Bind(x: Option<nat>, v: Value, env: Locals): Locals { if x.Some? then env[x.value := v] else env }

  /** A range loop from element i on; the array and its length are fixed when the loop starts. */
  function ExecRange(w: World, m: Mode, s: Stmt, elems: seq<Value>, i: nat, env: Locals, tr: seq<nat>,
                     fuel: nat): Outcome
    requires s.Range? && i <= |elems|
    decreases fuel, s, 0, |elems| - i
  {
    if i == |elems| then Normal(env, tr)
    else
      var o := Exec(w, m, s.body, Bind(s.val, elems[i], Bind(s.key, Int(i), env)), tr, fuel);
      if GoesOn(o, s.lbl) then ExecRange(w, m, s, elems, i + 1, o.env, o.trace, fuel) else Caught(o, s.lbl)
  }

  function TagValue(w: World, tag: Option<Expr>, env: Locals, tr: seq<nat>): Result {
    if tag.None? then Fine(Bool(true), tr) else Eval(w, tag.value, env, tr)
  }

  datatype Selection = Hit(trace: seq<nat>) | Miss(trace: seq<nat>) | BadCase

  /** The case expressions of one clause, in order, until one equals the tag. */
  function SelectCase(w: World, cases: seq<Expr>, numeric: bool, v: Value, env: Locals, tr: seq<nat>): Selection {
    if cases == [] then Miss(tr)
    else
      var r := Eval(w, cases[0], env, tr);
      if !r.Fine? then BadCase
      else if numeric && v.Int? && r.v.Int? then
        if v.n == r.v.n then Hit(r.trace) else SelectCase(w, cases[1..], numeric, v, env, r.trace)
      else if !numeric && v.Bool? && r.v.Bool? then
        if v.b == r.v.b then Hit(r.trace) else SelectCase(w, cases[1..], numeric, v, env, r.trace)
      else BadCase
  }

  datatype Choice = Chosen(clause: Clauses, trace: seq<nat>) | Nothing(trace: seq<nat>) | BadClause

  /** The first clause one of whose cases equals the tag. */
  function Choose(w: World, cs: Clauses, numeric: bool, v: Value, env: Locals, tr: seq<nat>): (r: Choice)
    ensures r.Chosen? ==> r.clause.Clause? && (r.clause == cs || r.clause < cs)
  {
    if cs.NoClauses? then Nothing(tr)
    else
      match SelectCase(w, cs.cases, numeric, v, env, tr)
      case BadCase => BadClause
      case Hit(tr') => Chosen(cs, tr')
      case Miss(tr') => Choose(w, cs.next, numeric, v, env, tr')
  }

  /** The default clause, wherever it stands. */
  function Default(cs: Clauses): (r: Clauses)
    ensures r == cs || r < cs
  {
    if cs.NoClauses? || cs.cases == [] then cs else Default(cs.next)
  }

  /** The clause that the language runs. */
  function SourceChoice(w: World, cs: Clauses, numeric: bool, v: Value, env: Locals, tr: seq<nat>): (r: Choice)
    ensures r.Chosen? ==> r.clause.Clause? && (r.clause == cs || r.clause < cs)
  {
    var r := Choose(w, cs, numeric, v, env, tr);
    if r.Nothing? && Default(cs).Clause? then Chosen(Default(cs), r.trace) else r
  }

  /** The clause that the emitted code runs: the first one that is the default or has a case that equals the tag. */
  function EmittedChoice(w: World, cs: Clauses, numeric: bool, v: Value, env: Locals, tr: seq<nat>): (r: Choice)
    ensures r.Chosen? ==> r.clause.Clause? && (r.clause == cs || r.clause < cs)
  {
    if cs.NoClauses? then Nothing(tr)
    else if cs.cases == [] then Chosen(cs, tr)
    else
      match SelectCase(w, cs.cases, numeric, v, env, tr)
      case BadCase => BadClause
      case Hit(tr') => Chosen(cs, tr')
      case Miss(tr') => EmittedChoice(w, cs.next, numeric, v, env, tr')
  }

  function ExecClauses(w: World, m: Mode, cs: Clauses, numeric: bool, v: Value, env: Locals, tr: seq<nat>, fuel: nat):
    Outcome
    decreases fuel, cs, 1
  {
    var source, emitted := SourceChoice(w, cs, numeric, v, env, tr), EmittedChoice(w, cs, numeric, v, env, tr);
    if m.Both? && source != emitted then Differs
    else
      match if m.Source? then source else emitted
      case BadClause => Stuck
      case Chosen(c, tr') => RunClause(w, m, c, env, tr', fuel)
      case Nothing(tr') => Normal(env, tr')
  }

  /** The body of a clause, and those it falls through to. */
  function RunClause(w: World, m: Mode, cs: Clauses, env: Locals, tr: seq<nat>, fuel: nat): Outcome
    decreases fuel, cs, 0
  {
    if cs.NoClauses? then Normal(env, tr)
    else
      var o := Exec(w, m, cs.body, env, tr, fuel);
      if o.Normal? && cs.falls then RunClause(w, m, cs.next, o.env, o.trace, fuel) else o
  }

  // ----- what the language accepts -----

  /** An open construct that exits may name. */
  datatype Frame = Frame(lbl: Option<nat>, loop: bool)

  /** The innermost construct that a break or continue statement concerns; -1 if there is none. */
  function Target(fs: seq<Frame>, name: Option<nat>, brk: bool): (t: int)
    ensures -1 <= t < |fs|
    ensures t >= 0 ==> Concerns(name, fs[t].lbl) && (brk || fs[t].loop)
  {
    if fs == [] then -1
    else if (brk || fs[|fs| - 1].loop) && Concerns(name, fs[|fs| - 1].lbl) then |fs| - 1
    else Target(fs[..|fs| - 1], name, brk)
  }

  /** Initialisers and post statements. */
  predicate Simple(s: Stmt) { s.Skip? || s.Assign? || s.IncDec? || s.Invoke? }

  /** No enclosing construct has this label. */
  predicate FreshLabel(lbl: Option<nat>, fs: seq<Frame>) {
    lbl.Some? ==> forall i :: 0 <= i < |fs| ==> fs[i].lbl != lbl
  }

  /**
   * Exits have targets, labels are not reused by nested constructs, the last clause of a switch does not fall through.
   */
  predicate Legal(s: Stmt, fs: seq<Frame>) {
    match s
    case Seq(a, b) => Legal(a, fs) && Legal(b, fs)
    case If(init, _, body, otherwise) =>
      Simple(init) && Legal(body, fs) && (otherwise.Some? ==> Legal(otherwise.value, fs))
    case For(lbl, init, _, post, body) =>
      Simple(init) && Simple(post) && FreshLabel(lbl, fs) && Legal(body, fs + [Frame(lbl, true)])
    case Range(lbl, _, _, _, body) => FreshLabel(lbl, fs) && Legal(body, fs + [Frame(lbl, true)])
    case Switch(lbl, tag, numeric, clauses) =>
      (tag.None? ==> !numeric) && FreshLabel(lbl, fs) && LegalClauses(clauses, fs + [Frame(lbl, false)])
    case Break(name) => Target(fs, name, true) >= 0
    case Continue(name) =>
      Target(fs, name, false) >= 0
    case _ => true
  }

  predicate LegalClauses(cs: Clauses, fs: seq<Frame>) {
    cs.Clause? ==> Legal(cs.body, fs) && LegalClauses(cs.next, fs) && (cs.next.NoClauses? ==> !cs.falls)
  }
}
