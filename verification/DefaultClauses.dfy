/**
 * Default clauses of switch statements: the emitted code enters a default as soon as it comes to it, the language only
 * after all cases have failed. When the two agree, for one switch and for whole functions.
 */
module DefaultClauses {
  import opened Common
  import opened StackCode
  import opened ExprLowering
  import opened Statements
  import opened StmtLowering
  import opened StmtContext
  import opened StmtRuns

  // ----- one switch -----

  /**
   * The emitted code chooses as the language does exactly if, whenever it enters a default, the cases after it can all
   * be evaluated, none equals the tag and none makes a call.
   */
  lemma {:induction false} ChoicesAgree(w: World, cs: Clauses, numeric: bool, v: Value, env: Locals, tr: seq<nat>)
    ensures var e := EmittedChoice(w, cs, numeric, v, env, tr);
            SourceChoice(w, cs, numeric, v, env, tr) == e <==>
              (e.Chosen? && e.clause.cases == [] ==>
                 Choose(w, e.clause.next, numeric, v, env, e.trace) == Nothing(e.trace))
    decreases cs
  {
    hide Eval;
    if cs.Clause? {
      match SelectCase(w, cs.cases, numeric, v, env, tr)
      case Miss(tr') => if cs.cases != [] { ChoicesAgree(w, cs.next, numeric, v, env, tr'); }
      case _ =>
    }
  }

  // ----- functions -----

  /** In every switch the default clause, if there is one, is the last. */
  predicate DefaultsLast(s: Stmt) {
    match s
    case Seq(a, b) => DefaultsLast(a) && DefaultsLast(b)
    case If(init, _, body, otherwise) =>
      DefaultsLast(init) && DefaultsLast(body) && (otherwise.Some? ==> DefaultsLast(otherwise.value))
    case For(_, init, _, post, body) => DefaultsLast(init) && DefaultsLast(post) && DefaultsLast(body)
    case Range(_, _, _, _, body) => DefaultsLast(body)
    case Switch(_, _, _, clauses) => LastIn(clauses)
    case _ => true
  }

  predicate LastIn(cs: Clauses) {
    cs.Clause? ==> DefaultsLast(cs.body) && LastIn(cs.next) && (cs.cases == [] ==> cs.next.NoClauses?)
  }

  lemma {:induction false} LastChosen(w: World, cs: Clauses, numeric: bool, v: Value, env: Locals, tr: seq<nat>)
    requires LastIn(cs)
    ensures var e := EmittedChoice(w, cs, numeric, v, env, tr);
            && SourceChoice(w, cs, numeric, v, env, tr) == e && (e.Chosen? ==> LastIn(e.clause))
    decreases cs
  {
    hide Eval;
    ChoicesAgree(w, cs, numeric, v, env, tr);
    if cs.Clause? && cs.cases != [] {
      match SelectCase(w, cs.cases, numeric, v, env, tr)
      case Miss(tr') => LastChosen(w, cs.next, numeric, v, env, tr');
      case _ =>
    }
  }

  /** Three outcomes of the same thing: without a differing choice they are one, and with last defaults none differs. */
  ghost predicate Agree(last: bool, source: Outcome, emitted: Outcome, both: Outcome) {
    (last ==> !both.Differs?) && (!both.Differs? ==> source == both == emitted)
  }

  /**
   * If the code chooses as the language at every switch that is reached, statement and code have the same outcome; and
   * if all defaults come last, it does so at every switch.
   */
  lemma {:induction false} ModesAgree(w: World, s: Stmt, env: Locals, tr: seq<nat>, fuel: nat)
    ensures Agree(DefaultsLast(s), Exec(w, Source, s, env, tr, fuel), Exec(w, Emitted, s, env, tr, fuel),
                  Exec(w, Both, s, env, tr, fuel))
    decreases fuel, s, 1
  {
    hide Eval, ExecFor, ExecRange, ExecClauses;
    match s
    case Seq(a, b) =>
      ModesAgree(w, a, env, tr, fuel);
      var o := Exec(w, Both, a, env, tr, fuel);
      if o.Normal? { ModesAgree(w, b, o.env, o.trace, fuel); }
    case If(_, _, _, _) => IfAgrees(w, s, env, tr, fuel);
    case For(_, init, _, _, _) =>
      ModesAgree(w, init, env, tr, fuel);
      var o := Exec(w, Both, init, env, tr, fuel);
      if o.Normal? { ForAgrees(w, s, o.env, o.trace, fuel); }
    case Range(_, over, _, _, _) =>
      var r := Eval(w, over, env, tr);
      if r.Fine? && r.v.Arr? && IsInt256(|r.v.elems|) { RangeAgrees(w, s, r.v.elems, 0, env, r.trace, fuel); }
    case Switch(_, tag, numeric, clauses) =>
      var r := TagValue(w, tag, env, tr);
      if r.Fine? { ClausesAgree(w, clauses, numeric, r.v, env, r.trace, fuel); }
    case _ =>
  }

  lemma {:induction false} IfAgrees(w: World, s: Stmt, env: Locals, tr: seq<nat>, fuel: nat)
    requires s.If?
    ensures Agree(DefaultsLast(s), Exec(w, Source, s, env, tr, fuel), Exec(w, Emitted, s, env, tr, fuel),
                  Exec(w, Both, s, env, tr, fuel))
    decreases fuel, s, 0
  {
    hide Eval;
    ModesAgree(w, s.init, env, tr, fuel);
    var o := Exec(w, Both, s.init, env, tr, fuel);
    if o.Normal? {
      var r := Eval(w, s.cond, o.env, o.trace);
      if r.Fine? && r.v.Bool? {
        if r.v.b {
          ModesAgree(w, s.body, o.env, r.trace, fuel);
        } else if s.otherwise.Some? {
          ModesAgree(w, s.otherwise.value, o.env, r.trace, fuel);
        }
      }
    }
  }

  lemma {:induction false} ForAgrees(w: World, s: Stmt, env: Locals, tr: seq<nat>, fuel: nat)
    requires s.For?
    ensures Agree(DefaultsLast(s), ExecFor(w, Source, s, env, tr, fuel), ExecFor(w, Emitted, s, env, tr, fuel),
                  ExecFor(w, Both, s, env, tr, fuel))
    decreases fuel, s, 0
  {
    hide Eval, Exec;
    var r := GuardValue(w, s.guard, env, tr);
    if fuel > 0 && r.Fine? && r.v.Bool? && r.v.b {
      ModesAgree(w, s.body, env, r.trace, fuel - 1);
      var o := Exec(w, Both, s.body, env, r.trace, fuel - 1);
      if GoesOn(o, s.lbl) {
        ModesAgree(w, s.post, o.env, o.trace, fuel - 1);
        var q := Exec(w, Both, s.post, o.env, o.trace, fuel - 1);
        if q.Normal? { ForAgrees(w, s, q.env, q.trace, fuel - 1); }
      }
    }
  }

  lemma {:induction false} RangeAgrees(w: World, s: Stmt, elems: seq<Value>, i: nat, env: Locals, tr: seq<nat>,
                                       fuel: nat)
    requires s.Range? && i <= |elems|
    ensures Agree(DefaultsLast(s), ExecRange(w, Source, s, elems, i, env, tr, fuel),
                  ExecRange(w, Emitted, s, elems, i, env, tr, fuel), ExecRange(w, Both, s, elems, i, env, tr, fuel))
    decreases fuel, s, 0, |elems| - i
  {
    hide Exec;
    if i < |elems| {
      var env' := Bind(s.val, elems[i], Bind(s.key, Int(i), env));
      ModesAgree(w, s.body, env', tr, fuel);
      var o := Exec(w, Both, s.body, env', tr, fuel);
      if GoesOn(o, s.lbl) { RangeAgrees(w, s, elems, i + 1, o.env, o.trace, fuel); }
    }
  }

  lemma {:induction false} ClausesAgree(w: World, cs: Clauses, numeric: bool, v: Value, env: Locals, tr: seq<nat>,
                                        fuel: nat)
    ensures Agree(LastIn(cs), ExecClauses(w, Source, cs, numeric, v, env, tr, fuel),
                  ExecClauses(w, Emitted, cs, numeric, v, env, tr, fuel),
                  ExecClauses(w, Both, cs, numeric, v, env, tr, fuel))
    decreases fuel, cs, 1
  {
    hide Exec, RunClause, SourceChoice, EmittedChoice;
    var e := EmittedChoice(w, cs, numeric, v, env, tr);
    if LastIn(cs) { LastChosen(w, cs, numeric, v, env, tr); }
    if e.Chosen? { BodiesAgree(w, e.clause, env, e.trace, fuel); }
  }

  lemma {:induction false} BodiesAgree(w: World, cs: Clauses, env: Locals, tr: seq<nat>, fuel: nat)
    ensures Agree(LastIn(cs), RunClause(w, Source, cs, env, tr, fuel), RunClause(w, Emitted, cs, env, tr, fuel),
                  RunClause(w, Both, cs, env, tr, fuel))
    decreases fuel, cs, 0
  {
    hide Exec;
    if cs.Clause? {
      ModesAgree(w, cs.body, env, tr, fuel);
      var o := Exec(w, Both, cs.body, env, tr, fuel);
      if o.Normal? && cs.falls { BodiesAgree(w, cs.next, o.env, o.trace, fuel); }
    }
  }

  /**
   * A compiled function returns exactly what its source returns, after exactly the same calls, unless it comes to a
   * switch at which the choices differ; and it never does if its defaults come last.
   */
  lemma FunctionMeansSource(w: World, s: Stmt, env: Locals, fuel: nat, end: Conf)
    requires Legal(s, []) && !end.At?
    requires BodyResult(Exec(w, Source, s, env, [], fuel)).Gave? && !Exec(w, Both, s, env, [], fuel).Differs?
    ensures var out := BodyResult(Exec(w, Source, s, env, [], fuel));
            Reaches(w, EmitBody(s).prog, EmitBody(s).l, At(0, [], env, []), end) <==>
              end == Conf.Returned(Results(out.result), out.env, out.trace)
  {
    hide *;
    assert Exec(w, Source, s, env, [], fuel) == Exec(w, Emitted, s, env, [], fuel) by {
      ModesAgree(w, s, env, [], fuel);
      AgreeMeans(DefaultsLast(s), Exec(w, Source, s, env, [], fuel), Exec(w, Emitted, s, env, [], fuel),
                 Exec(w, Both, s, env, [], fuel));
    }
    FunctionRuns(w, s, env, fuel);
    if Reaches(w, EmitBody(s).prog, EmitBody(s).l, At(0, [], env, []), end) {
      FunctionReturnsOnly(w, s, env, fuel, end);
    }
  }

  lemma AgreeMeans(last: bool, source: Outcome, emitted: Outcome, both: Outcome)
    requires Agree(last, source, emitted, both)
    ensures last ==> !both.Differs?
    ensures !both.Differs? ==> source == both == emitted
  {}

  /** With all defaults last, compiled functions do what their source says. */
  lemma DefaultsLastNeverDiffer(w: World, s: Stmt, env: Locals, fuel: nat)
    requires DefaultsLast(s)
    ensures !Exec(w, Both, s, env, [], fuel).Differs?
    ensures Exec(w, Source, s, env, [], fuel) == Exec(w, Emitted, s, env, [], fuel)
  {
    hide *;
    ModesAgree(w, s, env, [], fuel);
    AgreeMeans(DefaultsLast(s), Exec(w, Source, s, env, [], fuel), Exec(w, Emitted, s, env, [], fuel),
               Exec(w, Both, s, env, [], fuel));
  }

  // ----- the two ways to differ -----

  /** switch 1 { default: return 0; case e: return 7 } */
  function DefaultFirst(e: Expr): Stmt {
    Switch(None, Some(IntLit(1)), true,
           Clause([], Return(Some(IntLit(0))), false, Clause([e], Return(Some(IntLit(7))), false, NoClauses)))
  }

  /** What the source and the code give, when the case expression has the value n after the calls tr. */
  lemma DefaultFirstOutcomes(w: World, e: Expr, env: Locals, fuel: nat, n: int, tr: seq<nat>)
    requires Eval(w, e, env, []) == Fine(Int(n), tr)
    ensures Exec(w, Source, DefaultFirst(e), env, [], fuel) == Gave(Some(Int(if n == 1 then 7 else 0)), env, tr)
    ensures Exec(w, Emitted, DefaultFirst(e), env, [], fuel) == Gave(Some(Int(0)), env, [])
  {
    hide Default;
    var s := DefaultFirst(e);
    var second := s.clauses.next;
    assert TagValue(w, s.tag, env, []) == Fine(Int(1), []);
    assert SelectCase(w, [], true, Int(1), env, []) == Miss([]);
    assert SelectCase(w, second.cases[1..], true, Int(1), env, tr) == Miss(tr);
    assert SelectCase(w, second.cases, true, Int(1), env, []) == if n == 1 then Hit(tr) else Miss(tr);
    assert Choose(w, NoClauses, true, Int(1), env, tr) == Nothing(tr);
    assert Choose(w, s.clauses, true, Int(1), env, []) == Choose(w, second, true, Int(1), env, []);
    assert Default(s.clauses) == s.clauses by { DefaultIsFirst(s.clauses); }
    assert SourceChoice(w, s.clauses, true, Int(1), env, []) == Chosen(if n == 1 then second else s.clauses, tr);
    assert EmittedChoice(w, s.clauses, true, Int(1), env, []) == Chosen(s.clauses, []);
    GivesNumber(w, Source, if n == 1 then second else s.clauses, if n == 1 then 7 else 0, env, tr, fuel);
    GivesNumber(w, Emitted, s.clauses, 0, env, [], fuel);
    assert ExecClauses(w, Source, s.clauses, true, Int(1), env, [], fuel) ==
           Gave(Some(Int(if n == 1 then 7 else 0)), env, tr);
    assert ExecClauses(w, Emitted, s.clauses, true, Int(1), env, [], fuel) == Gave(Some(Int(0)), env, []);
  }

  lemma DefaultIsFirst(cs: Clauses)
    requires cs.Clause? && cs.cases == []
    ensures Default(cs) == cs
  {}

  lemma GivesNumber(w: World, m: Mode, cs: Clauses, n: int, env: Locals, tr: seq<nat>, fuel: nat)
    requires cs.Clause? && cs.body == Return(Some(IntLit(n))) && !cs.falls
    ensures RunClause(w, m, cs, env, tr, fuel) == Gave(Some(Int(n)), env, tr)
  {
    assert Eval(w, IntLit(n), env, tr) == Fine(Int(n), tr);
    assert Exec(w, m, cs.body, env, tr, fuel) == Gave(Some(Int(n)), env, tr);
  }

  lemma DefaultFirstIsLegal(e: Expr)
    ensures Legal(DefaultFirst(e), [])
  {
    var cs := DefaultFirst(e).clauses;
    assert LegalClauses(cs.next.next, [Frame(None, false)]);
    assert LegalClauses(cs.next, [Frame(None, false)]);
    assert [] + [Frame(None, false)] == [Frame(None, false)];
  }

  /** A default clause before a case that equals the tag is run instead of it. */
  lemma DefaultFirstGoesWrong(w: World, env: Locals, fuel: nat)
    ensures Legal(DefaultFirst(IntLit(1)), [])
    ensures Exec(w, Source, DefaultFirst(IntLit(1)), env, [], fuel) == Gave(Some(Int(7)), env, [])
    ensures var d := EmitBody(DefaultFirst(IntLit(1)));
            Reaches(w, d.prog, d.l, At(0, [], env, []), Conf.Returned([Int(0)], env, []))
  {
    DefaultFirstRuns(w, IntLit(1), env, fuel, 1, []);
  }

  /** And the calls of a case after the default are not made, even where the result is right. */
  lemma DefaultFirstSkipsCalls(w: World, f: nat, env: Locals, fuel: nat)
    requires w(f, []) == Int(2)
    ensures Legal(DefaultFirst(Call(f)), [])
    ensures Exec(w, Source, DefaultFirst(Call(f)), env, [], fuel) == Gave(Some(Int(0)), env, [f])
    ensures var d := EmitBody(DefaultFirst(Call(f)));
            Reaches(w, d.prog, d.l, At(0, [], env, []), Conf.Returned([Int(0)], env, []))
  {
    assert [] + [f] == [f];
    DefaultFirstRuns(w, Call(f), env, fuel, 2, [f]);
  }

  lemma DefaultFirstRuns(w: World, e: Expr, env: Locals, fuel: nat, n: int, tr: seq<nat>)
    requires Eval(w, e, env, []) == Fine(Int(n), tr)
    ensures Legal(DefaultFirst(e), [])
    ensures Exec(w, Source, DefaultFirst(e), env, [], fuel) == Gave(Some(Int(if n == 1 then 7 else 0)), env, tr)
    ensures var d := EmitBody(DefaultFirst(e));
            Reaches(w, d.prog, d.l, At(0, [], env, []), Conf.Returned([Int(0)], env, []))
  {
    hide Reaches, Exec, EmitBody, DefaultFirst, Eval;
    DefaultFirstIsLegal(e);
    DefaultFirstOutcomes(w, e, env, fuel, n, tr);
    FunctionRuns(w, DefaultFirst(e), env, fuel);
    assert Results(Some(Int(0))) == [Int(0)];
  }
}
