/**
 * The code generator as the object it is: a visitor that appends to its program and its label table
 * (pkg/compiler/codegen.go).
 */
module Codegen {
  import opened Common
  import opened StackCode
  import opened ExprLowering
  import opened Statements
  import opened StmtLowering
  import opened StmtContext

  datatype LabelKind = StartLabel | EndLabel | PostLabel

  /** An entry of the list of open constructs. */
  datatype StackLabel = StackLabel(name: Name, sz: nat)

  function Entries(scopes: seq<Scope>): (es: seq<StackLabel>)
    ensures |es| == |scopes|
    ensures forall i :: 0 <= i < |scopes| ==> es[i] == StackLabel(scopes[i].name, scopes[i].size)
  {
    seq(|scopes|, i requires 0 <= i < |scopes| => StackLabel(scopes[i].name, scopes[i].size))
  }

  type NamedLabels = map<(Name, LabelKind), nat>

  /** The label table knows the exits of every open construct. */
  ghost predicate LabelsKnown(labels: NamedLabels, scopes: seq<Scope>) {
    forall i :: 0 <= i < |scopes| ==>
      && (scopes[i].name, EndLabel) in labels && labels[(scopes[i].name, EndLabel)] == scopes[i].end
      && (scopes[i].frame.loop ==>
            (scopes[i].name, PostLabel) in labels && labels[(scopes[i].name, PostLabel)] == scopes[i].post)
  }

  /** Names of constructs opened later differ from those that are open. */
  ghost predicate NewName(name: Name, scopes: seq<Scope>) { forall i :: 0 <= i < |scopes| ==> scopes[i].name != name }

  lemma GeneratedIsNew(x: Context, lbl: Option<nat>, c: Code, n: nat)
    requires ContextOk(x, n) && n <= |c.l| && FreshLabel(lbl, Frames(x.scopes))
    ensures NewName(GenerateName(lbl, c), x.scopes)
  {
    forall i | 0 <= i < |x.scopes| ensures x.scopes[i].name != GenerateName(lbl, c) {
      assert ScopeOk(x.scopes[i], n);
      assert Frames(x.scopes)[i] == x.scopes[i].frame;
    }
  }

  lemma EntriesInside(scopes: seq<Scope>, sc: Scope)
    ensures Entries(scopes + [sc]) == Entries(scopes) + [StackLabel(sc.name, sc.size)]
  {}

  class Generator {
    var prog: seq<Instr>
    var l: seq<int>
    var labels: NamedLabels
    var labelList: seq<StackLabel>
    var currentFor: Name
    var currentSwitch: Name
    var nextLabel: Option<nat>

    function Written(): Code
      reads this
    {
      Code(prog, l)
    }

    /** The generator is inside the constructs of x. */
    ghost predicate Within(x: Context)
      reads this
    {
      && labelList == Entries(x.scopes) && currentFor == x.currentFor && currentSwitch == x.currentSwitch
      && nextLabel == None && LabelsKnown(labels, x.scopes)
    }

    constructor ()
      ensures Written() == Code([], []) && Within(Context([], Unnamed, Unnamed))
    {
      prog, l, labels, labelList := [], [], map[], [];
      currentFor, currentSwitch, nextLabel := Unnamed, Unnamed, None;
    }

    method Emit(i: Instr)
      modifies this`prog
      ensures Written() == old(Op(Written(), i))
    {
      prog := prog + [i];
    }

    method EmitAll(code: seq<Instr>)
      modifies this`prog
      ensures Written() == old(Ops(Written(), code))
    {
      prog := prog + code;
    }

    method NewLabel() returns (lab: nat)
      modifies this`l
      ensures lab == old(|l|) && Written() == old(StackCode.NewLabel(Written()))
    {
      lab := |l|;
      l := l + [-1];
    }

    method SetLabel(lab: nat)
      requires lab < |l|
      modifies this`l
      ensures Written() == old(StackCode.SetLabel(Written(), lab))
    {
      l := l[lab := |prog|];
    }

    method EmitBool(b: bool)
      modifies this`prog
      ensures Written() == old(PushBool(Written(), b))
    {
      EmitAll([Push(if b then 1 else 0), ToBool]);
    }

    // ----- expressions -----

    method EmitJumpOnCondition(cond: bool, lab: nat)
      modifies this`prog
      ensures Written() == old(ExprLowering.EmitJumpOnCondition(cond, lab, Written()))
    {
      Emit(Jump(if cond then IfTrue else IfFalse, lab));
    }

    method WalkExpr(e: Expr)
      modifies this`prog, this`l
      ensures Written() == old(Walk(e, Written()))
      decreases e, 1
    {
      hide EmitBinaryExpr;
      match e
      case Nil => Emit(PushNull);
      case IntLit(n) => Emit(Push(n));
      case BoolLit(b) => EmitBool(b);
      case Var(x) => Emit(Load(x));
      case Call(f) => Emit(Perform(f));
      case Negated(e') =>
        WalkExpr(e');
        Emit(Not);
      case Parens(e') => WalkExpr(e');
      case _ => WriteBinaryExpr(e, false, false, 0);
    }

    method WriteBoolExpr(e: Expr, needJump: bool, cond: bool, lab: nat)
      modifies this`prog, this`l
      ensures Written() == old(EmitBoolExpr(e, needJump, cond, lab, Written()))
      decreases e, 2
    {
      hide EmitBinaryExpr, Walk;
      if IsBinary(e) {
        WriteBinaryExpr(e, needJump, cond, lab);
      } else {
        WalkExpr(e);
        if needJump {
          EmitJumpOnCondition(cond, lab);
        }
      }
    }

    method WriteBinaryExpr(e: Expr, needJump: bool, cond: bool, lab: nat)
      requires IsBinary(e)
      modifies this`prog, this`l
      ensures Written() == old(EmitBinaryExpr(e, needJump, cond, lab, Written()))
      decreases e, 0
    {
      hide Walk, EmitShortCircuit;
      match e
      case NilTest(equal, e') =>
        WalkExpr(e');
        Emit(IsNull);
        if needJump {
          EmitJumpOnCondition(cond == equal, lab);
        } else if !equal {
          Emit(Not);
        }
      case And(x, y) => WriteShortCircuit(false, e, x, y, needJump, cond, lab);
      case Or(x, y) => WriteShortCircuit(true, e, x, y, needJump, cond, lab);
      case Numeric(r, x, y) =>
        WalkExpr(x);
        WalkExpr(y);
        if needJump {
          Emit(Jump(Compared(if cond then r else NegateRelation(r)), lab));
        } else {
          Emit(Test(r));
        }
      case BoolEqual(negated, x, y) =>
        WalkExpr(x);
        WalkExpr(y);
        Emit(Same(negated));
        if needJump {
          EmitJumpOnCondition(cond, lab);
        }
      case Binary(a, x, y) =>
        WalkExpr(x);
        WalkExpr(y);
        Emit(Arith(a));
        if needJump {
          EmitJumpOnCondition(cond, lab);
        }
    }

    method WriteShortCircuit(condShort: bool, ghost e: Expr, x: Expr, y: Expr, needJump: bool, cond: bool, lab: nat)
      requires x < e && y < e
      modifies this`prog, this`l
      ensures Written() == old(EmitShortCircuit(condShort, e, x, y, needJump, cond, lab, Written()))
      decreases e, 0, 0
    {
      hide EmitShortCircuit;
      if needJump {
        WriteShortJump(condShort, e, x, y, cond, lab);
      } else {
        WriteShortValue(condShort, e, x, y, cond, lab);
      }
    }

    method WriteShortJump(condShort: bool, ghost e: Expr, x: Expr, y: Expr, cond: bool, lab: nat)
      requires x < e && y < e
      modifies this`prog, this`l
      ensures Written() == old(EmitShortCircuit(condShort, e, x, y, true, cond, lab, Written()))
      decreases e, 0, 0, 0
    {
      hide EmitBoolExpr, Extends;
      var end := NewLabel();
      ghost var c0 := Written();
      var target := end;
      if cond == condShort {
        target := lab;
      }
      WriteBoolExpr(x, true, condShort, target);
      ghost var c1 := Written();
      Sizes(c0, c1);
      WriteBoolExpr(y, true, cond, lab);
      Sizes(c1, Written());
      SetLabel(end);
    }

    method WriteShortValue(condShort: bool, ghost e: Expr, x: Expr, y: Expr, cond: bool, lab: nat)
      requires x < e && y < e
      modifies this`prog, this`l
      ensures Written() == old(EmitShortCircuit(condShort, e, x, y, false, cond, lab, Written()))
      decreases e, 0, 0, 0
    {
      hide EmitBoolExpr, Extends;
      var end := NewLabel();
      var push := NewLabel();
      ghost var c1 := Written();
      WriteBoolExpr(x, true, condShort, push);
      ghost var c2 := Written();
      Sizes(c1, c2);
      WriteBoolExpr(y, false, false, 0);
      Sizes(c2, Written());
      Emit(Jump(Always, end));
      SetLabel(push);
      EmitBool(condShort);
      SetLabel(end);
    }

    // ----- labels and temporaries -----

    method NewNamedLabel(kind: LabelKind, name: Name) returns (lab: nat)
      modifies this`l, this`labels
      ensures lab == old(|l|) && Written() == old(StackCode.NewLabel(Written()))
      ensures labels == old(labels)[(name, kind) := lab]
    {
      lab := NewLabel();
      labels := labels[(name, kind) := lab];
    }

    method GenerateLabel(kind: LabelKind) returns (lab: nat, name: Name)
      modifies this`l, this`labels, this`nextLabel
      ensures lab == old(|l|) && Written() == old(StackCode.NewLabel(Written()))
      ensures name == old(GenerateName(nextLabel, Written())) && nextLabel == None
      ensures labels == old(labels)[(name, kind) := lab]
    {
      name := if nextLabel.Some? then User(nextLabel.value) else Auto(|l|);
      nextLabel := None;
      lab := NewNamedLabel(kind, name);
    }

    method PushStackLabel(name: Name, sz: nat)
      modifies this`labelList
      ensures labelList == old(labelList) + [StackLabel(name, sz)]
    {
      labelList := labelList + [StackLabel(name, sz)];
    }

    method WriteDrops(n: nat)
      modifies this`prog
      ensures Written() == old(DropItems(n, Written()))
    {
      if n < 4 {
        ghost var start := prog;
        for i := 0 to n
          invariant prog == start + Repeat(Drop, i)
        {
          Emit(Drop);
        }
        return;
      }
      EmitAll([Push(n), Pack, Drop]);
    }

    method DropStackLabel()
      requires labelList != []
      modifies this`prog, this`labelList
      ensures Written() == old(DropItems(labelList[|labelList| - 1].sz, Written()))
      ensures labelList == old(labelList[..|labelList| - 1])
    {
      var last := |labelList| - 1;
      WriteDrops(labelList[last].sz);
      labelList := labelList[..last];
    }

    // ----- exits -----

    /** Adds up the temporaries of the constructs above the one with the given name. */
    method CountAbove(name: Name, ghost scopes: seq<Scope>) returns (cnt: nat)
      requires labelList == Entries(scopes)
      ensures cnt == Above(scopes, Named(scopes, name))
    {
      cnt := 0;
      var i := |labelList| - 1;
      assert scopes[..|scopes|] == scopes;
      while i >= 0 && labelList[i].name != name
        invariant -1 <= i < |labelList|
        invariant Named(scopes, name) == Named(scopes[..i + 1], name)
        invariant Above(scopes, Named(scopes, name)) == cnt + Above(scopes[..i + 1], Named(scopes, name))
      {
        assert scopes[..i + 1][..i] == scopes[..i];
        cnt := cnt + labelList[i].sz;
        i := i - 1;
      }
    }

    method CountAll(ghost scopes: seq<Scope>) returns (cnt: nat)
      requires labelList == Entries(scopes)
      ensures cnt == Above(scopes, -1)
    {
      cnt := 0;
      for i := 0 to |labelList|
        invariant cnt == Above(scopes[..i], -1)
      {
        assert scopes[..i + 1][..i] == scopes[..i];
        cnt := cnt + labelList[i].sz;
      }
      assert scopes[..|scopes|] == scopes;
    }

    method VisitBranch(name: Option<nat>, brk: bool, ghost x: Context)
      requires Within(x) && ContextOk(x, |l|) && Target(Frames(x.scopes), name, brk) >= 0
      modifies this`prog
      ensures Written() == old(EmitBranch(name, brk, x, Written()))
    {
      hide Above, Frames, ContextOk, Target, DropItems, Named;
      var nm := if name.Some? then User(name.value) else if brk then currentSwitch else currentFor;
      TargetIsNamed(x, |l|, name, brk);
      ghost var t := Named(x.scopes, nm);
      var cnt := CountAbove(nm, x.scopes);
      WriteDrops(cnt);
      assert Frames(x.scopes)[t] == x.scopes[t].frame;
      if brk {
        Emit(Jump(Always, labels[(nm, EndLabel)]));
      } else {
        Emit(Jump(Always, labels[(nm, PostLabel)]));
      }
    }

    method VisitReturn(result: Option<Expr>, ghost x: Context)
      requires Within(x)
      modifies this`prog, this`l
      ensures Written() == old(EmitStmt(Return(result), x, Written()))
    {
      hide Walk, DropItems, Above;
      var lab := NewLabel();
      SetLabel(lab);
      var cnt := CountAll(x.scopes);
      WriteDrops(cnt);
      if result.Some? {
        WalkExpr(result.value);
      }
      Emit(Ret);
    }

    // ----- statements -----

    method VisitSimple(s: Stmt, ghost x: Context)
      requires Simple(s)
      modifies this`prog, this`l
      ensures Written() == old(EmitStmt(s, x, Written()))
    {
      hide Walk;
      match s
      case Skip =>
      case Assign(v, e) =>
        WalkExpr(e);
        Emit(Store(v));
      case IncDec(v, up) => EmitAll([Load(v), if up then Inc else Dec, Store(v)]);
      case Invoke(f) => EmitAll([Perform(f), Drop]);
    }

    /** Visiting a statement appends exactly its code and leaves the generator's context as it was. */
    method Visit(s: Stmt, ghost x: Context)
      requires Within(x) && ContextOk(x, |l|) && Legal(s, Frames(x.scopes))
      modifies this
      ensures Written() == old(EmitStmt(s, x, Written())) && Within(x)
      decreases s, 2
    {
      hide ContextOk, Frames, Walk, EmitIf, EmitFor, EmitRange, EmitSwitch, EmitBranch, Target, LabelsKnown, Entries;
      match s
      case Seq(a, b) =>
        ghost var n := |l|;
        Visit(a, x);
        ContextGrows(x, n, |l|);
        Visit(b, x);
      case If(_, _, _, _) => VisitIf(s, x);
      case For(_, _, _, _, _) => VisitFor(s, x);
      case Range(_, _, _, _, _) => VisitRange(s, x);
      case Switch(_, _, _, _) => VisitSwitch(s, x);
      case Break(name) => VisitBranch(name, true, x);
      case Continue(name) => VisitBranch(name, false, x);
      case Return(result) => VisitReturn(result, x);
      case _ => VisitSimple(s, x);
    }

    method VisitIf(s: Stmt, ghost x: Context)
      requires s.If? && Within(x) && ContextOk(x, |l|) && Legal(s, Frames(x.scopes))
      modifies this
      ensures Written() == old(EmitIf(s, x, Written())) && Within(x)
      decreases s, 1
    {
      hide ContextOk, Frames, EmitStmt, EmitBoolExpr, LabelsKnown, Entries, Extends;
      ghost var n := |l|;
      var lIf := NewLabel();
      var lElse := NewLabel();
      var lElseEnd := NewLabel();
      ghost var c0 := Written();
      ThreeLabels(old(Written()));
      VisitSimple(s.init, x);
      ghost var c1 := Written();
      Sizes(c0, c1);
      WriteBoolExpr(s.cond, true, false, lElse);
      ghost var c2 := Written();
      Sizes(c1, c2);
      SetLabel(lIf);
      ContextGrows(x, n, |l|);
      ghost var c2' := Written();
      Visit(s.body, x);
      ghost var c3 := Written();
      Sizes(c2', c3);
      if s.otherwise.Some? {
        Emit(Jump(Always, lElseEnd));
      }
      SetLabel(lElse);
      if s.otherwise.Some? {
        ghost var c4 := Written();
        ContextGrows(x, n, |l|);
        Visit(s.otherwise.value, x);
        Sizes(c4, Written());
      }
      SetLabel(lElseEnd);
    }

    /** Enters a loop: its labels and its names. */
    method EnterLoop(lbl: Option<nat>, ghost size: nat, ghost x: Context)
      returns (start: nat, end: nat, post: nat, name: Name)
      requires Within(x) && ContextOk(x, |l|) && FreshLabel(lbl, Frames(x.scopes))
      modifies this
      ensures Written() == old(NewLabels(Written(), 3)) && start == old(|l|) && end == start + 1 && post == start + 2
      ensures name == old(GenerateName(lbl, Written())) && currentFor == name && currentSwitch == name
      ensures labelList == old(labelList) && nextLabel == None && LabelsKnown(labels, x.scopes)
      ensures LabelsKnown(labels, x.scopes + [LoopScope(lbl, size, old(Written()))])
    {
      hide ContextOk, Frames, Entries, NewLabels;
      GeneratedIsNew(x, lbl, Written(), |l|);
      ThreeLabels(Written());
      ghost var was := labels;
      ghost var sc := LoopScope(lbl, size, Written());
      nextLabel := lbl;
      start, name := GenerateLabel(StartLabel);
      end := NewNamedLabel(EndLabel, name);
      post := NewNamedLabel(PostLabel, name);
      currentFor, currentSwitch := name, name;
      KnownInside(was, labels, x.scopes, sc);
    }

    method WriteGuard(guard: Option<Expr>, end: nat)
      modifies this`prog, this`l
      ensures Written() == old(EmitGuard(guard, end, Written()))
    {
      if guard.Some? {
        WalkExpr(guard.value);
        Emit(Jump(IfFalse, end));
      }
    }

    method VisitFor(s: Stmt, ghost x: Context)
      requires s.For? && Within(x) && ContextOk(x, |l|) && Legal(s, Frames(x.scopes))
      modifies this
      ensures Written() == old(EmitFor(s, x, Written())) && Within(x)
      decreases s, 1
    {
      hide ContextOk, Frames, EmitStmt, EmitGuard, LabelsKnown, Entries, Extends, NewLabels, DropItems;
      ghost var c := Written();
      ghost var sc := LoopScope(s.lbl, 0, c);
      ghost var y := Inside(x, sc);
      var lastFor, lastSwitch := currentFor, currentSwitch;
      var start, end, post, name := EnterLoop(s.lbl, 0, x);
      ghost var c0 := Written();
      VisitSimple(s.init, x.(currentFor := sc.name, currentSwitch := sc.name));
      Sizes(c0, Written());
      PushStackLabel(name, 0);
      SetLabel(start);
      ghost var c1 := Written();
      WriteGuard(s.guard, end);
      ghost var g := Written();
      Sizes(c1, g);
      EntriesInside(x.scopes, sc);
      LoopInside(x, s.lbl, 0, c, |l|);
      Visit(s.body, y);
      ghost var b := Written();
      Sizes(g, b);
      SetLabel(post);
      ghost var b' := Written();
      VisitSimple(s.post, y);
      Sizes(b', Written());
      Emit(Jump(Always, start));
      SetLabel(end);
      DropStackLabel();
      KnownOutside(labels, x.scopes, sc);
      assert labelList == Entries(x.scopes);
      currentFor, currentSwitch := lastFor, lastSwitch;
    }

    method WriteBindings(key: Option<nat>, val: Option<nat>)
      modifies this`prog
      ensures Written() == old(EmitValue(val, EmitKey(key, Written())))
    {
      if key.Some? {
        EmitAll([Dup, Store(key.value)]);
      }
      if val.Some? {
        EmitAll([Push(2), Pick, Over, PickItem, Store(val.value)]);
      }
    }

    method VisitRange(s: Stmt, ghost x: Context)
      requires s.Range? && Within(x) && ContextOk(x, |l|) && Legal(s, Frames(x.scopes))
      modifies this
      ensures Written() == old(EmitRange(s, x, Written())) && Within(x)
      decreases s, 1
    {
      hide ContextOk, Frames, EmitStmt, Walk, LabelsKnown, Entries, Extends, NewLabels, DropItems, EmitKey, EmitValue;
      ghost var c := Written();
      ghost var sc := LoopScope(s.lbl, 3, c);
      ghost var y := Inside(x, sc);
      var lastFor, lastSwitch := currentFor, currentSwitch;
      var start, end, post, name := EnterLoop(s.lbl, 3, x);
      ghost var c0 := Written();
      WalkExpr(s.over);
      Sizes(c0, Written());
      EmitAll([Dup, Size, Push(0)]);
      PushStackLabel(name, 3);
      SetLabel(start);
      EmitAll([Over, Over, Jump(Compared(Le), end)]);
      ghost var t := Written();
      WriteBindings(s.key, s.val);
      ghost var g := Written();
      BindingsExtend(s.key, s.val, t);
      Sizes(t, g);
      EntriesInside(x.scopes, sc);
      LoopInside(x, s.lbl, 3, c, |l|);
      Visit(s.body, y);
      Sizes(g, Written());
      SetLabel(post);
      EmitAll([Inc, Jump(Always, start)]);
      SetLabel(end);
      DropStackLabel();
      KnownOutside(labels, x.scopes, sc);
      assert labelList == Entries(x.scopes);
      currentFor, currentSwitch := lastFor, lastSwitch;
    }

    /** The comparisons of one clause. */
    method WriteCases(cases: seq<Expr>, lStart: nat, lEnd: nat, numeric: bool)
      modifies this`prog, this`l
      ensures Written() == old(EmitCases(cases, lStart, lEnd, EqualOp(numeric), Written()))
    {
      hide Walk;
      for j := 0 to |cases|
        invariant EmitCases(cases[j..], lStart, lEnd, EqualOp(numeric), Written()) ==
                  old(EmitCases(cases, lStart, lEnd, EqualOp(numeric), Written()))
      {
        assert cases[j..][1..] == cases[j + 1..];
        Emit(Dup);
        WalkExpr(cases[j]);
        Emit(EqualOp(numeric));
        if j == |cases| - 1 {
          Emit(Jump(IfFalse, lEnd));
        } else {
          Emit(Jump(IfTrue, lStart));
        }
      }
    }

    /** One clause: its comparisons, its body and the jumps after it. */
    method VisitClause(cs: Clauses, lStart: nat, end: nat, numeric: bool, ghost y: Context)
      requires cs.Clause? && lStart + Count(cs) <= |l|
      requires Within(y) && ContextOk(y, |l|) && LegalClauses(cs, Frames(y.scopes))
      modifies this
      ensures lStart + Count(cs) <= |l| && old(|l|) <= |l|
      ensures EmitClauses(cs.next, lStart + 1, end, EqualOp(numeric), y, Written()) ==
              old(EmitClauses(cs, lStart, end, EqualOp(numeric), y, Written()))
      ensures Within(y)
      decreases cs, 0
    {
      hide ContextOk, Frames, EmitStmt, LabelsKnown, Entries, Extends, EmitCases, Places;
      ghost var n := |l|;
      var lEnd := NewLabel();
      ghost var c0 := Written();
      WriteCases(cs.cases, lStart, lEnd, numeric);
      Sizes(c0, Written());
      SetLabel(lStart);
      ghost var a := Written();
      ContextGrows(y, n, |l|);
      Visit(cs.body, y);
      Sizes(a, Written());
      if cs.falls {
        Emit(Jump(Always, lStart + 1));
      }
      Emit(Jump(Always, end));
      SetLabel(lEnd);
    }

    method VisitClauses(clauses: Clauses, first: nat, end: nat, numeric: bool, ghost y: Context)
      requires first + Count(clauses) <= |l|
      requires Within(y) && ContextOk(y, |l|) && LegalClauses(clauses, Frames(y.scopes))
      modifies this
      ensures Written() == old(EmitClauses(clauses, first, end, EqualOp(numeric), y, Written())) && Within(y)
      decreases clauses, 1
    {
      hide ContextOk, Frames, LabelsKnown, Entries, EmitClauses;
      ghost var n := |l|;
      var cs: Clauses, i: nat := clauses, first;
      while cs.Clause?
        invariant i + Count(cs) <= |l| && n <= |l| && LegalClauses(cs, Frames(y.scopes)) && Within(y)
        invariant cs == clauses || cs < clauses
        invariant EmitClauses(cs, i, end, EqualOp(numeric), y, Written()) ==
                  old(EmitClauses(clauses, first, end, EqualOp(numeric), y, Written()))
        decreases cs
      {
        ContextGrows(y, n, |l|);
        VisitClause(cs, i, end, numeric, y);
        cs, i := cs.next, i + 1;
      }
      NoMoreClauses(i, end, EqualOp(numeric), y, Written());
    }

    /** Start labels for all clauses. */
    method NewStartLabels(n: nat)
      modifies this`l
      ensures Written() == old(NewLabels(Written(), n))
    {
      for i := 0 to n
        invariant prog == old(prog) && NewLabels(Written(), n - i) == old(NewLabels(Written(), n))
      {
        var _ := NewLabel();
      }
    }

    method WriteTag(tag: Option<Expr>)
      modifies this`prog, this`l
      ensures Written() == old(EmitTag(tag, Written()))
    {
      if tag.Some? {
        WalkExpr(tag.value);
      } else {
        EmitBool(true);
      }
    }

    /** Enters a switch: its end label and its name. */
    method EnterSwitch(lbl: Option<nat>, ghost n: nat, ghost x: Context) returns (end: nat, name: Name)
      requires Within(x) && ContextOk(x, n) && n <= |l| && FreshLabel(lbl, Frames(x.scopes))
      modifies this
      ensures Written() == old(StackCode.NewLabel(Written())) && end == old(|l|) &&
              name == old(GenerateName(lbl, Written()))
      ensures currentFor == old(currentFor) && currentSwitch == name && labelList == old(labelList) && nextLabel == None
      ensures LabelsKnown(labels, x.scopes + [SwitchScope(lbl, old(Written()))])
    {
      hide ContextOk, Frames, Entries;
      GeneratedIsNew(x, lbl, Written(), n);
      ghost var was := labels;
      ghost var sc := SwitchScope(lbl, Written());
      nextLabel := lbl;
      end, name := GenerateLabel(EndLabel);
      currentSwitch := name;
      KnownInside(was, labels, x.scopes, sc);
    }

    method VisitSwitch(s: Stmt, ghost x: Context)
      requires s.Switch? && Within(x) && ContextOk(x, |l|) && Legal(s, Frames(x.scopes))
      modifies this
      ensures Written() == old(EmitSwitch(s, x, Written())) && Within(x)
      decreases s, 1
    {
      hide ContextOk, Frames, EmitTag, LabelsKnown, Entries, Extends, NewLabels, DropItems, EmitClauses, Places, Count;
      ghost var c := Written();
      WriteTag(s.tag);
      ghost var c1 := Written();
      Sizes(c, c1);
      ghost var sc := SwitchScope(s.lbl, c1);
      ghost var y := Inside(x, sc);
      var lastSwitch := currentSwitch;
      var end, name := EnterSwitch(s.lbl, |c.l|, x);
      PushStackLabel(name, 1);
      NewStartLabels(Count(s.clauses));
      ghost var c2 := Written();
      EntriesInside(x.scopes, sc);
      SwitchInside(x, s.lbl, c, c1, |l|);
      VisitClauses(s.clauses, end + 1, end, s.numeric, y);
      PlacesSizes(c2, Written(), end + 1, end + 1 + Count(s.clauses));
      SetLabel(end);
      DropStackLabel();
      KnownOutside(labels, x.scopes, sc);
      assert labelList == Entries(x.scopes);
      currentSwitch := lastSwitch;
    }

    /** A whole function body. */
    method ConvertFunc(s: Stmt)
      requires Legal(s, []) && Written() == Code([], []) && Within(Context([], Unnamed, Unnamed))
      modifies this
      ensures Written() == EmitBody(s)
    {
      hide EmitStmt;
      ghost var x := Context([], Unnamed, Unnamed);
      assert Frames(x.scopes) == [] && Target([], None, false) == -1;
      Visit(s, x);
      if !LastIsReturn(s) {
        Emit(Ret);
      }
    }
  }

  lemma NoMoreClauses(lStart: nat, end: nat, eq: Instr, y: Context, c: Code)
    requires lStart <= |c.l|
    ensures EmitClauses(NoClauses, lStart, end, eq, y, c) == c
  {}

  lemma ThreeLabels(c: Code)
    ensures NewLabels(c, 3) == NewLabel(NewLabel(NewLabel(c)))
  {
    assert NewLabels(NewLabel(NewLabel(NewLabel(c))), 0) == NewLabel(NewLabel(NewLabel(c)));
    assert NewLabels(NewLabel(NewLabel(c)), 1) == NewLabel(NewLabel(NewLabel(c)));
    assert NewLabels(NewLabel(c), 2) == NewLabel(NewLabel(NewLabel(c)));
  }

  /** New entries for a new name leave those of the open constructs alone. */
  lemma KnownInside(was: NamedLabels, now: NamedLabels, scopes: seq<Scope>, sc: Scope)
    requires LabelsKnown(was, scopes) && NewName(sc.name, scopes)
    requires forall k: (Name, LabelKind) :: k.0 != sc.name && k in was ==> k in now && now[k] == was[k]
    requires (sc.name, EndLabel) in now && now[(sc.name, EndLabel)] == sc.end
    requires sc.frame.loop ==> (sc.name, PostLabel) in now && now[(sc.name, PostLabel)] == sc.post
    ensures LabelsKnown(now, scopes) && LabelsKnown(now, scopes + [sc])
  {
    forall i | 0 <= i < |scopes|
      ensures && (scopes[i].name, EndLabel) in now && now[(scopes[i].name, EndLabel)] == scopes[i].end
              && (scopes[i].frame.loop ==>
                    (scopes[i].name, PostLabel) in now && now[(scopes[i].name, PostLabel)] == scopes[i].post)
    {
      assert scopes[i].name != sc.name;
    }
  }

  lemma KnownOutside(labels: NamedLabels, scopes: seq<Scope>, sc: Scope)
    requires LabelsKnown(labels, scopes + [sc])
    ensures LabelsKnown(labels, scopes)
  {
    forall i | 0 <= i < |scopes|
      ensures && (scopes[i].name, EndLabel) in labels && labels[(scopes[i].name, EndLabel)] == scopes[i].end
              && (scopes[i].frame.loop ==>
                    (scopes[i].name, PostLabel) in labels && labels[(scopes[i].name, PostLabel)] == scopes[i].post)
    {
      assert (scopes + [sc])[i] == scopes[i];
    }
  }
}
