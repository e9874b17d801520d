/** The parallel multisignature check, under every scheduling of its workers (pkg/vm/vm.go). */
module Multisig {

  // ----- what the check is for -----

  /** Strictly increasing key positions within a..b, one for each signature from c on. */
  ghost predicate Assigns(ok: (nat, nat) -> bool, a: nat, b: nat, c: nat, d: nat, f: seq<nat>) {
    && c + |f| == d
    && (forall i :: 0 <= i < |f| ==> a <= f[i] < b && ok(f[i], c + i))
    && (forall i, j :: 0 <= i < j < |f| ==> f[i] < f[j])
  }

  /** Signatures c..d are matched by keys a..b in order. */
  ghost predicate Matches(ok: (nat, nat) -> bool, a: nat, b: nat, c: nat, d: nat) {
    exists f: seq<nat> :: Assigns(ok, a, b, c, d, f)
  }

  lemma Assigned(ok: (nat, nat) -> bool, a: nat, b: nat, c: nat, d: nat, f: seq<nat>)
    requires Assigns(ok, a, b, c, d, f)
    ensures Matches(ok, a, b, c, d)
  {}

  /** The first key either serves the first signature or can be left out. */
  lemma FirstKey(ok: (nat, nat) -> bool, a: nat, b: nat, c: nat, d: nat)
    requires a < b && c < d
    ensures Matches(ok, a, b, c, d) <==>
            if ok(a, c) then Matches(ok, a + 1, b, c + 1, d) else Matches(ok, a + 1, b, c, d)
  {
    if Matches(ok, a, b, c, d) {
      var f :| Assigns(ok, a, b, c, d, f);
      if ok(a, c) {
        forall i | 0 <= i < |f[1..]| ensures a + 1 <= f[1..][i] < b && ok(f[1..][i], c + 1 + i) {
          assert f[1..][i] == f[i + 1] && c + 1 + i == c + (i + 1) && f[0] < f[i + 1];
        }
        Assigned(ok, a + 1, b, c + 1, d, f[1..]);
      } else {
        assert c + 0 == c && ok(f[0], c + 0);
        Assigned(ok, a + 1, b, c, d, f);
      }
    }
    if ok(a, c) && Matches(ok, a + 1, b, c + 1, d) {
      var f :| Assigns(ok, a + 1, b, c + 1, d, f);
      var g := [a] + f;
      assert forall i :: 0 <= i < |g| ==> a <= g[i] < b && ok(g[i], c + i) by {
        forall i | 0 <= i < |g| ensures a <= g[i] < b && ok(g[i], c + i) {
          if i > 0 { assert g[i] == f[i - 1] && c + i == c + 1 + (i - 1); }
        }
      }
      Assigned(ok, a, b, c, d, g);
    }
    if !ok(a, c) && Matches(ok, a + 1, b, c, d) {
      var f :| Assigns(ok, a + 1, b, c, d, f);
      Assigned(ok, a, b, c, d, f);
    }
  }

  /** The same from the other end. */
  lemma LastKey(ok: (nat, nat) -> bool, a: nat, b: nat, c: nat, d: nat)
    requires a <= b && c <= d
    ensures Matches(ok, a, b + 1, c, d + 1) <==>
            if ok(b, d) then Matches(ok, a, b, c, d) else Matches(ok, a, b, c, d + 1)
  {
    if Matches(ok, a, b + 1, c, d + 1) {
      var f :| Assigns(ok, a, b + 1, c, d + 1, f);
      var last := |f| - 1;
      if ok(b, d) {
        forall i | 0 <= i < last ensures a <= f[..last][i] < b && ok(f[..last][i], c + i) {
          assert f[i] < f[last];
        }
        Assigned(ok, a, b, c, d, f[..last]);
      } else {
        assert ok(f[last], c + last);
        Assigned(ok, a, b, c, d + 1, f);
      }
    }
    if ok(b, d) && Matches(ok, a, b, c, d) {
      var f :| Assigns(ok, a, b, c, d, f);
      Assigned(ok, a, b + 1, c, d + 1, f + [b]);
    }
    if !ok(b, d) && Matches(ok, a, b, c, d + 1) {
      var f :| Assigns(ok, a, b, c, d + 1, f);
      Assigned(ok, a, b + 1, c, d + 1, f);
    }
  }

  /** More signatures than keys cannot be matched; no signatures always can. */
  lemma {:induction false} TooFewKeys(ok: (nat, nat) -> bool, a: nat, b: nat, c: nat, d: nat)
    requires a <= b && c <= d && b - a < d - c
    ensures !Matches(ok, a, b, c, d)
    decreases b - a
  {
    if a < b {
      FirstKey(ok, a, b, c, d);
      if ok(a, c) { TooFewKeys(ok, a + 1, b, c + 1, d); } else { TooFewKeys(ok, a + 1, b, c, d); }
    } else {
      forall f: seq<nat> ensures !Assigns(ok, a, b, c, d, f) { assert |f| > 0 ==> !(a <= f[0] < b); }
    }
  }

  lemma NoSignatures(ok: (nat, nat) -> bool, a: nat, b: nat, c: nat)
    ensures Matches(ok, a, b, c, c)
  {
    Assigned(ok, a, b, c, c, []);
  }

  /** The one-pass check of the reference protocol: each key in turn is tried on the next unmatched signature. */
  function SequentialCheck(ok: (nat, nat) -> bool, a: nat, b: nat, c: nat, d: nat): bool
    requires a <= b && c <= d
    decreases b - a
  {
    if c == d then true
    else if a == b then false
    else SequentialCheck(ok, a + 1, b, if ok(a, c) then c + 1 else c, d)
  }

  lemma {:induction false} SequentialCheckMatches(ok: (nat, nat) -> bool, a: nat, b: nat, c: nat, d: nat)
    requires a <= b && c <= d
    ensures SequentialCheck(ok, a, b, c, d) <==> Matches(ok, a, b, c, d)
    decreases b - a
  {
    if c == d {
      NoSignatures(ok, a, b, c);
    } else if a == b {
      TooFewKeys(ok, a, b, c, d);
    } else {
      FirstKey(ok, a, b, c, d);
      SequentialCheckMatches(ok, a + 1, b, if ok(a, c) then c + 1 else c, d);
    }
  }

  // ----- the parallel check -----

  const WORKER_COUNT := 3
  const TASK_CAPACITY := 2

  datatype Task = Task(key: nat, sig: nat)
  datatype Result = Result(ok: bool, sig: nat)

  function Outcome(ok: (nat, nat) -> bool, t: Task): Result { Result(ok(t.key, t.sig), t.sig) }

  function Results(ok: (nat, nat) -> bool, ts: seq<Task>): (rs: seq<Result>)
    ensures |rs| == |ts|
  {
    seq(|ts|, i requires 0 <= i < |ts| => Outcome(ok, ts[i]))
  }

  ghost function Outcomes(ok: (nat, nat) -> bool, ts: seq<Task>): (m: multiset<Result>)
    ensures |m| == |ts|
  {
    multiset(Results(ok, ts))
  }

  lemma OutcomesAppend(ok: (nat, nat) -> bool, ts: seq<Task>, us: seq<Task>)
    ensures Outcomes(ok, ts + us) == Outcomes(ok, ts) + Outcomes(ok, us)
  {
    assert Results(ok, ts + us) == Results(ok, ts) + Results(ok, us);
  }

  lemma OutcomesOne(ok: (nat, nat) -> bool, t: Task)
    ensures Outcomes(ok, [t]) == multiset{Outcome(ok, t)}
  {}

  /** Everything sent to the workers and not yet received back, as the results it will turn into. */
  ghost function Pending(ok: (nat, nat) -> bool, tasks: seq<Task>, busy: seq<Task>,
                         results: seq<Result>): (m: multiset<Result>)
    ensures |m| == |tasks| + |busy| + |results|
  {
    Outcomes(ok, tasks) + Outcomes(ok, busy) + multiset(results)
  }

  lemma {:induction false} TaskTaken(ok: (nat, nat) -> bool, tasks: seq<Task>, busy: seq<Task>, results: seq<Result>)
    requires tasks != []
    ensures Pending(ok, tasks[1..], busy + [tasks[0]], results) == Pending(ok, tasks, busy, results)
  {
    hide Outcomes;
    OutcomesAppend(ok, busy, [tasks[0]]);
    OutcomesAppend(ok, [tasks[0]], tasks[1..]);
    assert tasks == [tasks[0]] + tasks[1..];
  }

  lemma TaskFinished(ok: (nat, nat) -> bool, tasks: seq<Task>, busy: seq<Task>, results: seq<Result>, i: nat)
    requires i < |busy|
    ensures Pending(ok, tasks, busy[..i] + busy[i + 1..], results + [Outcome(ok, busy[i])]) ==
            Pending(ok, tasks, busy, results)
  {
    hide Outcome, Outcomes;
    var before, after, last := busy[..i], busy[i + 1..], [busy[i]];
    OutcomesAppend(ok, before, after);
    OutcomesAppend(ok, last, after);
    OutcomesAppend(ok, before, last + after);
    OutcomesOne(ok, busy[i]);
    assert busy == before + (last + after);
  }

  lemma TaskSent(ok: (nat, nat) -> bool, tasks: seq<Task>, busy: seq<Task>, results: seq<Result>, t: Task)
    ensures Pending(ok, tasks + [t], busy, results) == Pending(ok, tasks, busy, results) + multiset{Outcome(ok, t)}
  {
    hide Outcome, Outcomes;
    OutcomesAppend(ok, tasks, [t]);
    OutcomesOne(ok, t);
  }

  lemma ResultReceived(ok: (nat, nat) -> bool, tasks: seq<Task>, busy: seq<Task>, results: seq<Result>)
    requires results != []
    ensures Pending(ok, tasks, busy, results) == Pending(ok, tasks, busy, results[1..]) + multiset{results[0]}
  {
    assert results == [results[0]] + results[1..];
  }

  /** What the two ends still have to show: forward is trying key k1 on signature s1, backward k2 on s2. */
  ghost predicate Remaining(ok: (nat, nat) -> bool, k1: nat, k2: nat, s1: nat, s2: nat, forward: bool, backward: bool) {
    if forward && backward then Matches(ok, k1, k2 + 1, s1, s2 + 1)
    else if forward then Matches(ok, k1, k2, s1, s2)
    else if backward then Matches(ok, k1 + 1, k2 + 1, s1 + 1, s2 + 1)
    else true
  }

  ghost function Expected(ok: (nat, nat) -> bool, k1: nat, k2: nat, s1: nat, s2: nat, forward: bool,
                          backward: bool): multiset<Result> {
    (if forward then multiset{Outcome(ok, Task(k1, s1))} else multiset{})
    + (if backward then multiset{Outcome(ok, Task(k2, s2))} else multiset{})
  }

  /** How the main loop reacts to one result: stop with a verdict, wait for the other end, or send the next task. */
  datatype Reaction = Stop(verdict: bool) | Wait | Send(k1: nat, k2: nat, s1: nat, s2: nat, task: Task)

  function React(r: Result, k1: nat, k2: nat, s1: nat, s2: nat, taskCount: nat): Reaction {
    var forward := r.sig != s2;
    if k1 + 1 == k2 then
      if taskCount != 0 && r.ok && s1 + 1 == s2 then Wait else Stop(r.ok && s1 + 1 == s2)
    else if r.ok && s1 + 1 == s2 then
      if taskCount != 0 then Wait else Stop(true)
    else if forward then
      var s1' := if r.ok then s1 + 1 else s1;
      Send(k1 + 1, k2, s1', s2, Task(k1 + 1, s1'))
    else
      var s2' := if r.ok && s2 > 0 then s2 - 1 else s2;
      var k2' := if k2 > 0 then k2 - 1 else k2;
      Send(k1, k2', s1, s2', Task(k2', s2'))
  }

  /** Receiving the forward end's result. */
  lemma ForwardResult(ok: (nat, nat) -> bool, k1: nat, k2: nat, s1: nat, s2: nat, backward: bool)
    requires k1 < k2 && s1 < s2 && (!backward ==> s1 + 1 == s2)
    ensures match React(Outcome(ok, Task(k1, s1)), k1, k2, s1, s2, if backward then 1 else 0)
            case Stop(v) => v <==> Remaining(ok, k1, k2, s1, s2, true, backward)
            case Wait => backward && s1 + 1 == s2
                         && (Remaining(ok, k1, k2, s1, s2, true, backward) <==>
                             Remaining(ok, k1, k2, s1, s2, false, true))
            case Send(k1', k2', s1', s2', t) =>
              && k1' == k1 + 1 < k2' == k2 && s1 <= s1' < s2' == s2 && t == Task(k1', s1') && (!backward ==> s1' == s1)
              && (Remaining(ok, k1, k2, s1, s2, true, backward) <==> Remaining(ok, k1', k2', s1', s2', true, backward))
  {
    if backward {
      FirstKey(ok, k1, k2 + 1, s1, s2 + 1);
      if k1 + 1 == k2 {
        if ok(k1, s1) {
          if s1 + 1 < s2 { TooFewKeys(ok, k1 + 1, k2 + 1, s1 + 1, s2 + 1); }
        } else {
          TooFewKeys(ok, k1 + 1, k2 + 1, s1, s2 + 1);
        }
      }
    } else {
      FirstKey(ok, k1, k2, s1, s2);
      if ok(k1, s1) {
        NoSignatures(ok, k1 + 1, k2, s2);
      } else if k1 + 1 == k2 {
        TooFewKeys(ok, k2, k2, s1, s2);
      }
    }
  }

  /** Receiving the backward end's result. */
  lemma BackwardResult(ok: (nat, nat) -> bool, k1: nat, k2: nat, s1: nat, s2: nat, forward: bool)
    requires k1 < k2 && s1 < s2 && (!forward ==> s1 + 1 == s2)
    ensures match React(Outcome(ok, Task(k2, s2)), k1, k2, s1, s2, if forward then 1 else 0)
            case Stop(v) => v <==> Remaining(ok, k1, k2, s1, s2, forward, true)
            case Wait => forward && s1 + 1 == s2
                         && (Remaining(ok, k1, k2, s1, s2, forward, true) <==>
                             Remaining(ok, k1, k2, s1, s2, true, false))
            case Send(k1', k2', s1', s2', t) =>
              && k1' == k1 < k2' == k2 - 1 && s1' == s1 < s2' <= s2 && t == Task(k2', s2') && (!forward ==> s2' == s2)
              && (Remaining(ok, k1, k2, s1, s2, forward, true) <==> Remaining(ok, k1', k2', s1', s2', forward, true))
  {
    if forward {
      LastKey(ok, k1, k2, s1, s2);
      if k1 + 1 == k2 {
        if ok(k2, s2) {
          if s1 + 1 < s2 { TooFewKeys(ok, k1, k2, s1, s2); }
        } else {
          TooFewKeys(ok, k1, k2, s1, s2 + 1);
        }
      }
    } else {
      LastKey(ok, k1 + 1, k2, s2, s2);
      if ok(k2, s2) {
        NoSignatures(ok, k1 + 1, k2, s2);
      } else if k1 + 1 == k2 {
        TooFewKeys(ok, k2, k2, s2, s2 + 1);
      }
    }
  }

  /** Shared state of the main loop and its workers. */
  datatype Board = Board(k1: nat, k2: nat, s1: nat, s2: nat, tasks: seq<Task>, busy: seq<Task>, results: seq<Result>) {
    function InFlight(): nat { |tasks| + |busy| + |results| }
    /** Scheduling steps left before some result can be received. */
    function Work(): nat { 3 * |tasks| + 2 * |busy| + |results| }
    /** A worker takes the oldest task. */
    function Take(): (b: Board)
      requires tasks != []
      ensures b.Work() < Work() && b.InFlight() == InFlight() && b.k1 == k1 && b.k2 == k2
    {
      this.(tasks := tasks[1..], busy := busy + [tasks[0]])
    }
    /** Some busy worker delivers its result. */
    function Finish(ok: (nat, nat) -> bool, i: nat): (b: Board)
      requires i < |busy|
      ensures b.Work() < Work() && b.InFlight() == InFlight() && b.k1 == k1 && b.k2 == k2
    {
      this.(busy := busy[..i] + busy[i + 1..], results := results + [Outcome(ok, busy[i])])
    }
    /** The main loop takes the oldest result. */
    function Receive(): (b: Board)
      requires results != []
      ensures b.Work() < Work() && b.InFlight() == InFlight() - 1 && b.k1 == k1 && b.k2 == k2
    {
      this.(results := results[1..])
    }
    /** The main loop moves one end and sends it its next task. */
    function Next(r: Reaction): (b: Board)
      requires r.Send?
      ensures b.InFlight() == InFlight() + 1
    {
      Board(r.k1, r.k2, r.s1, r.s2, tasks + [r.task], busy, results)
    }
  }

  /** Exactly the tasks of the ends still at work are in flight, and those ends decide the answer. */
  ghost predicate Checking(ok: (nat, nat) -> bool, nkeys: nat, nsigs: nat, b: Board, forward: bool, backward: bool) {
    && b.k1 < b.k2 < nkeys && b.s1 < b.s2 < nsigs
    && (forward || backward) && (!forward || !backward ==> b.s1 + 1 == b.s2)
    && b.InFlight() == (if forward then 1 else 0) + (if backward then 1 else 0)
    && Pending(ok, b.tasks, b.busy, b.results) == Expected(ok, b.k1, b.k2, b.s1, b.s2, forward, backward)
    && (Remaining(ok, b.k1, b.k2, b.s1, b.s2, forward, backward) <==> Matches(ok, 0, nkeys, 0, nsigs))
  }

  lemma InitialBoard(ok: (nat, nat) -> bool, nkeys: nat, nsigs: nat)
    requires 2 <= nsigs <= nkeys
    ensures var t, u := Task(0, 0), Task(nkeys - 1, nsigs - 1);
            var b := Board(0, nkeys - 1, 0, nsigs - 1, [t, u], [], []);
            Checking(ok, nkeys, nsigs, b, true, true) && b.InFlight() == 2
  {
    hide Matches, Pending, Expected, Outcome;
    PendingAtFirst(ok, 0, nkeys - 1, 0, nsigs - 1);
  }

  lemma PendingAtFirst(ok: (nat, nat) -> bool, k1: nat, k2: nat, s1: nat, s2: nat)
    ensures Pending(ok, [Task(k1, s1), Task(k2, s2)], [], []) == Expected(ok, k1, k2, s1, s2, true, true)
  {
    hide Outcome, Outcomes;
    var t, u := Task(k1, s1), Task(k2, s2);
    OutcomesAppend(ok, [t], [u]);
    OutcomesOne(ok, t);
    OutcomesOne(ok, u);
    NoOutcomes(ok);
    assert [t] + [u] == [t, u];
  }

  lemma NoOutcomes(ok: (nat, nat) -> bool)
    ensures Outcomes(ok, []) == multiset{}
  {}

  /** The main loop receives a result. */
  lemma ReceiveKeeps(ok: (nat, nat) -> bool, nkeys: nat, nsigs: nat, b: Board, forward: bool, backward: bool)
    requires Checking(ok, nkeys, nsigs, b, forward, backward) && b.results != []
    ensures var r, b' := b.results[0], b.Receive();
            match React(r, b.k1, b.k2, b.s1, b.s2, b'.InFlight())
            case Stop(v) => v <==> Matches(ok, 0, nkeys, 0, nsigs)
            case Wait => Checking(ok, nkeys, nsigs, b', forward && r.sig == b.s2, backward && r.sig != b.s2)
            case Send(k1, k2, _, _, _) =>
              k1 < k2 && k2 - k1 < b.k2 - b.k1 && b'.InFlight() < TASK_CAPACITY
              && Checking(ok, nkeys, nsigs, b'.Next(React(r, b.k1, b.k2, b.s1, b.s2, b'.InFlight())), forward, backward)
  {
    hide Pending, Outcomes, Remaining, Matches, Expected, React, Outcome;
    var r, b' := b.results[0], b.Receive();
    ResultReceived(ok, b.tasks, b.busy, b.results);
    ReceivedIsExpected(ok, b.k1, b.k2, b.s1, b.s2, forward, backward, Pending(ok, b.tasks, b.busy, b'.results), r);
    if r.sig != b.s2 {
      ForwardResult(ok, b.k1, b.k2, b.s1, b.s2, backward);
    } else {
      BackwardResult(ok, b.k1, b.k2, b.s1, b.s2, forward);
    }
    var reaction := React(r, b.k1, b.k2, b.s1, b.s2, b'.InFlight());
    if reaction.Send? {
      TaskSent(ok, b.tasks, b.busy, b'.results, reaction.task);
      OtherEndUnmoved(ok, b.k1, b.k2, b.s1, b.s2, forward, backward, r.sig != b.s2, reaction);
    }
  }

  /** The next task joins the one that the other end still has in flight. */
  lemma OtherEndUnmoved(ok: (nat, nat) -> bool, k1: nat, k2: nat, s1: nat, s2: nat, forward: bool, backward: bool,
                        isForward: bool, n: Reaction)
    requires n.Send? && (if isForward then forward else backward)
    requires if isForward then n.k2 == k2 && n.s2 == s2 && n.task == Task(n.k1, n.s1)
             else n.k1 == k1 && n.s1 == s1 && n.task == Task(n.k2, n.s2)
    ensures Expected(ok, n.k1, n.k2, n.s1, n.s2, forward, backward) ==
            Expected(ok, k1, k2, s1, s2, forward && !isForward, backward && isForward) + multiset{Outcome(ok, n.task)}
  {}

  /**
   * The check as three workers and a main loop that communicate through bounded channels. Every enabled step may be
   * taken at any time; the loop always has one (no deadlock), a send never finds the task channel full, and no matter
   * in which order results arrive the answer is the same.
   */
  method CheckMultisigPar(ok: (nat, nat) -> bool, nkeys: nat, nsigs: nat) returns (sigok: bool)
    requires 1 <= nsigs <= nkeys
    ensures sigok <==> Matches(ok, 0, nkeys, 0, nsigs)
  {
    hide Checking, Matches, React, Outcome, Board.Take, Board.Finish, Board.Work,
      Board.InFlight;
    if nsigs == 1 {
      sigok := CheckMultisig1(ok, nkeys);
      return;
    }
    var b := Board(0, nkeys - 1, 0, nsigs - 1, [Task(0, 0), Task(nkeys - 1, nsigs - 1)], [], []);
    var taskCount := 2;
    var running := true;
    ghost var forward, backward := true, true;
    InitialBoard(ok, nkeys, nsigs);
    sigok := true;
    while running
      invariant running ==> Checking(ok, nkeys, nsigs, b, forward, backward)
      invariant running ==> taskCount == b.InFlight()
      invariant !running ==> (sigok <==> Matches(ok, 0, nkeys, 0, nsigs))
      decreases running, if b.k1 < b.k2 then b.k2 - b.k1 else 0, b.Work()
    {
      CheckingBounds(ok, nkeys, nsigs, b, forward, backward);
      if
      case |b.tasks| > 0 && |b.busy| < WORKER_COUNT =>
        TakeKeeps(ok, nkeys, nsigs, b, forward, backward);
        b := b.Take();
      case |b.busy| > 0 && |b.results| < nsigs =>
        var i :| 0 <= i < |b.busy|;
        FinishKeeps(ok, nkeys, nsigs, b, forward, backward, i);
        b := b.Finish(ok, i);
      case |b.results| > 0 =>
        ReceiveKeeps(ok, nkeys, nsigs, b, forward, backward);
        var r := b.results[0];
        b := b.Receive();
        taskCount := taskCount - 1;
        var reaction := React(r, b.k1, b.k2, b.s1, b.s2, taskCount);
        if reaction.Stop? {
          sigok, running := reaction.verdict, false;
        } else if reaction.Wait? {
          forward, backward := forward && r.sig == b.s2, backward && r.sig != b.s2;
        } else {
          b := b.Next(reaction);
          taskCount := taskCount + 1;
        }
    }
  }

  lemma CheckingBounds(ok: (nat, nat) -> bool, nkeys: nat, nsigs: nat, b: Board, forward: bool, backward: bool)
    requires Checking(ok, nkeys, nsigs, b, forward, backward)
    ensures b.k1 < b.k2 && |b.busy| <= TASK_CAPACITY && |b.tasks| + |b.busy| + |b.results| > 0
    ensures |b.busy| > 0 ==> |b.results| < nsigs
  {}

  lemma TakeKeeps(ok: (nat, nat) -> bool, nkeys: nat, nsigs: nat, b: Board, forward: bool, backward: bool)
    requires Checking(ok, nkeys, nsigs, b, forward, backward) && b.tasks != []
    ensures Checking(ok, nkeys, nsigs, b.Take(), forward, backward)
  {
    hide Pending, Expected, Remaining, Matches;
    TaskTaken(ok, b.tasks, b.busy, b.results);
  }

  lemma FinishKeeps(ok: (nat, nat) -> bool, nkeys: nat, nsigs: nat, b: Board, forward: bool, backward: bool, i: nat)
    requires Checking(ok, nkeys, nsigs, b, forward, backward) && i < |b.busy|
    ensures Checking(ok, nkeys, nsigs, b.Finish(ok, i), forward, backward)
  {
    hide Pending, Expected, Remaining, Matches;
    TaskFinished(ok, b.tasks, b.busy, b.results, i);
  }

  /** The sequential case of a single signature. */
  method CheckMultisig1(ok: (nat, nat) -> bool, nkeys: nat) returns (sigok: bool)
    ensures sigok <==> Matches(ok, 0, nkeys, 0, 1)
  {
    for i := 0 to nkeys
      invariant Matches(ok, 0, nkeys, 0, 1) <==> Matches(ok, i, nkeys, 0, 1)
    {
      FirstKey(ok, i, nkeys, 0, 1);
      if ok(i, 0) {
        NoSignatures(ok, i + 1, nkeys, 1);
        return true;
      }
    }
    TooFewKeys(ok, nkeys, nkeys, 0, 1);
    return false;
  }

  /** The result received is the one of the end that its signature number names. */
  lemma ReceivedIsExpected(ok: (nat, nat) -> bool, k1: nat, k2: nat, s1: nat, s2: nat, forward: bool, backward: bool,
                           rest: multiset<Result>, r: Result)
    requires s1 < s2 && rest + multiset{r} == Expected(ok, k1, k2, s1, s2, forward, backward)
    ensures if r.sig == s2 then backward && r == Outcome(ok, Task(k2, s2))
            else forward && r == Outcome(ok, Task(k1, s1))
    ensures rest == if r.sig == s2 then Expected(ok, k1, k2, s1, s2, forward, false)
                    else Expected(ok, k1, k2, s1, s2, false, backward)
  {
    var e := Expected(ok, k1, k2, s1, s2, forward, backward);
    assert r in e;
    assert rest == e - multiset{r};
  }
}
