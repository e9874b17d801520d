/** Block witnesses: how consensus builds them, how verification accepts them, and why two of them overlap. */
module Quorum {
  import opened Common
  import opened Multisig

  /** Byte strings and public keys as opaque identifiers; keys are ordered by their coordinates. */
  type Bytes = int
  type Key = int

  datatype Item = Number(n: int) | Blob(bytes: Bytes) | Items(items: seq<Item>) | Truth(b: bool) | Other

  // ----- taking keys and signatures off the stack (pkg/vm/stack.go) -----

  datatype Popped = Elements(elems: seq<Bytes>) | Refused

  /** Byte strings of a list, if they all are. */
  function AllBytes(items: seq<Item>): (r: Popped)
    ensures r.Elements? ==> |r.elems| == |items|
  {
    if items == [] then Elements([])
    else if !items[0].Blob? then Refused
    else
      match AllBytes(items[1..])
      case Refused => Refused
      case Elements(rest) => Elements([items[0].bytes] + rest)
  }

  function Reversed<T>(s: seq<T>): (r: seq<T>)
    ensures |r| == |s| && forall i :: 0 <= i < |s| ==> r[i] == s[|s| - 1 - i]
  {
    if s == [] then [] else Reversed(s[1..]) + [s[0]]
  }

  /** The elements on top of a stack, topmost first, or the contents of one array; and how many items that takes. */
  function PopSpec(s: seq<Item>): (r: (Popped, nat))
    ensures r.1 <= |s| && (r.0.Elements? ==> |r.0.elems| > 0)
  {
    if s == [] then (Refused, 0)
    else
      var top, rest := s[|s| - 1], s[..|s| - 1];
      match top
      case Items(items) => (if items == [] then Refused else AllBytes(items), 1)
      case Number(n) =>
        if 1 <= n <= |rest| then (AllBytes(Reversed(rest[|rest| - n..])), 1 + n) else (Refused, 1)
      case _ => (Refused, 1)
  }

  /** What is left of the stack. */
  function AfterPop(s: seq<Item>): seq<Item> { s[..|s| - PopSpec(s).1] }

  class EvaluationStack {
    var elems: seq<Item>

    constructor (s: seq<Item>)
      ensures elems == s
    {
      elems := s;
    }

    method Pop() returns (e: Item)
      requires elems != []
      modifies this
      ensures e == old(elems)[|old(elems)| - 1] && elems == old(elems)[..|old(elems)| - 1]
    {
      var l := |elems|;
      e := elems[l - 1];
      elems := elems[..l - 1];
    }

    method Push(e: Item)
      modifies this
      ensures elems == old(elems) + [e]
    {
      elems := elems + [e];
    }

    method PopSigElements() returns (r: Popped)
      modifies this
      ensures r == PopSpec(old(elems)).0
      ensures r.Elements? ==> elems == AfterPop(old(elems))
    {
      if |elems| == 0 { return Refused; }
      ghost var s := elems;
      var item := Pop();
      match item
      case Items(items) =>
        if |items| < 1 { return Refused; }
        return AllBytes(items);
      case Number(num) =>
        if num < 1 || num > |elems| { return Refused; }
        ghost var rest := elems;
        var taken: seq<Item> := [];
        var i := 0;
        while i < num
          invariant 0 <= i <= num && elems == rest[..|rest| - i]
          invariant |taken| == i && forall k :: 0 <= k < i ==> taken[k] == rest[|rest| - 1 - k]
        {
          var e := Pop();
          taken := taken + [e];
          i := i + 1;
        }
        assert taken == Reversed(rest[|rest| - num..]);
        return AllBytes(taken);
      case _ => return Refused;
    }
  }

  // ----- the check multisignature system call (pkg/core/interop/crypto/ecdsa.go) -----

  datatype Verification = Accepts | Rejects | Faults

  /** Which key position serves which signature position. */
  function PairCheck(verify: (Key, Bytes) -> bool, keys: seq<Key>, sigs: seq<Bytes>): (nat, nat) -> bool {
    (k: nat, s: nat) => k < |keys| && s < |sigs| && verify(keys[k], sigs[s])
  }

  ghost predicate InOrder(verify: (Key, Bytes) -> bool, keys: seq<Key>, sigs: seq<Bytes>) {
    Matches(PairCheck(verify, keys, sigs), 0, |keys|, 0, |sigs|)
  }

  /** Result of the system call on a stack. */
  ghost function Verdict(verify: (Key, Bytes) -> bool, s: seq<Item>): Verification {
    var (keys, _) := PopSpec(s);
    if keys.Refused? then Faults
    else
      var (sigs, _) := PopSpec(AfterPop(s));
      if sigs.Refused? || |keys.elems| < |sigs.elems| then Faults
      else if InOrder(verify, keys.elems, sigs.elems) then Accepts
      else Rejects
  }

  method CheckMultisig(stack: EvaluationStack, verify: (Key, Bytes) -> bool) returns (v: Verification)
    modifies stack
    ensures v == Verdict(verify, old(stack.elems))
    ensures !v.Faults? ==> stack.elems == AfterPop(AfterPop(old(stack.elems))) + [Truth(v.Accepts?)]
  {
    var keys := stack.PopSigElements();
    if keys.Refused? { return Faults; }
    var sigs := stack.PopSigElements();
    if sigs.Refused? { return Faults; }
    if |keys.elems| < |sigs.elems| { return Faults; }
    var ok := CheckMultisigPar(PairCheck(verify, keys.elems, sigs.elems), |keys.elems|, |sigs.elems|);
    stack.Push(Truth(ok));
    return if ok then Accepts else Rejects;
  }

  // ----- a verification script's stack -----

  function Blobs(bs: seq<Bytes>): (r: seq<Item>)
    ensures |r| == |bs| && forall i :: 0 <= i < |bs| ==> r[i] == Blob(bs[i])
  {
    seq(|bs|, i requires 0 <= i < |bs| => Blob(bs[i]))
  }

  lemma {:induction false} AllBytesOfBlobs(items: seq<Item>, bs: seq<Bytes>)
    requires |items| == |bs| && forall i :: 0 <= i < |bs| ==> items[i] == Blob(bs[i])
    ensures AllBytes(items) == Elements(bs)
  {
    if bs != [] {
      AllBytesOfBlobs(items[1..], bs[1..]);
      assert bs == [bs[0]] + bs[1..];
    }
  }

  lemma ReversedBlobs(bs: seq<Bytes>)
    ensures AllBytes(Reversed(Blobs(bs))) == Elements(Reversed(bs))
  {
    AllBytesOfBlobs(Reversed(Blobs(bs)), Reversed(bs));
  }

  lemma PopNumber(rest: seq<Item>, n: nat)
    requires 1 <= n <= |rest|
    ensures PopSpec(rest + [Number(n)]) == (AllBytes(Reversed(rest[|rest| - n..])), 1 + n)
  {}

  /** A count on top of that many byte strings gives them back, last pushed first. */
  lemma {:induction false} PopCounted(below: seq<Item>, bs: seq<Bytes>)
    requires bs != []
    ensures PopSpec(below + Blobs(bs) + [Number(|bs|)]) == (Elements(Reversed(bs)), |bs| + 1)
  {
    hide PopSpec, AllBytes, Blobs, Reversed;
    ReversedBlobs(bs);
    PopAbove(below, Blobs(bs));
  }

  lemma PopAbove(below: seq<Item>, top: seq<Item>)
    requires top != []
    ensures PopSpec(below + top + [Number(|top|)]) == (AllBytes(Reversed(top)), |top| + 1)
  {
    hide PopSpec, AllBytes, Reversed;
    PopNumber(below + top, |top|);
    SuffixOfAppend(below, top);
  }

  /** Stack when an m-out-of-n script issues the system call: what the invocation left, m, the keys, n. */
  function ScriptStack(invocation: seq<Item>, m: nat, keys: seq<Key>): seq<Item> {
    invocation + [Number(m)] + Blobs(keys) + [Number(|keys|)]
  }

  lemma KeysBelow(below: seq<Item>, blobs: seq<Item>, count: Item)
    ensures (below + blobs + [count])[..|below|] == below
  {}

  lemma {:induction false} ScriptVerdict(verify: (Key, Bytes) -> bool, invocation: seq<Item>, m: nat, keys: seq<Key>)
    requires keys != []
    ensures var (sigs, _) := PopSpec(invocation + [Number(m)]);
            Verdict(verify, ScriptStack(invocation, m, keys)) ==
            if sigs.Refused? || |keys| < |sigs.elems| then Faults
            else if InOrder(verify, Reversed(keys), sigs.elems) then Accepts else Rejects
  {
    hide PopSpec, InOrder, Blobs, Reversed;
    var s := ScriptStack(invocation, m, keys);
    PopCounted(invocation + [Number(m)], keys);
    KeysBelow(invocation + [Number(m)], Blobs(keys), Number(|keys|));
  }

  lemma PopsExactly(invocation: seq<Item>, m: nat)
    requires PopSpec(invocation + [Number(m)]).0.Elements?
    ensures |PopSpec(invocation + [Number(m)]).0.elems| == m
  {}

  // ----- what acceptance proves -----

  function ToSet<T>(s: seq<T>): set<T> { set x | x in s }

  predicate Distinct<T(==)>(s: seq<T>) { forall i, j :: 0 <= i < j < |s| ==> s[i] != s[j] }

  /** Keys at the assigned positions. */
  function KeysAt(keys: seq<Key>, f: seq<nat>): set<Key>
    requires forall i :: 0 <= i < |f| ==> f[i] < |keys|
  {
    set i | 0 <= i < |f| :: keys[f[i]]
  }

  lemma {:induction false} KeysAtSize(keys: seq<Key>, f: seq<nat>)
    requires Distinct(keys) && forall i :: 0 <= i < |f| ==> f[i] < |keys|
    requires forall i, j :: 0 <= i < j < |f| ==> f[i] < f[j]
    ensures |KeysAt(keys, f)| == |f|
  {
    if f != [] {
      var g := f[..|f| - 1];
      KeysAtSize(keys, g);
      var last := keys[f[|f| - 1]];
      assert KeysAt(keys, f) == KeysAt(keys, g) + {last};
      assert last !in KeysAt(keys, g);
    }
  }

  /** These keys have each signed: some signature verifies under it. */
  ghost predicate Signed(verify: (Key, Bytes) -> bool, signers: set<Key>, sigs: seq<Bytes>) {
    forall k :: k in signers ==> exists i :: 0 <= i < |sigs| && verify(k, sigs[i])
  }

  lemma InOrderHasSigners(verify: (Key, Bytes) -> bool, keys: seq<Key>, sigs: seq<Bytes>) returns (signers: set<Key>)
    requires Distinct(keys) && InOrder(verify, keys, sigs)
    ensures signers <= ToSet(keys) && |signers| == |sigs| && Signed(verify, signers, sigs)
  {
    var f :| Assigns(PairCheck(verify, keys, sigs), 0, |keys|, 0, |sigs|, f);
    KeysAtSize(keys, f);
    signers := KeysAt(keys, f);
    forall k | k in signers ensures exists i :: 0 <= i < |sigs| && verify(k, sigs[i]) {
      var i :| 0 <= i < |f| && keys[f[i]] == k;
      assert PairCheck(verify, keys, sigs)(f[i], 0 + i);
    }
  }

  lemma ReversedDistinct<T>(s: seq<T>)
    requires Distinct(s)
    ensures Distinct(Reversed(s)) && ToSet(Reversed(s)) == ToSet(s)
  {
    forall x | x in s ensures x in Reversed(s) {
      var i :| 0 <= i < |s| && s[i] == x;
      assert Reversed(s)[|s| - 1 - i] == x;
    }
    forall x | x in Reversed(s) ensures x in s {
      var i :| 0 <= i < |s| && Reversed(s)[i] == x;
      assert s[|s| - 1 - i] == x;
    }
  }

  /** Whatever the invocation script pushed, an accepting m-out-of-n script saw signatures of m different keys. */
  lemma AcceptedHasSigners(verify: (Key, Bytes) -> bool, invocation: seq<Item>, m: nat, keys: seq<Key>)
    returns (signers: set<Key>)
    requires Distinct(keys) && keys != []
    requires Verdict(verify, ScriptStack(invocation, m, keys)) == Accepts
    ensures signers <= ToSet(keys) && |signers| == m
    ensures PopSpec(invocation + [Number(m)]).0.Elements?
    ensures Signed(verify, signers, PopSpec(invocation + [Number(m)]).0.elems)
  {
    ScriptVerdict(verify, invocation, m, keys);
    PopsExactly(invocation, m);
    ReversedDistinct(keys);
    signers := InOrderHasSigners(verify, Reversed(keys), PopSpec(invocation + [Number(m)]).0.elems);
  }

  // ----- overlap of quorums (pkg/smartcontract/contract.go) -----

  function GetDefaultHonestNodeCount(n: nat): (m: nat)
    ensures n > 0 ==> 0 < m <= n
    ensures n > 0 ==> 2 * m >= n + (n - 1) / 3 + 1
  {
    if n == 0 then 0 else n - (n - 1) / 3
  }

  lemma {:induction false} SetOfDistinct<T>(s: seq<T>)
    requires Distinct(s)
    ensures |ToSet(s)| == |s|
  {
    hide Distinct, ToSet;
    if s == [] {
      NothingInSet<T>();
    } else {
      LastIsNew(s);
      SetOfDistinct(s[..|s| - 1]);
    }
  }

  lemma NothingInSet<T>()
    ensures ToSet<T>([]) == {}
  {}

  lemma LastIsNew<T>(s: seq<T>)
    requires s != [] && Distinct(s)
    ensures var t, x := s[..|s| - 1], s[|s| - 1];
            Distinct(t) && ToSet(s) == ToSet(t) + {x} && x !in ToSet(t)
  {}

  /**
   * Two witnesses that the default script over n validators accepts, even for different blocks and with different
   * signature predicates, have at least (n - 1) / 3 + 1 signers in common.
   */
  lemma WitnessesOverlap(verify1: (Key, Bytes) -> bool, verify2: (Key, Bytes) -> bool,
                         invocation1: seq<Item>, invocation2: seq<Item>, keys: seq<Key>)
    returns (signers1: set<Key>, signers2: set<Key>)
    requires Distinct(keys) && keys != []
    requires Verdict(verify1, ScriptStack(invocation1, GetDefaultHonestNodeCount(|keys|), keys)) == Accepts
    requires Verdict(verify2, ScriptStack(invocation2, GetDefaultHonestNodeCount(|keys|), keys)) == Accepts
    ensures var m := GetDefaultHonestNodeCount(|keys|);
            && PopSpec(invocation1 + [Number(m)]).0.Elements? && PopSpec(invocation2 + [Number(m)]).0.Elements?
            && Signed(verify1, signers1, PopSpec(invocation1 + [Number(m)]).0.elems)
            && Signed(verify2, signers2, PopSpec(invocation2 + [Number(m)]).0.elems)
    ensures |signers1 * signers2| >= (|keys| - 1) / 3 + 1
  {
    signers1 := AcceptedHasSigners(verify1, invocation1, GetDefaultHonestNodeCount(|keys|), keys);
    signers2 := AcceptedHasSigners(verify2, invocation2, GetDefaultHonestNodeCount(|keys|), keys);
    SubsetSize(signers1 + signers2, ToSet(keys));
    SetOfDistinct(keys);
  }

  // ----- building a witness (pkg/consensus/consensus.go) -----

  datatype Commit = NoCommit | Commit(view: nat, signature: Bytes)

  predicate Sorted(s: seq<Key>) { forall i, j :: 0 <= i < j < |s| ==> s[i] <= s[j] }

  function Insert(s: seq<Key>, x: Key): (r: seq<Key>)
    requires Sorted(s)
    ensures Sorted(r) && multiset(r) == multiset(s) + multiset{x}
  {
    if s == [] then [x]
    else if x <= s[0] then PrependSorted(x, s); [x] + s
    else
      var rest := Insert(s[1..], x);
      assert s == [s[0]] + s[1..];
      InsertedAbove(s[0], s[1..], x, rest);
      PrependSorted(s[0], rest);
      [s[0]] + rest
  }

  lemma PrependSorted(x: Key, s: seq<Key>)
    requires Sorted(s) && (s == [] || forall i :: 0 <= i < |s| ==> x <= s[i])
    ensures Sorted([x] + s)
  {}

  lemma InsertedAbove(low: Key, s: seq<Key>, x: Key, r: seq<Key>)
    requires Sorted([low] + s) && low <= x && multiset(r) == multiset(s) + multiset{x}
    ensures forall i :: 0 <= i < |r| ==> low <= r[i]
  {
    forall j | 0 <= j < |r| ensures low <= r[j] {
      var y := r[j];
      assert y in multiset(r);
      if y != x {
        assert y in multiset(s);
        var i :| 0 <= i < |s| && s[i] == y;
        assert ([low] + s)[0] == low && ([low] + s)[i + 1] == y;
      }
    }
  }

  /** The library sort of the key list. */
  function SortKeys(s: seq<Key>): (r: seq<Key>)
    ensures Sorted(r) && multiset(r) == multiset(s)
  {
    if s == [] then []
    else
      assert s == [s[0]] + s[1..];
      Insert(SortKeys(s[1..]), s[0])
  }

  /** Signatures of the keys that have one, in key order, no more than m of them. */
  function Chosen(keys: seq<Key>, sigs: map<Key, Bytes>, m: nat): seq<Bytes> {
    if keys == [] || m == 0 then []
    else if keys[0] in sigs then [sigs[keys[0]]] + Chosen(keys[1..], sigs, m - 1)
    else Chosen(keys[1..], sigs, m)
  }

  /** Validators with a commit for the current view. */
  function CurrentSigners(validators: seq<Key>, commits: seq<Commit>, view: nat): set<Key>
    requires |commits| == |validators|
  {
    set i | 0 <= i < |validators| && commits[i].Commit? && commits[i].view == view :: validators[i]
  }

  datatype Witness = NoWitness | Witness(signatures: seq<Bytes>, m: nat, keys: seq<Key>)

  /** Signatures of the current view's commits, by signer. */
  ghost predicate Collected(validators: seq<Key>, commits: seq<Commit>, view: nat, sigs: map<Key, Bytes>)
    requires |commits| == |validators|
  {
    && sigs.Keys == CurrentSigners(validators, commits, view)
    && forall i :: 0 <= i < |validators| && commits[i].Commit? && commits[i].view == view ==>
         sigs[validators[i]] == commits[i].signature
  }

  /** The signature map after the first n validators. */
  function SignatureMap(validators: seq<Key>, commits: seq<Commit>, view: nat, n: nat): map<Key, Bytes>
    requires n <= |commits| == |validators|
  {
    if n == 0 then map[]
    else
      var sigs := SignatureMap(validators, commits, view, n - 1);
      if commits[n - 1].Commit? && commits[n - 1].view == view
      then sigs[validators[n - 1] := commits[n - 1].signature] else sigs
  }

  method CollectSignatures(validators: seq<Key>, commits: seq<Commit>, view: nat) returns (sigs: map<Key, Bytes>)
    requires |commits| == |validators|
    ensures sigs == SignatureMap(validators, commits, view, |validators|)
    ensures Distinct(validators) ==> Collected(validators, commits, view, sigs)
  {
    sigs := map[];
    var i := 0;
    while i < |validators|
      invariant 0 <= i <= |validators| && sigs == SignatureMap(validators, commits, view, i)
    {
      if commits[i].Commit? && commits[i].view == view {
        sigs := sigs[validators[i] := commits[i].signature];
      }
      i := i + 1;
    }
    if Distinct(validators) {
      MapCollects(validators, commits, view, |validators|);
      assert validators[..|validators|] == validators && commits[..|validators|] == commits;
    }
  }

  method EmitSignatures(pubs: seq<Key>, sigs: map<Key, Bytes>, m: nat) returns (buf: seq<Bytes>)
    ensures buf == Chosen(pubs, sigs, m)
  {
    buf := [];
    var i, j := 0, 0;
    while i < |pubs| && j < m
      invariant 0 <= i <= |pubs| && 0 <= j <= m
      invariant buf + Chosen(pubs[i..], sigs, m - j) == Chosen(pubs, sigs, m)
    {
      assert pubs[i..][1..] == pubs[i + 1..];
      if pubs[i] in sigs {
        buf := buf + [sigs[pubs[i]]];
        j := j + 1;
      }
      i := i + 1;
    }
  }

  /** The default number of signatures, in sorted key order, and the script for that number and the sorted keys. */
  function WitnessOf(validators: seq<Key>, commits: seq<Commit>, view: nat): Witness
    requires |commits| == |validators|
  {
    var m, keys := GetDefaultHonestNodeCount(|validators|), SortKeys(validators);
    if m < 1 || m > 1024 then NoWitness
    else Witness(Chosen(keys, SignatureMap(validators, commits, view, |validators|), m), m, keys)
  }

  method GetBlockWitness(validators: seq<Key>, commits: seq<Commit>, view: nat) returns (w: Witness)
    requires |commits| == |validators|
    ensures w == WitnessOf(validators, commits, view)
  {
    var sigs := CollectSignatures(validators, commits, view);
    var m := GetDefaultHonestNodeCount(|validators|);
    if m < 1 || m > |validators| || m > 1024 { return NoWitness; }
    var pubs := SortKeys(validators);
    var buf := EmitSignatures(pubs, sigs, m);
    w := Witness(buf, m, pubs);
  }

  // ----- a built witness is accepted -----

  /** Keys at these positions have these signatures. */
  predicate Positions(keys: seq<Key>, sigs: map<Key, Bytes>, chosen: seq<Bytes>, f: seq<nat>) {
    && |f| == |chosen|
    && (forall i :: 0 <= i < |f| ==> f[i] < |keys| && keys[f[i]] in sigs && sigs[keys[f[i]]] == chosen[i])
    && (forall i, j :: 0 <= i < j < |f| ==> f[i] < f[j])
  }

  lemma Shifted(keys: seq<Key>, sigs: map<Key, Bytes>, rest: seq<Bytes>, g: seq<nat>, taken: bool) returns (f: seq<nat>)
    requires keys != [] && Positions(keys[1..], sigs, rest, g) && (taken ==> keys[0] in sigs)
    ensures Positions(keys, sigs, if taken then [sigs[keys[0]]] + rest else rest, f)
  {
    var shifted: seq<nat> := seq(|g|, i requires 0 <= i < |g| => g[i] + 1);
    forall i | 0 <= i < |g| ensures shifted[i] < |keys| && keys[shifted[i]] == keys[1..][g[i]] {}
    assert Positions(keys, sigs, rest, shifted);
    f := if taken then [0] + shifted else shifted;
  }

  /** Positions of the keys whose signatures were chosen. */
  lemma {:induction false} ChosenPositions(keys: seq<Key>, sigs: map<Key, Bytes>, m: nat) returns (f: seq<nat>)
    ensures Positions(keys, sigs, Chosen(keys, sigs, m), f)
  {
    if keys == [] || m == 0 {
      f := [];
    } else {
      var rest := if keys[0] in sigs then Chosen(keys[1..], sigs, m - 1) else Chosen(keys[1..], sigs, m);
      var g := ChosenPositions(keys[1..], sigs, if keys[0] in sigs then m - 1 else m);
      f := Shifted(keys, sigs, rest, g, keys[0] in sigs);
    }
  }

  lemma {:induction false} ChosenLength(keys: seq<Key>, sigs: map<Key, Bytes>, m: nat)
    requires Distinct(keys)
    ensures var have := |ToSet(keys) * sigs.Keys|;
            |Chosen(keys, sigs, m)| == if have < m then have else m
  {
    if keys != [] {
      hide Distinct, ToSet;
      var rest := keys[1..];
      FirstIsNew(keys, sigs.Keys);
      if keys[0] in sigs {
        if m > 0 { ChosenLength(rest, sigs, m - 1); }
      } else {
        ChosenLength(rest, sigs, m);
      }
    }
  }

  lemma FirstIsNew(keys: seq<Key>, have: set<Key>)
    requires keys != [] && Distinct(keys)
    ensures Distinct(keys[1..])
    ensures |ToSet(keys) * have| == |ToSet(keys[1..]) * have| + if keys[0] in have then 1 else 0
  {
    hide Distinct, ToSet;
    TailIsDistinct(keys);
    SetOfTail(keys);
    var a, b, x := ToSet(keys) * have, ToSet(keys[1..]) * have, keys[0];
    if x in have {
      assert a == {x} + b && x !in b;
    } else {
      assert a == b;
    }
  }

  lemma TailIsDistinct(keys: seq<Key>)
    requires keys != [] && Distinct(keys)
    ensures Distinct(keys[1..]) && keys[0] !in ToSet(keys[1..])
  {}

  lemma SetOfTail(keys: seq<Key>)
    requires keys != []
    ensures ToSet(keys) == {keys[0]} + ToSet(keys[1..])
  {}

  /** Signatures listed in key order match the keys in order, also when both are read from the end. */
  lemma ChosenInOrder(verify: (Key, Bytes) -> bool, keys: seq<Key>, sigs: map<Key, Bytes>, m: nat)
    requires forall k :: k in sigs ==> verify(k, sigs[k])
    ensures InOrder(verify, Reversed(keys), Reversed(Chosen(keys, sigs, m)))
  {
    var f := ChosenPositions(keys, sigs, m);
    var c, n := |f|, |keys|;
    var g: seq<nat> := seq(c, i requires 0 <= i < c => n - 1 - f[c - 1 - i]);
    var ks, ss := Reversed(keys), Reversed(Chosen(keys, sigs, m));
    forall i | 0 <= i < c ensures 0 <= g[i] < n && PairCheck(verify, ks, ss)(g[i], 0 + i) {
      assert ks[g[i]] == keys[f[c - 1 - i]];
    }
    assert Assigns(PairCheck(verify, ks, ss), 0, n, 0, c, g);
  }

  lemma PermutedDistinct(s: seq<Key>, t: seq<Key>)
    requires Distinct(s) && multiset(s) == multiset(t)
    ensures Distinct(t) && ToSet(t) == ToSet(s) && |t| == |s|
  {
    assert |multiset(s)| == |s| && |multiset(t)| == |t|;
    forall x | x in s || x in t ensures x in s && x in t {
      assert multiset(s)[x] > 0 <==> multiset(t)[x] > 0;
    }
    forall i, j | 0 <= i < j < |t| ensures t[i] != t[j] {
      OccursOnce(s, t[i]);
      if t[i] == t[j] { OccursTwice(t, i, j); }
    }
  }

  lemma OccursTwice(t: seq<Key>, i: nat, j: nat)
    requires i < j < |t| && t[i] == t[j]
    ensures multiset(t)[t[i]] >= 2
  {
    assert t == t[..j] + [t[j]] + t[j + 1..];
    assert t[..j][i] == t[i] && t[i] in t[..j];
  }

  lemma {:induction false} OccursOnce(s: seq<Key>, x: Key)
    requires Distinct(s)
    ensures multiset(s)[x] <= 1
  {
    if s != [] {
      OccursOnce(s[..|s| - 1], x);
      assert s == s[..|s| - 1] + [s[|s| - 1]];
      if s[|s| - 1] == x {
        assert x !in s[..|s| - 1];
        assert x !in multiset(s[..|s| - 1]);
      }
    }
  }

  /** Signatures of the current view among the first n validators. */
  lemma {:induction false} MapCollects(validators: seq<Key>, commits: seq<Commit>, view: nat, n: nat)
    requires n <= |commits| == |validators| && Distinct(validators)
    ensures Collected(validators[..n], commits[..n], view, SignatureMap(validators, commits, view, n))
  {
    if n > 0 {
      MapCollects(validators, commits, view, n - 1);
      var v, c := validators[..n], commits[..n];
      assert v[..n - 1] == validators[..n - 1] && c[..n - 1] == commits[..n - 1];
      OneMoreSigner(v, c, view, SignatureMap(validators, commits, view, n - 1));
    }
  }

  lemma OneMoreSigner(v: seq<Key>, c: seq<Commit>, view: nat, sigs: map<Key, Bytes>)
    requires |c| == |v| > 0 && Distinct(v) && Collected(v[..|v| - 1], c[..|v| - 1], view, sigs)
    ensures var n := |v| - 1;
            Collected(v, c, view, if c[n].Commit? && c[n].view == view then sigs[v[n] := c[n].signature] else sigs)
  {
    var n := |v| - 1;
    assert v[..n] + [v[n]] == v && c[..n] + [c[n]] == c;
    assert CurrentSigners(v, c, view) ==
           CurrentSigners(v[..n], c[..n], view) + if c[n].Commit? && c[n].view == view then {v[n]} else {};
  }

  /**
   * If the commits of the current view are valid, the witness built from them passes the check exactly when there are
   * enough of them; and one is built unless the committee needs more signatures than a script can ask for.
   */
  lemma BuiltWitnessAccepted(verify: (Key, Bytes) -> bool, validators: seq<Key>, commits: seq<Commit>, view: nat)
    requires |commits| == |validators| && Distinct(validators) && validators != []
    requires forall i :: 0 <= i < |validators| && commits[i].Commit? && commits[i].view == view ==>
               verify(validators[i], commits[i].signature)
    ensures var m, w := GetDefaultHonestNodeCount(|validators|), WitnessOf(validators, commits, view);
            && (w.Witness? <==> m <= 1024)
            && (w.Witness? ==>
                  (Verdict(verify, ScriptStack(Blobs(w.signatures), w.m, w.keys)) == Accepts <==>
                   |CurrentSigners(validators, commits, view)| >= m))
  {
    hide Verdict, InOrder, SignatureMap, Chosen, Distinct;
    var m, keys := GetDefaultHonestNodeCount(|validators|), SortKeys(validators);
    var sigs := SignatureMap(validators, commits, view, |validators|);
    MapCollects(validators, commits, view, |validators|);
    assert validators[..|validators|] == validators && commits[..|validators|] == commits;
    PermutedDistinct(validators, keys);
    assert ToSet(keys) * sigs.Keys == sigs.Keys;
    ChosenLength(keys, sigs, m);
    ChosenAccepted(verify, keys, sigs, m);
  }

  /** Valid signatures in key order are accepted exactly if there are as many as the script asks for. */
  lemma ChosenAccepted(verify: (Key, Bytes) -> bool, keys: seq<Key>, sigs: map<Key, Bytes>, m: nat)
    requires keys != [] && 0 < m <= |keys| && |Chosen(keys, sigs, m)| <= m
    requires forall k :: k in sigs ==> verify(k, sigs[k])
    ensures Verdict(verify, ScriptStack(Blobs(Chosen(keys, sigs, m)), m, keys)) == Accepts <==>
            |Chosen(keys, sigs, m)| == m
  {
    hide Verdict, InOrder, ScriptStack, Chosen;
    var chosen := Chosen(keys, sigs, m);
    ScriptVerdict(verify, Blobs(chosen), m, keys);
    if |chosen| == m {
      ChosenInOrder(verify, keys, sigs, m);
      PopCounted([], chosen);
      assert [] + Blobs(chosen) + [Number(m)] == Blobs(chosen) + [Number(m)];
    }
  }
}
