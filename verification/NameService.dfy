/**
 * The name service token: three storage indexes kept in step by registration, transfer and re-entrant callbacks
 * (examples/nft-nd-nns/nns.go).
 */
module NameService {
  import opened Bytes

  const MILLISECONDS_IN_YEAR := 365 * 24 * 3600 * 1000
  const MAX_DOMAIN_NAME_LENGTH := 255

  type Account = seq<Byte>
  type TokenId = seq<Byte>
  type TokenKey = seq<Byte>

  /** Accounts have the length of a script hash. */
  predicate IsValid(a: Account) { |a| == 20 }

  datatype NameState = NameState(owner: Account, name: TokenId, expiration: int, admin: Account)

  /** What the runtime tells a call: the time, who witnessed it, and what is checked before storage is touched. */
  datatype Runtime = Runtime(time: int, witnesses: set<Account>, admissible: bool, enoughGas: bool)

  /** What the receiver of a token does when told: nothing, or any further calls, possibly ending in an exception. */
  datatype Receiver = Plain | Contract(calls: seq<Call>, throws: bool)

  datatype Call =
    | Register(name: TokenId, owner: Account, rt: Runtime, receiver: Receiver)
    | Transfer(to: Account, token: TokenId, rt: Runtime, receiver: Receiver)
    | Renew(name: TokenId, rt: Runtime)
    | SetAdmin(name: TokenId, admin: Account, rt: Runtime)

  /** A call panics or returns; a panic does not undo what was stored before it. */
  datatype Outcome = Panic | Returns(ok: bool)

  type Names = map<TokenKey, NameState>

  /** The tokens of one owner. */
  function Owned(names: Names, a: Account): set<TokenKey> { set k | k in names && names[k].owner == a }

  ghost predicate Injective(hash: TokenId -> TokenKey) { forall a, b :: hash(a) == hash(b) ==> a == b }

  /** Names are stored under their own keys and have valid owners. */
  ghost predicate NamesOk(hash: TokenId -> TokenKey, names: Names) {
    forall k :: k in names ==> hash(names[k].name) == k && IsValid(names[k].owner)
  }

  /** Each balance is the number of names owned; accounts without names have no entry. */
  ghost predicate BalancesOk(names: Names, balances: map<Account, int>) {
    && (forall a :: a in balances ==> balances[a] == |Owned(names, a)| && balances[a] > 0)
    && (forall a :: a !in balances ==> |Owned(names, a)| == 0)
  }

  /** The account index holds exactly the pairs of owner and token, with the token's name. */
  ghost predicate IndexOk(names: Names, index: map<seq<Byte>, TokenId>) {
    && (forall e :: e in index <==> |e| >= 20 && e[20..] in names && names[e[20..]].owner == e[..20])
    && (forall e :: e in index ==> index[e] == names[e[20..]].name)
  }

  // ----- how the specification moves -----

  /** Balances after one account's balance changed by d; a zero balance is not kept. */
  function Adjusted(balances: map<Account, int>, a: Account, d: int): map<Account, int> {
    var b := (if a in balances then balances[a] else 0) + d;
    if b == 0 then balances - {a} else balances[a := b]
  }

  lemma OwnedAfter(names: Names, k: TokenKey, ns: NameState, a: Account)
    ensures Owned(names[k := ns], a) == if a == ns.owner then Owned(names, a) + {k} else Owned(names, a) - {k}
    ensures |Owned(names[k := ns], a)| ==
            |Owned(names, a)| - (if k in names && names[k].owner == a then 1 else 0) + (if a == ns.owner then 1 else 0)
  {
    assert Owned(names[k := ns], a) == if a == ns.owner then Owned(names, a) + {k} else Owned(names, a) - {k};
  }

  /** A name that gets a first owner. */
  lemma BalancesAfterMint(names: Names, balances: map<Account, int>, k: TokenKey, ns: NameState)
    requires BalancesOk(names, balances) && k !in names
    ensures BalancesOk(names[k := ns], Adjusted(balances, ns.owner, 1))
  {
    forall a ensures |Owned(names[k := ns], a)| == |Owned(names, a)| + (if a == ns.owner then 1 else 0) {
      OwnedAfter(names, k, ns, a);
    }
  }

  /** A name that changes its owner, or keeps it. */
  lemma BalancesAfterMove(names: Names, balances: map<Account, int>, k: TokenKey, ns: NameState)
    requires BalancesOk(names, balances) && k in names
    ensures BalancesOk(names[k := ns], Adjusted(Adjusted(balances, names[k].owner, -1), ns.owner, 1))
  {
    var from := names[k].owner;
    assert k in Owned(names, from);
    assert from in balances;
    forall a
      ensures |Owned(names[k := ns], a)| ==
              |Owned(names, a)| - (if from == a then 1 else 0) + (if a == ns.owner then 1 else 0)
    {
      OwnedAfter(names, k, ns, a);
    }
  }

  /** A change that leaves the owner alone. */
  lemma BalancesAfterEdit(names: Names, balances: map<Account, int>, k: TokenKey, ns: NameState)
    requires BalancesOk(names, balances) && k in names && names[k].owner == ns.owner
    ensures BalancesOk(names[k := ns], balances)
  {
    forall a ensures |Owned(names[k := ns], a)| == |Owned(names, a)| {
      OwnedAfter(names, k, ns, a);
    }
  }

  lemma EntrySplits(a: Account, k: TokenKey)
    requires IsValid(a)
    ensures (a + k)[..20] == a && (a + k)[20..] == k
  {}

  lemma EntryJoins(e: seq<Byte>)
    requires |e| >= 20
    ensures e[..20] + e[20..] == e
  {}

  lemma IndexAfterMint(names: Names, index: map<seq<Byte>, TokenId>, k: TokenKey, ns: NameState)
    requires IndexOk(names, index) && k !in names && IsValid(ns.owner)
    ensures IndexOk(names[k := ns], index[ns.owner + k := ns.name])
  {
    EntrySplits(ns.owner, k);
    forall e | |e| >= 20 && e[20..] == k && e[..20] == ns.owner ensures e == ns.owner + k { EntryJoins(e); }
  }

  lemma IndexAfterMove(names: Names, index: map<seq<Byte>, TokenId>, k: TokenKey, ns: NameState)
    requires IndexOk(names, index) && k in names && IsValid(names[k].owner) && IsValid(ns.owner) &&
             ns.name == names[k].name
    ensures IndexOk(names[k := ns], (index - {names[k].owner + k})[ns.owner + k := ns.name])
  {
    var from := names[k].owner;
    EntrySplits(from, k);
    EntrySplits(ns.owner, k);
    forall e | |e| >= 20 && e[20..] == k ensures e == e[..20] + k { EntryJoins(e); }
  }

  lemma IndexAfterEdit(names: Names, index: map<seq<Byte>, TokenId>, k: TokenKey, ns: NameState)
    requires IndexOk(names, index) && k in names && names[k].owner == ns.owner && names[k].name == ns.name
    ensures IndexOk(names[k := ns], index)
  {}

  lemma NamesAfter(hash: TokenId -> TokenKey, names: Names, ns: NameState)
    requires NamesOk(hash, names) && IsValid(ns.owner)
    ensures NamesOk(hash, names[hash(ns.name) := ns])
    ensures |names[hash(ns.name) := ns]| == |names| + if hash(ns.name) in names then 0 else 1
  {}

  lemma NameOfKey(hash: TokenId -> TokenKey, names: Names, name: TokenId)
    requires Injective(hash) && NamesOk(hash, names) && hash(name) in names
    ensures names[hash(name)].name == name && IsValid(names[hash(name)].owner)
  {}

  // ----- calls as functions of the names -----

  datatype Result = Result(names: Names, outcome: Outcome)

  predicate Live(names: Names, k: TokenKey, time: int) { k in names && time < names[k].expiration }

  function Registered(hash: TokenId -> TokenKey, names: Names, name: TokenId, owner: Account, rt: Runtime): Result {
    if !rt.admissible || !IsValid(owner) || owner !in rt.witnesses || !rt.enoughGas then Result(names, Panic)
    else if Live(names, hash(name), rt.time) then Result(names, Returns(false))
    else Result(names[hash(name) := NameState(owner, name, rt.time + MILLISECONDS_IN_YEAR, [])], Returns(true))
  }

  function Transferred(hash: TokenId -> TokenKey, names: Names, to: Account, token: TokenId, rt: Runtime): Result {
    var k := hash(token);
    if !IsValid(to) || !Live(names, k, rt.time) then Result(names, Panic)
    else if names[k].owner !in rt.witnesses then Result(names, Returns(false))
    else if names[k].owner == to then Result(names, Returns(true))
    else Result(names[k := names[k].(owner := to, admin := [])], Returns(true))
  }

  function Renewed(hash: TokenId -> TokenKey, names: Names, name: TokenId, rt: Runtime): Result {
    var k := hash(name);
    if |name| > MAX_DOMAIN_NAME_LENGTH || !rt.enoughGas || !Live(names, k, rt.time) then Result(names, Panic)
    else Result(names[k := names[k].(expiration := names[k].expiration + MILLISECONDS_IN_YEAR)], Returns(true))
  }

  function AdminSet(hash: TokenId -> TokenKey, names: Names, name: TokenId, admin: Account, rt: Runtime): Result {
    var k := hash(name);
    if |name| > MAX_DOMAIN_NAME_LENGTH || (admin != [] && admin !in rt.witnesses) || !Live(names, k, rt.time)
       || names[k].owner !in rt.witnesses then Result(names, Panic)
    else Result(names[k := names[k].(admin := admin)], Returns(true))
  }

  /** The receiver is told only after the names have changed, and may call back. */
  function Notified(hash: TokenId -> TokenKey, r: Result, receiver: Receiver): Result
    decreases receiver, 0
  {
    if r.outcome != Returns(true) || receiver.Plain? then r
    else Result(CalledAll(hash, r.names, receiver.calls), if receiver.throws then Panic else Returns(true))
  }

  function Called(hash: TokenId -> TokenKey, names: Names, call: Call): Result
    decreases call, 0
  {
    match call
    case Register(name, owner, rt, receiver) => Notified(hash, Registered(hash, names, name, owner, rt), receiver)
    case Transfer(to, token, rt, receiver) => Notified(hash, Transferred(hash, names, to, token, rt), receiver)
    case Renew(name, rt) => Renewed(hash, names, name, rt)
    case SetAdmin(name, admin, rt) => AdminSet(hash, names, name, admin, rt)
  }

  function CalledAll(hash: TokenId -> TokenKey, names: Names, calls: seq<Call>): Names
    decreases calls, 0
  {
    if calls == [] then names
    else Called(hash, CalledAll(hash, names, calls[..|calls| - 1]), calls[|calls| - 1]).names
  }

  /** Neither the call nor a callback is witnessed by the owner or made after the name has expired. */
  predicate Foreign(call: Call, ns: NameState)
    decreases call, 0
  {
    && ns.owner !in call.rt.witnesses && call.rt.time < ns.expiration
    && (call.Register? || call.Transfer? ==> ForeignReceiver(call.receiver, ns))
  }

  predicate ForeignReceiver(receiver: Receiver, ns: NameState)
    decreases receiver, 0
  {
    receiver.Contract? ==> forall i :: 0 <= i < |receiver.calls| ==> Foreign(receiver.calls[i], ns)
  }

  /** The name is as it was, or has been renewed. */
  predicate Kept(names: Names, k: TokenKey, ns: NameState) {
    k in names && ns.expiration <= names[k].expiration && names[k].(expiration := ns.expiration) == ns
  }

  /**
   * No sequence of calls, with any callbacks, takes a name from its owner, or changes its admin, without the owner's
   * witness before the name expires.
   */
  lemma {:induction false} NamesAreKept(hash: TokenId -> TokenKey, names: Names, calls: seq<Call>, k: TokenKey,
                                        ns: NameState)
    requires Kept(names, k, ns) && forall i :: 0 <= i < |calls| ==> Foreign(calls[i], ns)
    ensures Kept(CalledAll(hash, names, calls), k, ns)
    decreases calls, 0
  {
    if calls != [] {
      var n := |calls| - 1;
      NamesAreKept(hash, names, calls[..n], k, ns);
      CallKeepsName(hash, CalledAll(hash, names, calls[..n]), calls[n], k, ns);
    }
  }

  lemma {:induction false} CallKeepsName(hash: TokenId -> TokenKey, names: Names, call: Call, k: TokenKey,
                                         ns: NameState)
    requires Kept(names, k, ns) && Foreign(call, ns)
    ensures Kept(Called(hash, names, call).names, k, ns)
    decreases call, 0
  {
    match call
    case Register(name, owner, rt, receiver) =>
      NotificationKeepsName(hash, Registered(hash, names, name, owner, rt), receiver, k, ns);
    case Transfer(to, token, rt, receiver) =>
      NotificationKeepsName(hash, Transferred(hash, names, to, token, rt), receiver, k, ns);
    case Renew(_, _) =>
    case SetAdmin(_, _, _) =>
  }

  lemma {:induction false} NotificationKeepsName(hash: TokenId -> TokenKey, r: Result, receiver: Receiver, k: TokenKey,
                                                 ns: NameState)
    requires Kept(r.names, k, ns) && ForeignReceiver(receiver, ns)
    ensures Kept(Notified(hash, r, receiver).names, k, ns)
    decreases receiver, 0
  {
    if r.outcome == Returns(true) && receiver.Contract? { NamesAreKept(hash, r.names, receiver.calls, k, ns); }
  }

  // ----- the contract -----

  class NameServiceContract {
    const hash: TokenId -> TokenKey
    var supply: int
    var balances: map<Account, int>
    var index: map<seq<Byte>, TokenId>
    var names: Names

    /** The three indexes agree with the names. */
    ghost predicate Valid()
      reads this
    {
      && Injective(hash) && NamesOk(hash, names)
      && supply == |names| && BalancesOk(names, balances) && IndexOk(names, index)
    }

    constructor (hash: TokenId -> TokenKey)
      requires Injective(hash)
      ensures Valid() && names == map[]
    {
      this.hash := hash;
      supply, balances, index, names := 0, map[], map[], map[];
      new;
      assert forall a :: Owned(names, a) == {};
    }

    method UpdateTotalSupply(diff: int)
      modifies this`supply
      ensures supply == old(supply) + diff
    {
      supply := supply + diff;
    }

    method UpdateBalance(token: TokenId, a: Account, diff: int)
      modifies this`balances, this`index
      ensures balances == old(Adjusted(balances, a, diff))
      ensures index == if diff < 0 then old(index) - {a + hash(token)} else old(index)[a + hash(token) := token]
    {
      var balance := 0;
      if a in balances {
        balance := balances[a];
      }
      balance := balance + diff;
      if balance == 0 {
        balances := balances - {a};
      } else {
        balances := balances[a := balance];
      }
      if diff < 0 {
        index := index - {a + hash(token)};
      } else {
        index := index[a + hash(token) := token];
      }
    }

    /** A name that has not expired. */
    method GetNameState(token: TokenId, time: int) returns (found: bool, ns: NameState)
      ensures found == (hash(token) in names && time < names[hash(token)].expiration)
      ensures found ==> ns == names[hash(token)]
    {
      found := hash(token) in names && time < names[hash(token)].expiration;
      ns := if found then names[hash(token)] else NameState([], [], 0, []);
    }

    /** Registration up to the notification. */
    method RegisterName(name: TokenId, owner: Account, rt: Runtime) returns (r: Outcome)
      requires Valid()
      modifies this
      ensures Valid()
      ensures r.Panic? <==> !rt.admissible || !IsValid(owner) || owner !in rt.witnesses || !rt.enoughGas
      ensures r == Returns(false) ==> hash(name) in old(names) && rt.time < old(names)[hash(name)].expiration
      ensures r == Returns(true) ==> hash(name) in old(names) ==> old(names)[hash(name)].expiration <= rt.time
      ensures names ==
              if r == Returns(true)
              then old(names)[hash(name) := NameState(owner, name, rt.time + MILLISECONDS_IN_YEAR, [])]
              else old(names)
    {
      hide BalancesOk, IndexOk, NamesOk, Injective, Adjusted;
      if !rt.admissible || !IsValid(owner) || owner !in rt.witnesses || !rt.enoughGas {
        return Panic;
      }
      var key := hash(name);
      var ns := NameState(owner, name, rt.time + MILLISECONDS_IN_YEAR, []);
      if key in names {
        var was := names[key];
        if rt.time < was.expiration {
          return Returns(false);
        }
        NameOfKey(hash, names, name);
        BalancesAfterMove(names, balances, key, ns);
        IndexAfterMove(names, index, key, ns);
        UpdateBalance(name, was.owner, -1);
      } else {
        BalancesAfterMint(names, balances, key, ns);
        IndexAfterMint(names, index, key, ns);
        UpdateTotalSupply(1);
      }
      NamesAfter(hash, names, ns);
      names := names[key := ns];
      UpdateBalance(name, owner, 1);
      r := Returns(true);
    }

    /** A transfer up to the notification. */
    method TransferToken(to: Account, token: TokenId, rt: Runtime) returns (r: Outcome)
      requires Valid()
      modifies this
      ensures Valid()
      ensures r.Panic? <==> !IsValid(to) || hash(token) !in old(names) || old(names)[hash(token)].expiration <= rt.time
      ensures r.Returns? ==> r.ok == (old(names)[hash(token)].owner in rt.witnesses)
      ensures names == if r == Returns(true) && old(names)[hash(token)].owner != to
                       then old(names)[hash(token) := old(names)[hash(token)].(owner := to, admin := [])]
                       else old(names)
    {
      hide BalancesOk, IndexOk, NamesOk, Injective, Adjusted;
      if !IsValid(to) {
        return Panic;
      }
      var found, ns := GetNameState(token, rt.time);
      if !found {
        return Panic;
      }
      var from := ns.owner;
      if from !in rt.witnesses {
        return Returns(false);
      }
      if from != to {
        var now := ns.(owner := to, admin := []);
        NameOfKey(hash, names, token);
        NamesAfter(hash, names, now);
        BalancesAfterMove(names, balances, hash(token), now);
        IndexAfterMove(names, index, hash(token), now);
        names := names[hash(token) := now];
        UpdateBalance(token, from, -1);
        UpdateBalance(token, to, 1);
      }
      r := Returns(true);
    }

    method RenewName(name: TokenId, rt: Runtime) returns (r: Outcome)
      requires Valid()
      modifies this`names
      ensures Valid()
      ensures r.Panic? <==>
                || |name| > MAX_DOMAIN_NAME_LENGTH || !rt.enoughGas || hash(name) !in old(names)
                || old(names)[hash(name)].expiration <= rt.time
      ensures r.Returns? ==> r.ok
      ensures names == if r.Panic? then old(names) else
                         var was := old(names)[hash(name)];
                         old(names)[hash(name) := was.(expiration := was.expiration + MILLISECONDS_IN_YEAR)]
    {
      hide BalancesOk, IndexOk, NamesOk, Injective, Adjusted;
      if |name| > MAX_DOMAIN_NAME_LENGTH || !rt.enoughGas {
        return Panic;
      }
      var found, ns := GetNameState(name, rt.time);
      if !found {
        return Panic;
      }
      var now := ns.(expiration := ns.expiration + MILLISECONDS_IN_YEAR);
      NameOfKey(hash, names, name);
      NamesAfter(hash, names, now);
      BalancesAfterEdit(names, balances, hash(name), now);
      IndexAfterEdit(names, index, hash(name), now);
      names := names[hash(ns.name) := now];
      r := Returns(true);
    }

    method SetNameAdmin(name: TokenId, admin: Account, rt: Runtime) returns (r: Outcome)
      requires Valid()
      modifies this`names
      ensures Valid()
      ensures r.Panic? <==>
                || |name| > MAX_DOMAIN_NAME_LENGTH || (admin != [] && admin !in rt.witnesses)
                || !Live(old(names), hash(name), rt.time) || old(names)[hash(name)].owner !in rt.witnesses
      ensures r.Returns? ==> r.ok
      ensures names == if r.Panic? then old(names)
                       else old(names)[hash(name) := old(names)[hash(name)].(admin := admin)]
    {
      hide BalancesOk, IndexOk, NamesOk, Injective, Adjusted;
      if |name| > MAX_DOMAIN_NAME_LENGTH || (admin != [] && admin !in rt.witnesses) {
        return Panic;
      }
      var found, ns := GetNameState(name, rt.time);
      if !found || ns.owner !in rt.witnesses {
        return Panic;
      }
      NameOfKey(hash, names, name);
      NamesAfter(hash, names, ns.(admin := admin));
      BalancesAfterEdit(names, balances, hash(name), ns.(admin := admin));
      IndexAfterEdit(names, index, hash(name), ns.(admin := admin));
      names := names[hash(ns.name) := ns.(admin := admin)];
      r := Returns(true);
    }

    /** The notification; a contract that receives the token may call back before the outer call is over. */
    method PostTransfer(receiver: Receiver) returns (r: Outcome)
      requires Valid()
      modifies this
      ensures Valid() && old(names.Keys) <= names.Keys
      ensures Result(names, r) == Notified(hash, Result(old(names), Returns(true)), receiver)
      decreases receiver, 0
    {
      if receiver.Contract? {
        RunCalls(receiver.calls);
        if receiver.throws {
          return Panic;
        }
      }
      r := Returns(true);
    }

    method Invoke(call: Call) returns (r: Outcome)
      requires Valid()
      modifies this
      ensures Valid() && old(names.Keys) <= names.Keys
      ensures Result(names, r) == Called(hash, old(names), call)
      decreases call, 0
    {
      hide BalancesOk, IndexOk, NamesOk, Injective, CalledAll;
      match call
      case Register(name, owner, rt, receiver) =>
        r := RegisterName(name, owner, rt);
        assert Result(names, r) == Registered(hash, old(names), name, owner, rt);
        if r == Returns(true) {
          r := PostTransfer(receiver);
        }
      case Transfer(to, token, rt, receiver) =>
        r := TransferToken(to, token, rt);
        assert Result(names, r) == Transferred(hash, old(names), to, token, rt);
        if r == Returns(true) {
          r := PostTransfer(receiver);
        }
      case Renew(name, rt) => r := RenewName(name, rt);
      case SetAdmin(name, admin, rt) => r := SetNameAdmin(name, admin, rt);
    }

    /** Any sequence of calls, each with any callbacks; panics of inner calls may be caught by whoever made them. */
    method RunCalls(calls: seq<Call>)
      requires Valid()
      modifies this
      ensures Valid() && old(names.Keys) <= names.Keys
      ensures names == CalledAll(hash, old(names), calls)
      decreases calls, 0
    {
      hide BalancesOk, IndexOk, NamesOk, Injective, Called;
      for i := 0 to |calls|
        invariant Valid() && old(names.Keys) <= names.Keys
        invariant names == CalledAll(hash, old(names), calls[..i])
      {
        var _ := Invoke(calls[i]);
        assert calls[..i + 1][..i] == calls[..i];
      }
      assert calls[..|calls|] == calls;
    }
  }
}
