/**
 * The staged replacement of contract storage by the items that state synchronisation collected
 * (pkg/core/blockchain.go).
 */
module StateJump {
  import opened Bytes
  import opened Common

  const ST_STORAGE: Byte := 0x70
  const ST_TEMP_STORAGE: Byte := 0x71
  const SYS_STATE_JUMP_STAGE: Byte := 0xc4
  const MAX_STORAGE_BATCH_SIZE := 10000

  /** Stages are powers of two; the byte stored is the last stage completed. */
  const NONE: Byte := 1
  const STATE_JUMP_STARTED: Byte := 2
  const OLD_STORAGE_ITEMS_REMOVED: Byte := 4
  const NEW_STORAGE_ITEMS_ADDED: Byte := 8
  const GENESIS_STATE_REMOVED: Byte := 16

  /** A store key: its first byte, which tells what is stored, and the rest. */
  datatype Key = Key(prefix: Byte, rest: seq<Byte>)

  type Value = seq<Byte>

  type Database = map<Key, Value>

  /** Contract items by key without prefix. */
  type Items = map<seq<Byte>, Value>

  const STAGE_KEY := Key(SYS_STATE_JUMP_STAGE, [])

  datatype Outcome = Finished | BadSyncPoint | UnknownStage | Interrupted

  predicate IsItem(k: Key) { k.prefix == ST_STORAGE || k.prefix == ST_TEMP_STORAGE }

  /** The collected items are exactly those in the temporary area. */
  ghost predicate Collected(db: Database, gathered: Items) {
    && (forall r :: r in gathered <==> Key(ST_TEMP_STORAGE, r) in db)
    && (forall r :: r in gathered ==> db[Key(ST_TEMP_STORAGE, r)] == gathered[r])
  }

  /** Every collected item is in exactly one of the two areas, and nothing else is in either. */
  ghost predicate Divided(db: Database, gathered: Items) {
    forall r ::
      && (Key(ST_STORAGE, r) in db ==>
            r in gathered && db[Key(ST_STORAGE, r)] == gathered[r] && Key(ST_TEMP_STORAGE, r) !in db)
      && (Key(ST_TEMP_STORAGE, r) in db ==> r in gathered && db[Key(ST_TEMP_STORAGE, r)] == gathered[r])
      && (r in gathered ==> Key(ST_STORAGE, r) in db || Key(ST_TEMP_STORAGE, r) in db)
  }

  /** Contract storage is exactly the collected items and the temporary area is empty. */
  ghost predicate Replaced(db: Database, gathered: Items) {
    Divided(db, gathered) && forall r :: Key(ST_TEMP_STORAGE, r) !in db
  }

  /** Nothing but items, the stage and the genesis data has changed. */
  ghost predicate OthersKept(db: Database, before: Database, genesis: set<Key>) {
    forall k :: !IsItem(k) && k != STAGE_KEY && k !in genesis ==>
      (k in db <==> k in before) && (k in db ==> db[k] == before[k])
  }

  ghost predicate ItemsKept(db: Database, before: Database) {
    forall k :: IsItem(k) ==> (k in db <==> k in before) && (k in db ==> db[k] == before[k])
  }

  predicate IsStage(s: Byte) {
    || s == STATE_JUMP_STARTED || s == OLD_STORAGE_ITEMS_REMOVED || s == NEW_STORAGE_ITEMS_ADDED
    || s == GENESIS_STATE_REMOVED
  }

  /** What the store holds once a stage has been recorded, whatever was interrupted after that. */
  ghost predicate Sound(db: Database, s: Byte, before: Database, gathered: Items, genesis: set<Key>) {
    && OthersKept(db, before, genesis)
    && (s == NONE || s == STATE_JUMP_STARTED ==> ItemsKept(db, before))
    && (s == OLD_STORAGE_ITEMS_REMOVED ==> Divided(db, gathered))
    && (s == NEW_STORAGE_ITEMS_ADDED || s == GENESIS_STATE_REMOVED ==> Replaced(db, gathered))
  }

  /** The store is sound for the stage it records. */
  ghost predicate Resumable(db: Database, before: Database, gathered: Items, genesis: set<Key>) {
    && STAGE_KEY in db && |db[STAGE_KEY]| == 1 && IsStage(db[STAGE_KEY][0])
    && Sound(db, db[STAGE_KEY][0], before, gathered, genesis)
  }

  /** The jump is complete. */
  ghost predicate Jumped(db: Database, before: Database, gathered: Items, genesis: set<Key>) {
    STAGE_KEY !in db && Replaced(db, gathered) && OthersKept(db, before, genesis)
  }

  function TempKeys(db: Database): set<Key> { set k | k in db && k.prefix == ST_TEMP_STORAGE }

  /** Genesis data lies outside the contract items and the stage. */
  predicate GenesisData(genesis: set<Key>) { STAGE_KEY !in genesis && forall k :: k in genesis ==> !IsItem(k) }

  /** A node and its store; after the given number of further writes the node stops. */
  class Node {
    var db: Database
    var writesLeft: nat

    /** A batch is written as a whole or not at all. */
    method PutBatch(deletes: set<Key>, puts: Database) returns (ok: bool)
      modifies this
      ensures ok == (old(writesLeft) > 0)
      ensures ok ==> db == old(db) - deletes + puts && writesLeft == old(writesLeft) - 1
      ensures !ok ==> db == old(db) && writesLeft == 0
    {
      ok := writesLeft > 0;
      if ok {
        db := db - deletes + puts;
        writesLeft := writesLeft - 1;
      }
    }

    method PutStage(s: Byte) returns (ok: bool)
      modifies this
      ensures ok == (old(writesLeft) > 0)
      ensures ok ==> db == old(db)[STAGE_KEY := [s]] && writesLeft == old(writesLeft) - 1
      ensures !ok ==> db == old(db) && writesLeft == 0
    {
      ok := PutBatch({}, map[STAGE_KEY := [s]]);
      assert ok ==> db == old(db)[STAGE_KEY := [s]];
    }

    /** All keys with a prefix, in some order. */
    method Seek(prefix: Byte) returns (keys: seq<Key>)
      ensures forall k :: k in keys <==> k in db && k.prefix == prefix
    {
      keys := [];
      var left := set k | k in db && k.prefix == prefix;
      while left != {}
        invariant forall k :: k in db && k.prefix == prefix <==> k in keys || k in left
        decreases |left|
      {
        var k :| k in left;
        keys := keys + [k];
        left := left - {k};
      }
    }

    /** Stage one: all old contract items go, together with the record that they are gone. */
    method RemoveOldItems(ghost before: Database, ghost gathered: Items, ghost genesis: set<Key>) returns (ok: bool)
      requires ItemsKept(db, before) && OthersKept(db, before, genesis) && Collected(before, gathered)
      modifies this
      ensures ok == (old(writesLeft) > 0) && writesLeft == old(writesLeft) - (if ok then 1 else 0)
      ensures ok ==> db.Keys >= {STAGE_KEY} && db[STAGE_KEY] == [OLD_STORAGE_ITEMS_REMOVED]
      ensures ok ==>
                Sound(db, OLD_STORAGE_ITEMS_REMOVED, before, gathered, genesis) && TempKeys(db) == old(TempKeys(db))
      ensures !ok ==> db == old(db)
    {
      var keys := Seek(ST_STORAGE);
      var deletes := set k | k in keys;
      ok := PutBatch(deletes, map[STAGE_KEY := [OLD_STORAGE_ITEMS_REMOVED]]);
    }

    /** Collects one batch of moves. */
    method CollectBatch(keys: seq<Key>) returns (deletes: set<Key>, puts: Database)
      requires forall k :: k in keys <==> k in db && k.prefix == ST_TEMP_STORAGE
      ensures forall k :: k in deletes ==> k in keys
      ensures forall k :: k in puts <==> k.prefix == ST_STORAGE && Key(ST_TEMP_STORAGE, k.rest) in deletes
      ensures forall k :: k in puts ==> puts[k] == db[Key(ST_TEMP_STORAGE, k.rest)]
      ensures keys != [] ==> deletes != {}
    {
      var count := 0;
      deletes, puts := {}, map[];
      for i := 0 to |keys|
        invariant forall k :: k in deletes ==> k in keys
        invariant forall k :: k in puts <==> k.prefix == ST_STORAGE && Key(ST_TEMP_STORAGE, k.rest) in deletes
        invariant forall k :: k in puts ==> puts[k] == db[Key(ST_TEMP_STORAGE, k.rest)]
        invariant count > 0 ==> deletes != {}
        invariant i > 0 ==> count > 0
      {
        if count < MAX_STORAGE_BATCH_SIZE {
          var k := keys[i];
          assert k in keys;
          deletes := deletes + {k};
          puts := puts[Key(ST_STORAGE, k.rest) := db[k]];
          count := count + 2;
        }
      }
    }

    /** Stage two: batches of items change their prefix until none is left. */
    method MoveItems(ghost before: Database, ghost gathered: Items, ghost genesis: set<Key>) returns (ok: bool)
      requires Resumable(db, before, gathered, genesis) && db[STAGE_KEY] == [OLD_STORAGE_ITEMS_REMOVED]
      modifies this
      ensures ok ==>
                && Sound(db, NEW_STORAGE_ITEMS_ADDED, before, gathered, genesis)
                && STAGE_KEY in db && db[STAGE_KEY] == [NEW_STORAGE_ITEMS_ADDED]
      ensures !ok ==> writesLeft == 0 && Resumable(db, before, gathered, genesis)
      ensures old(writesLeft) > |old(TempKeys(db))| ==> ok && writesLeft >= old(writesLeft) - |old(TempKeys(db))| - 1
    {
      while true
        invariant Resumable(db, before, gathered, genesis) && db[STAGE_KEY] == [OLD_STORAGE_ITEMS_REMOVED]
        invariant writesLeft - |TempKeys(db)| >= old(writesLeft) - |old(TempKeys(db))|
        decreases |TempKeys(db)|
      {
        var keys := Seek(ST_TEMP_STORAGE);
        var deletes, puts := CollectBatch(keys);
        if keys == [] {
          break;
        }
        ghost var was := db;
        ok := PutBatch(deletes, puts);
        if !ok {
          return false;
        }
        BatchMoves(was, db, deletes, puts, before, gathered, genesis);
      }
      ok := PutStage(NEW_STORAGE_ITEMS_ADDED);
    }

    /** Stage three: genesis data goes unless the subtraction of unsigned 32-bit numbers gives zero. */
    method RemoveGenesis(p: nat, maxTraceableBlocks: nat, ghost before: Database, ghost gathered: Items,
                         genesis: set<Key>)
      returns (ok: bool)
      requires Resumable(db, before, gathered, genesis) && db[STAGE_KEY] == [NEW_STORAGE_ITEMS_ADDED] &&
               GenesisData(genesis)
      modifies this
      ensures ok ==>
                && Sound(db, GENESIS_STATE_REMOVED, before, gathered, genesis)
                && STAGE_KEY in db && db[STAGE_KEY] == [GENESIS_STATE_REMOVED]
      ensures !ok ==> writesLeft == 0 && Resumable(db, before, gathered, genesis)
      ensures old(writesLeft) >= 2 ==> ok && writesLeft >= old(writesLeft) - 2
    {
      if (p - maxTraceableBlocks) % 0x1_0000_0000 > 0 {
        ok := PutBatch(genesis, map[]);
        if !ok {
          return;
        }
      }
      ok := PutStage(GENESIS_STATE_REMOVED);
    }

    /** The jump from a stage on; every stage falls through to the next one. */
    method JumpToStateInternal(p: nat, headers: nat, maxTraceableBlocks: nat, stage: Byte,
                               ghost before: Database, ghost gathered: Items, genesis: set<Key>)
      returns (r: Outcome)
      requires Collected(before, gathered) && GenesisData(genesis)
      requires stage == NONE ==> ItemsKept(db, before) && OthersKept(db, before, genesis)
      requires stage != NONE && IsStage(stage) ==> Resumable(db, before, gathered, genesis) && db[STAGE_KEY] == [stage]
      modifies this
      ensures r.BadSyncPoint? <==> p + 1 >= headers
      ensures r.UnknownStage? <==> p + 1 < headers && stage != NONE && !IsStage(stage)
      ensures r.BadSyncPoint? || r.UnknownStage? ==> db == old(db)
      ensures r.Finished? ==> Jumped(db, before, gathered, genesis)
      ensures r.Interrupted? ==> writesLeft == 0
      ensures r.Interrupted? ==> Resumable(db, before, gathered, genesis) || (stage == NONE && db == old(db))
      ensures old(writesLeft) >= |old(TempKeys(db))| + 6 ==> !r.Interrupted?
    {
      if p + 1 >= headers {
        return BadSyncPoint;
      }
      if stage != NONE && !IsStage(stage) {
        return UnknownStage;
      }
      hide Divided, Replaced, OthersKept, ItemsKept, Collected, TempKeys, GenesisData;
      var ok := true;
      if stage == NONE {
        ok := PutStage(STATE_JUMP_STARTED);
        if !ok {
          return Interrupted;
        }
        StageStored(old(db), db, STATE_JUMP_STARTED, before, genesis);
      }
      if stage <= STATE_JUMP_STARTED {
        ok := RemoveOldItems(before, gathered, genesis);
        if !ok {
          return Interrupted;
        }
      }
      if stage <= OLD_STORAGE_ITEMS_REMOVED {
        ok := MoveItems(before, gathered, genesis);
        if !ok {
          return Interrupted;
        }
      }
      if stage <= NEW_STORAGE_ITEMS_ADDED {
        ok := RemoveGenesis(p, maxTraceableBlocks, before, gathered, genesis);
        if !ok {
          return Interrupted;
        }
      }
      ghost var was := db;
      ok := PutBatch({STAGE_KEY}, map[]);
      if ok { StageDeleted(was, db, before, gathered, genesis); }
      r := if ok then Finished else Interrupted;
    }

    /**
     * The node is started again and again, each time allowed some number of writes before it stops. While the jump is
     * unfinished the store stays resumable, and it is finished at the latest by a start that may write enough.
     */
    method Restarts(budgets: seq<nat>, p: nat, headers: nat, maxTraceableBlocks: nat,
                    ghost before: Database, ghost gathered: Items, genesis: set<Key>)
      returns (done: bool)
      requires Collected(before, gathered) && GenesisData(genesis) && p + 1 < headers
      requires Resumable(db, before, gathered, genesis)
      modifies this
      ensures done ==> Jumped(db, before, gathered, genesis)
      ensures !done ==> Resumable(db, before, gathered, genesis)
      ensures (exists i :: 0 <= i < |budgets| && budgets[i] >= |gathered| + 6) ==> done
    {
      done := false;
      for i := 0 to |budgets|
        invariant done ==> Jumped(db, before, gathered, genesis)
        invariant !done ==> Resumable(db, before, gathered, genesis)
        invariant (exists j :: 0 <= j < i && budgets[j] >= |gathered| + 6) ==> done
      {
        if STAGE_KEY in db {
          writesLeft := budgets[i];
          TempIsGathered(db, before, gathered, genesis);
          var r := JumpToStateInternal(p, headers, maxTraceableBlocks, db[STAGE_KEY][0], before, gathered, genesis);
          done := r.Finished?;
        }
      }
    }
  }

  lemma StageStored(was: Database, now: Database, s: Byte, before: Database, genesis: set<Key>)
    requires now == was[STAGE_KEY := [s]]
    ensures ItemsKept(was, before) ==> ItemsKept(now, before)
    ensures OthersKept(was, before, genesis) ==> OthersKept(now, before, genesis)
    ensures TempKeys(now) == TempKeys(was)
  {}

  lemma StageDeleted(was: Database, now: Database, before: Database, gathered: Items, genesis: set<Key>)
    requires now == was - {STAGE_KEY} + map[] && Replaced(was, gathered) && OthersKept(was, before, genesis)
    ensures Jumped(now, before, gathered, genesis)
  {}

  /** Never more temporary items than were collected. */
  lemma TempIsGathered(db: Database, before: Database, gathered: Items, genesis: set<Key>)
    requires Resumable(db, before, gathered, genesis) && Collected(before, gathered)
    ensures |TempKeys(db)| <= |gathered|
  {
    var all := set r | r in gathered :: Key(ST_TEMP_STORAGE, r);
    assert TempKeys(db) <= all by {
      forall k | k in TempKeys(db) ensures k in all {
        assert k == Key(ST_TEMP_STORAGE, k.rest);
        assert k.rest in gathered;
      }
    }
    ImageSize(gathered.Keys, all);
    SubsetSize(TempKeys(db), all);
  }

  lemma {:induction false} ImageSize(rests: set<seq<Byte>>, keys: set<Key>)
    requires keys == set r | r in rests :: Key(ST_TEMP_STORAGE, r)
    ensures |keys| == |rests|
    decreases rests
  {
    if rests == {} {
      assert keys == {};
    } else {
      var r :| r in rests;
      var k := Key(ST_TEMP_STORAGE, r);
      assert keys - {k} == set q | q in rests - {r} :: Key(ST_TEMP_STORAGE, q);
      ImageSize(rests - {r}, keys - {k});
    }
  }

  /** A batch keeps every collected item in exactly one area and empties the temporary area by what it deletes. */
  lemma BatchMoves(was: Database, now: Database, deletes: set<Key>, puts: Database, before: Database, gathered: Items,
                   genesis: set<Key>)
    requires Divided(was, gathered) && OthersKept(was, before, genesis) && deletes != {}
    requires forall k :: k in deletes ==> k in was && k.prefix == ST_TEMP_STORAGE
    requires forall k :: k in puts <==> k.prefix == ST_STORAGE && Key(ST_TEMP_STORAGE, k.rest) in deletes
    requires forall k :: k in puts ==> puts[k] == was[Key(ST_TEMP_STORAGE, k.rest)]
    requires now == was - deletes + puts
    ensures Divided(now, gathered) && OthersKept(now, before, genesis)
    ensures |TempKeys(now)| < |TempKeys(was)|
    ensures STAGE_KEY in was ==> STAGE_KEY in now && now[STAGE_KEY] == was[STAGE_KEY]
  {
    var k :| k in deletes;
    assert TempKeys(now) == TempKeys(was) - deletes;
    assert deletes <= TempKeys(was);
    assert |TempKeys(was) - deletes| == |TempKeys(was)| - |deletes|;
  }
}
