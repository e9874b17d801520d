/**
 * The block queue: a ring of slots filled by many producers, emptied by one consumer, with a wake-up channel that holds
 * one token (pkg/network/blockqueue.go). Producers and the consumer interleave between their locked sections.
 */
module BlockQueue {
  import opened Common

  const BLOCK_CACHE_SIZE := 2000

  /** Two different blocks may have the same index. */
  datatype Block = Block(index: nat, id: nat)

  type Slots = s: seq<Option<Block>> | |s| == BLOCK_CACHE_SIZE witness seq(BLOCK_CACHE_SIZE, _ => None)

  function Slot(index: nat): nat { index % BLOCK_CACHE_SIZE }

  /** A queued block sits at its index modulo the ring size. */
  predicate InPlace(q: Slots) {
    forall i :: 0 <= i < BLOCK_CACHE_SIZE && q[i].Some? ==> Slot(q[i].value.index) == i
  }

  /** No queued block is more than a ring above the chain. */
  predicate InReach(q: Slots, height: nat) {
    forall i :: 0 <= i < BLOCK_CACHE_SIZE && q[i].Some? ==> q[i].value.index <= height + BLOCK_CACHE_SIZE
  }

  // ----- the locked sections -----

  predicate Accepts(b: Block, h: nat) { h < b.index <= h + BLOCK_CACHE_SIZE }

  /** putBlock: what is stored, given the height read before the lock was taken. */
  function Put(q: Slots, b: Block, h: nat): Slots {
    var was := q[Slot(b.index)];
    if Accepts(b, h) && (was.None? || was.value.index < b.index) then q[Slot(b.index) := Some(b)] else q
  }

  /** run: the sweep over heights that the chain has passed. */
  function Sweep(q: Slots, from: nat, h: nat): Slots
    decreases h - from
  {
    if from >= h then q
    else
      var was := Slot(from + 1);
      Sweep(if q[was].Some? && q[was].value.index == from then q[was := None] else q, from + 1, h)
  }

  /** run: the slot is emptied unless it has been refilled meanwhile. */
  function Clear(q: Slots, pos: nat, b: Block): Slots
    requires pos < BLOCK_CACHE_SIZE
  {
    if q[pos] == Some(b) then q[pos := None] else q
  }

  /** The ring itself, changed in place. */
  class Ring {
    const queue: array<Option<Block>>

    ghost predicate Valid()
      reads this
    {
      queue.Length == BLOCK_CACHE_SIZE
    }

    constructor ()
      ensures Valid() && fresh(queue) && InPlace(queue[..])
    {
      queue := new Option<Block>[BLOCK_CACHE_SIZE](_ => None);
    }

    method PutBlock(b: Block, h: nat) returns (stored: bool)
      requires Valid()
      modifies queue
      ensures queue[..] == old(Put(queue[..], b, h))
      ensures stored <==> h < b.index <= h + BLOCK_CACHE_SIZE
      ensures stored ==> var slot := queue[b.index % BLOCK_CACHE_SIZE];
                         slot.Some? && slot.value.index >= b.index
    {
      stored := h < b.index && b.index <= h + BLOCK_CACHE_SIZE;
      if stored {
        var pos := b.index % BLOCK_CACHE_SIZE;
        if queue[pos].None? || queue[pos].value.index < b.index {
          queue[pos] := Some(b);
        }
      }
    }

    /** Reads the next slot and sweeps the passed ones. */
    method Take(lastHeight: nat, h: nat) returns (b: Option<Block>)
      requires Valid()
      modifies queue
      ensures queue[..] == old(Sweep(queue[..], lastHeight, h)) && b == old(queue[Slot(h + 1)])
    {
      b := queue[(h + 1) % BLOCK_CACHE_SIZE];
      var i := lastHeight;
      while i < h
        invariant Sweep(queue[..], i, h) == old(Sweep(queue[..], lastHeight, h))
      {
        var passed := (i + 1) % BLOCK_CACHE_SIZE;
        if queue[passed].Some? && queue[passed].value.index == i {
          queue[passed] := None;
        }
        i := i + 1;
      }
    }

    method Release(pos: nat, b: Block)
      requires Valid() && pos < BLOCK_CACHE_SIZE
      modifies queue
      ensures queue[..] == old(Clear(queue[..], pos, b))
    {
      if queue[pos] == Some(b) {
        queue[pos] := None;
      }
    }
  }

  /** The sweep looks for index i in the slot of index i + 1, so it never empties a slot. */
  lemma {:induction false} SweepClearsNothing(q: Slots, from: nat, h: nat)
    requires InPlace(q)
    ensures Sweep(q, from, h) == q
    decreases h - from
  {
    if from < h {
      var was := Slot(from + 1);
      assert Slot(from) != was;
      assert q[was].Some? ==> Slot(q[was].value.index) == was;
      SweepClearsNothing(q, from + 1, h);
    }
  }

  /** Two indexes in the same slot are a whole number of rings apart. */
  lemma SameSlot(a: nat, b: nat)
    requires Slot(a) == Slot(b) && a < b
    ensures a + BLOCK_CACHE_SIZE <= b
  {}

  /** putBlock replaces only blocks that the chain already has. */
  lemma PutDisplacesOnlyOld(q: Slots, b: Block, h: nat, i: nat)
    requires InPlace(q) && i < BLOCK_CACHE_SIZE && q[i].Some? && Put(q, b, h)[i] != q[i]
    ensures q[i].value.index <= h
  {
    SameSlot(q[i].value.index, b.index);
  }

  // ----- interleaving -----

  /** A putBlock call between reading the height and returning. */
  datatype Producer = Read(b: Block, h: nat) | Stored(b: Block)

  /** The consumer between its steps. */
  datatype Consumer =
    | Waiting
    | Looking
    | HasHeight(h: nat)
    | Holds(h: nat, b: Block)
    | Tried(h: nat, b: Block)

  /** Token says that the channel is full. */
  datatype State = State(height: nat, slots: Slots, token: bool, lastHeight: nat, consumer: Consumer,
                         producers: seq<Producer>)

  datatype Action =
    | Begin(b: Block)
    | Store(p: nat)
    | Signal(p: nat)
    | Wake
    | ReadHeight
    | TakeNext
    | AddBlock(accepted: bool)
    | ReleaseSlot
    | OtherBlock

  function Remove<T>(s: seq<T>, i: nat): seq<T>
    requires i < |s|
  {
    s[..i] + s[i + 1..]
  }

  predicate Enabled(s: State, a: Action) {
    match a
    case Begin(_) => true
    case Store(p) => p < |s.producers| && s.producers[p].Read?
    case Signal(p) => p < |s.producers| && s.producers[p].Stored?
    case Wake => s.consumer.Waiting? && s.token
    case ReadHeight => s.consumer.Looking?
    case TakeNext => s.consumer.HasHeight?
    case AddBlock(accepted) => s.consumer.Holds? && (accepted ==> s.consumer.b.index == s.height + 1)
    case ReleaseSlot => s.consumer.Tried?
    case OtherBlock => true
  }

  /** The chain accepts only the block that follows its top. */
  function Next(s: State, a: Action): State
    requires Enabled(s, a)
  {
    match a
    case Begin(b) => s.(producers := s.producers + [Read(b, s.height)])
    case Store(p) =>
      var r := s.producers[p];
      if Accepts(r.b, r.h) then s.(slots := Put(s.slots, r.b, r.h), producers := s.producers[p := Stored(r.b)])
      else s.(producers := Remove(s.producers, p))
    case Signal(p) => s.(token := true, producers := Remove(s.producers, p))
    case Wake => s.(token := false, consumer := Looking)
    case ReadHeight => s.(consumer := HasHeight(s.height))
    case TakeNext =>
      var h := s.consumer.h;
      var b := s.slots[Slot(h + 1)];
      s.(slots := Sweep(s.slots, s.lastHeight, h), lastHeight := h,
         consumer := if b.None? then Waiting else Holds(h, b.value))
    case AddBlock(accepted) =>
      var c := s.consumer;
      s.(height := if accepted then s.height + 1 else s.height, consumer := Tried(c.h, c.b))
    case ReleaseSlot => s.(slots := Clear(s.slots, Slot(s.consumer.h + 1), s.consumer.b), consumer := Looking)
    case OtherBlock => s.(height := s.height + 1)
  }

  function Start(height: nat): State {
    State(height, seq(BLOCK_CACHE_SIZE, _ => None), false, height, Waiting, [])
  }

  predicate Possible(s: State, actions: seq<Action>)
    decreases |actions|
  {
    actions == [] || (Enabled(s, actions[0]) && Possible(Next(s, actions[0]), actions[1..]))
  }

  function RunAll(s: State, actions: seq<Action>): State
    requires Possible(s, actions)
    decreases |actions|
  {
    if actions == [] then s else RunAll(Next(s, actions[0]), actions[1..])
  }

  // ----- safety over all interleavings -----

  /** Heights read are not ahead of the chain, and the queue is in place and in reach. */
  predicate Good(s: State) {
    && InPlace(s.slots) && InReach(s.slots, s.height)
    && (forall p :: 0 <= p < |s.producers| && s.producers[p].Read? ==> s.producers[p].h <= s.height)
    && (s.consumer.HasHeight? || s.consumer.Holds? || s.consumer.Tried? ==> s.consumer.h <= s.height)
    && (s.consumer.Holds? || s.consumer.Tried? ==> Slot(s.consumer.b.index) == Slot(s.consumer.h + 1))
  }

  lemma PutKeeps(q: Slots, b: Block, h: nat, height: nat)
    requires InPlace(q) && InReach(q, height) && h <= height
    ensures InPlace(Put(q, b, h)) && InReach(Put(q, b, h), height)
  {}

  lemma StepKeepsGood(s: State, a: Action)
    requires Good(s) && Enabled(s, a)
    ensures Good(Next(s, a)) && s.height <= Next(s, a).height
  {
    hide Sweep, Put;
    match a
    case Store(p) => PutKeeps(s.slots, s.producers[p].b, s.producers[p].h, s.height);
    case TakeNext => SweepClearsNothing(s.slots, s.lastHeight, s.consumer.h);
    case _ =>
  }

  lemma StartIsGood(height: nat)
    ensures Good(Start(height))
  {}

  lemma {:induction false} AlwaysGood(s: State, actions: seq<Action>)
    requires Good(s) && Possible(s, actions)
    ensures Good(RunAll(s, actions))
    decreases |actions|
  {
    hide Good, Next;
    if actions != [] {
      StepKeepsGood(s, actions[0]);
      AlwaysGood(Next(s, actions[0]), actions[1..]);
    }
  }

  /** In every interleaving, storing a block never displaces one above the chain. */
  lemma StoreKeepsFuture(height: nat, actions: seq<Action>, p: nat, i: nat)
    requires Possible(Start(height), actions)
    requires var s := RunAll(Start(height), actions);
             Enabled(s, Store(p)) && i < BLOCK_CACHE_SIZE && s.slots[i].Some? && s.slots[i].value.index > s.height
    ensures var s := RunAll(Start(height), actions); Next(s, Store(p)).slots[i] == s.slots[i]
  {
    hide Put, RunAll, Possible;
    StartIsGood(height);
    AlwaysGood(Start(height), actions);
    var s := RunAll(Start(height), actions);
    var r := s.producers[p];
    if Put(s.slots, r.b, r.h)[i] != s.slots[i] { PutDisplacesOnlyOld(s.slots, r.b, r.h, i); }
  }

  /**
   * The consumer takes a block above the next one exactly if that block is a whole ring ahead of the height the
   * consumer has read, which needs the chain to have grown since.
   */
  lemma TakenBlock(height: nat, actions: seq<Action>)
    requires Possible(Start(height), actions)
    requires var s := RunAll(Start(height), actions); s.consumer.HasHeight? && s.slots[Slot(s.consumer.h + 1)].Some?
    ensures var s := RunAll(Start(height), actions);
            var b := s.slots[Slot(s.consumer.h + 1)].value;
            && (s.consumer.h == s.height ==> b.index <= s.height + 1)
            && (b.index > s.consumer.h + 1 <==> b.index >= s.consumer.h + 1 + BLOCK_CACHE_SIZE)
            && (b.index > s.consumer.h + 1 ==> s.height > s.consumer.h)
  {
    hide RunAll, Possible;
    StartIsGood(height);
    AlwaysGood(Start(height), actions);
    var s := RunAll(Start(height), actions);
    var b := s.slots[Slot(s.consumer.h + 1)].value;
    assert Slot(b.index) == Slot(s.consumer.h + 1);
    if b.index > s.consumer.h + 1 { SameSlot(s.consumer.h + 1, b.index); }
  }

  // ----- wake-ups -----

  predicate Queued(q: Slots, index: nat) {
    var slot := q[Slot(index)];
    slot.Some? && slot.value.index == index
  }

  /** The block that the chain needs next is queued. */
  predicate NextQueued(s: State) { Queued(s.slots, s.height + 1) }

  /** A signal is in the channel or about to be sent. */
  predicate Signalled(s: State) {
    s.token || exists p :: 0 <= p < |s.producers| && s.producers[p].Stored?
  }

  /** Somebody will look: there is a signal, or the consumer is on its way. */
  predicate WillLook(s: State) { Signalled(s) || !s.consumer.Waiting? }

  /** A queued next block is going to be looked at. */
  predicate Attended(s: State) { NextQueued(s) ==> WillLook(s) }

  /** The consumer's knowledge when only the queue grows the chain. */
  predicate Current(s: State) {
    (s.consumer.HasHeight? || s.consumer.Holds? ==> s.consumer.h == s.height) && Attended(s)
  }

  lemma SignalLeavesOthers(s: State, p: nat)
    requires Enabled(s, Signal(p))
    ensures WillLook(Next(s, Signal(p)))
  {}

  lemma RejectedLeavesOthers(s: State, p: nat)
    requires Enabled(s, Store(p)) && !Accepts(s.producers[p].b, s.producers[p].h) && WillLook(s)
    ensures WillLook(Next(s, Store(p)))
  {
    if exists q :: 0 <= q < |s.producers| && s.producers[q].Stored? {
      var q :| 0 <= q < |s.producers| && s.producers[q].Stored?;
      var t := Next(s, Store(p));
      assert t.producers[if q < p then q else q - 1] == s.producers[q];
    }
  }

  /**
   * Without a signal, either the chain grows below a queued block while the consumer sleeps, or the consumer goes to
   * sleep on the empty slot of an old height while the block that is needed by now is queued.
   */
  predicate LosesWakeUp(s: State, a: Action)
    requires Enabled(s, a)
  {
    && !Signalled(s)
    && match a
       case OtherBlock => s.consumer.Waiting? && Queued(s.slots, s.height + 2)
       case TakeNext => s.slots[Slot(s.consumer.h + 1)].None? && NextQueued(s)
       case _ => false
  }

  lemma StoreAttends(s: State, p: nat)
    requires Attended(s) && Enabled(s, Store(p))
    ensures Attended(Next(s, Store(p)))
  {
    hide Put;
    var t := Next(s, Store(p));
    if Accepts(s.producers[p].b, s.producers[p].h) {
      assert t.producers[p].Stored?;
    } else if NextQueued(t) {
      RejectedLeavesOthers(s, p);
    }
  }

  /** These two are the only steps after which a queued next block is no longer going to be looked at. */
  lemma StepLosesWakeUp(s: State, a: Action)
    requires Good(s) && Attended(s) && Enabled(s, a)
    ensures !Attended(Next(s, a)) <==> LosesWakeUp(s, a)
  {
    hide Sweep, Put;
    var t := Next(s, a);
    match a
    case Begin(b) =>
      if p :| 0 <= p < |s.producers| && s.producers[p].Stored? { assert t.producers[p] == s.producers[p]; }
    case Store(p) => StoreAttends(s, p);
    case Signal(p) => SignalLeavesOthers(s, p);
    case TakeNext => SweepClearsNothing(s.slots, s.lastHeight, s.consumer.h);
    case _ =>
  }

  /** In all states of a run, the last included. */
  predicate AlwaysAttended(s: State, actions: seq<Action>)
    requires Possible(s, actions)
    decreases |actions|
  {
    Attended(s) && (actions != [] ==> AlwaysAttended(Next(s, actions[0]), actions[1..]))
  }

  predicate NeverLoses(s: State, actions: seq<Action>)
    requires Possible(s, actions)
    decreases |actions|
  {
    actions != [] ==> !LosesWakeUp(s, actions[0]) && NeverLoses(Next(s, actions[0]), actions[1..])
  }

  lemma {:induction false} AttendedRun(s: State, actions: seq<Action>)
    requires Good(s) && Attended(s) && Possible(s, actions)
    ensures AlwaysAttended(s, actions) <==> NeverLoses(s, actions)
    decreases |actions|
  {
    hide Good, Next, Attended, LosesWakeUp;
    if actions != [] {
      StepKeepsGood(s, actions[0]);
      StepLosesWakeUp(s, actions[0]);
      if !LosesWakeUp(s, actions[0]) { AttendedRun(Next(s, actions[0]), actions[1..]); }
    }
  }

  /** No wake-up is lost in a run exactly if none of its steps is one of the two that lose one. */
  lemma WakeUpsLost(height: nat, actions: seq<Action>)
    requires Possible(Start(height), actions)
    ensures AlwaysAttended(Start(height), actions) <==> NeverLoses(Start(height), actions)
  {
    hide AlwaysAttended, NeverLoses, Possible;
    StartIsGood(height);
    AttendedRun(Start(height), actions);
  }

  lemma StepKeepsCurrent(s: State, a: Action)
    requires Good(s) && Current(s) && Enabled(s, a) && !a.OtherBlock?
    ensures Current(Next(s, a))
  {
    hide Sweep, Put, Good;
    StepLosesWakeUp(s, a);
  }

  predicate OnlyQueueGrows(actions: seq<Action>) { forall i :: 0 <= i < |actions| ==> !actions[i].OtherBlock? }

  lemma {:induction false} AlwaysCurrent(s: State, actions: seq<Action>)
    requires Good(s) && Current(s) && Possible(s, actions) && OnlyQueueGrows(actions)
    ensures Current(RunAll(s, actions))
    decreases |actions|
  {
    hide Good, Next, Current;
    if actions != [] {
      StepKeepsGood(s, actions[0]);
      StepKeepsCurrent(s, actions[0]);
      AlwaysCurrent(Next(s, actions[0]), actions[1..]);
    }
  }

  /**
   * When only the queue grows the chain, no wake-up is lost: whenever the next block is queued, a look at the queue is
   * due; and the consumer never takes a block above the next one.
   */
  lemma NoWakeUpIsLost(height: nat, actions: seq<Action>)
    requires Possible(Start(height), actions) && OnlyQueueGrows(actions)
    ensures var s := RunAll(Start(height), actions);
            && (NextQueued(s) ==> WillLook(s))
            && (s.consumer.HasHeight? && s.slots[Slot(s.consumer.h + 1)].Some? ==>
                  s.slots[Slot(s.consumer.h + 1)].value.index <= s.height + 1)
  {
    hide Good, Next, Possible, RunAll;
    StartIsGood(height);
    StartIsCurrent(height);
    AlwaysCurrent(Start(height), actions);
    var s := RunAll(Start(height), actions);
    if s.consumer.HasHeight? && s.slots[Slot(s.consumer.h + 1)].Some? { TakenBlock(height, actions); }
  }

  lemma StartIsCurrent(height: nat)
    ensures Current(Start(height))
  {}

  // ----- progress -----

  /**
   * A block is queued exactly if its index is above the height that was read, by no more than a ring: its slot then
   * holds it, or one with the same or a higher index that was there before, and a signal is due.
   */
  lemma StoreQueues(s: State, p: nat)
    requires Enabled(s, Store(p))
    ensures var r, t := s.producers[p], Next(s, Store(p));
            var pos := r.b.index % BLOCK_CACHE_SIZE;
            if r.h < r.b.index <= r.h + BLOCK_CACHE_SIZE then
              && t.slots[pos].Some? && t.slots[pos].value.index >= r.b.index
              && (s.slots[pos].None? || s.slots[pos].value.index < r.b.index ==> t.slots[pos] == Some(r.b))
              && (forall i :: 0 <= i < BLOCK_CACHE_SIZE && i != pos ==> t.slots[i] == s.slots[i])
              && t.producers[p] == Stored(r.b)
            else
              t.slots == s.slots && t.producers == Remove(s.producers, p)
  {}

  /** The chain takes every block that follows its top. */
  predicate Honest(s: State, a: Action)
    requires Enabled(s, a)
  {
    a.AddBlock? && s.consumer.b.index == s.height + 1 ==> a.accepted
  }

  predicate HonestRun(s: State, actions: seq<Action>)
    requires Possible(s, actions)
    decreases |actions|
  {
    actions != [] ==> Honest(s, actions[0]) && HonestRun(Next(s, actions[0]), actions[1..])
  }

  /** What the consumer has in hand when only the queue grows the chain. */
  predicate Prompt(s: State) {
    && Current(s)
    && (s.consumer.Holds? ==> s.consumer.b.index <= s.height + 1)
    && (s.consumer.Tried? ==> s.consumer.b.index <= s.height)
  }

  lemma StepKeepsPrompt(s: State, a: Action)
    requires Good(s) && Prompt(s) && Enabled(s, a) && !a.OtherBlock? && Honest(s, a)
    ensures Prompt(Next(s, a))
  {
    hide Sweep, Put, WillLook;
    StepKeepsCurrent(s, a);
    if a.TakeNext? {
      var slot := s.slots[Slot(s.height + 1)];
      if slot.Some? && slot.value.index > s.height + 1 { SameSlot(s.height + 1, slot.value.index); }
    }
  }

  /** The chain has reached index i, or the block that takes it there is queued. */
  predicate Kept(s: State, i: nat) { i <= s.height || Queued(s.slots, i) }

  /** The step stores a block with index i. */
  predicate Delivers(s: State, a: Action, i: nat)
    requires Enabled(s, a)
  {
    && a.Store? && s.producers[a.p].b.index == i
    && s.producers[a.p].h < i <= s.producers[a.p].h + BLOCK_CACHE_SIZE
  }

  predicate Delivered(s: State, actions: seq<Action>, i: nat)
    requires Possible(s, actions)
    decreases |actions|
  {
    actions != [] && (Delivers(s, actions[0], i) || Delivered(Next(s, actions[0]), actions[1..], i))
  }

  /** A block in the slot of an index above the chain has that index. */
  lemma SlotOfFuture(q: Slots, height: nat, i: nat)
    requires InPlace(q) && InReach(q, height) && height < i && q[Slot(i)].Some? && q[Slot(i)].value.index >= i
    ensures Queued(q, i)
  {
    if q[Slot(i)].value.index > i { SameSlot(i, q[Slot(i)].value.index); }
  }

  lemma DeliveredIsKept(s: State, a: Action, i: nat)
    requires Good(s) && Enabled(s, a) && Delivers(s, a, i)
    ensures Kept(Next(s, a), i)
  {
    hide Put;
    StoreQueues(s, a.p);
    StepKeepsGood(s, a);
    var t := Next(s, a);
    if i > t.height { SlotOfFuture(t.slots, t.height, i); }
  }

  /** A queued block above the chain stays until the chain has it. */
  lemma KeptStays(s: State, a: Action, i: nat)
    requires Good(s) && Prompt(s) && Enabled(s, a) && !a.OtherBlock? && Honest(s, a) && Kept(s, i)
    ensures Kept(Next(s, a), i)
  {
    hide Sweep, Put, Current;
    if i > s.height {
      match a
      case Store(p) =>
        var r := s.producers[p];
        if Put(s.slots, r.b, r.h)[Slot(i)] != s.slots[Slot(i)] { PutDisplacesOnlyOld(s.slots, r.b, r.h, Slot(i)); }
      case TakeNext => SweepClearsNothing(s.slots, s.lastHeight, s.consumer.h);
      case _ =>
    }
  }

  lemma {:induction false} DeliveredStays(s: State, actions: seq<Action>, i: nat)
    requires Good(s) && Prompt(s) && Possible(s, actions) && OnlyQueueGrows(actions) && HonestRun(s, actions)
    requires Kept(s, i) || Delivered(s, actions, i)
    ensures Kept(RunAll(s, actions), i) && Attended(RunAll(s, actions)) && s.height <= RunAll(s, actions).height
    decreases |actions|
  {
    hide Good, Next, Kept, Delivers;
    if actions != [] {
      var a := actions[0];
      StepKeepsGood(s, a);
      StepKeepsPrompt(s, a);
      if Kept(s, i) { KeptStays(s, a, i); } else if Delivers(s, a, i) { DeliveredIsKept(s, a, i); }
      DeliveredStays(Next(s, a), actions[1..], i);
    }
  }

  /** The chain has reached index i, or its block is in the queue or in the consumer's hands. */
  predicate Present(s: State, i: nat) { Kept(s, i) || (s.consumer.Holds? && s.consumer.b.index == i) }

  lemma NothingFromNowhere(s: State, a: Action, i: nat)
    requires Good(s) && Enabled(s, a) && !a.OtherBlock? && Present(Next(s, a), i)
    ensures Present(s, i) || Delivers(s, a, i)
  {
    hide Sweep;
    match a
    case TakeNext => SweepClearsNothing(s.slots, s.lastHeight, s.consumer.h);
    case _ =>
  }

  lemma {:induction false} OnlyDelivered(s: State, actions: seq<Action>, i: nat)
    requires Good(s) && Possible(s, actions) && OnlyQueueGrows(actions) && Present(RunAll(s, actions), i)
    ensures Present(s, i) || Delivered(s, actions, i)
    decreases |actions|
  {
    hide Good, Next, Present, Delivers;
    if actions != [] {
      StepKeepsGood(s, actions[0]);
      OnlyDelivered(Next(s, actions[0]), actions[1..], i);
      if Present(Next(s, actions[0]), i) { NothingFromNowhere(s, actions[0], i); }
    }
  }

  /** The consumer waits and no signal is on its way. */
  predicate Resting(s: State) { s.consumer.Waiting? && !Signalled(s) }

  /**
   * When only the queue grows the chain: whenever the queue has come to rest, in whatever interleaving, the chain has
   * reached height + n exactly if all of the n blocks above height have been put into the queue.
   */
  lemma QueueAdvancesChain(height: nat, actions: seq<Action>, n: nat)
    requires Possible(Start(height), actions) && OnlyQueueGrows(actions) && HonestRun(Start(height), actions)
    requires Resting(RunAll(Start(height), actions))
    ensures RunAll(Start(height), actions).height >= height + n <==>
            forall i :: height < i <= height + n ==> Delivered(Start(height), actions, i)
  {
    hide Good, Next, RunAll, Possible, Delivered, HonestRun;
    var s0 := Start(height);
    var s := RunAll(s0, actions);
    StartIsGood(height);
    if s.height >= height + n {
      forall i | height < i <= height + n ensures Delivered(s0, actions, i) {
        OnlyDelivered(s0, actions, i);
        NothingQueued(height, i);
      }
    } else {
      DeliveredStays(s0, actions, height);
      var i := s.height + 1;
      if Delivered(s0, actions, i) { DeliveredStays(s0, actions, i); }
      assert height < i <= height + n && !Delivered(s0, actions, i);
    }
  }

  lemma NothingQueued(height: nat, i: nat)
    requires i > height
    ensures !Present(Start(height), i)
  {}

  // ----- the queue can always come to rest -----

  function Occupied(q: Slots): set<nat> { set i | 0 <= i < BLOCK_CACHE_SIZE && q[i].Some? }

  /** The slot that the consumer will release still holds its block. */
  predicate Holding(s: State) {
    (s.consumer.Holds? || s.consumer.Tried?) && s.slots[Slot(s.consumer.h + 1)] == Some(s.consumer.b)
  }

  /** Steps that the consumer makes by itself, weighted so that each one lowers the sum. */
  function Work(s: State): int {
    10 * |Occupied(s.slots)| + (if s.token then 5 else 0)
    + match s.consumer
      case Waiting => 0
      case Looking => 3
      case HasHeight(_) => 2
      case Holds(_, _) => if Holding(s) then -5 else 5
      case Tried(_, _) => if Holding(s) then -6 else 4
  }

  lemma WorkIsNatural(s: State)
    ensures Work(s) >= 0
  {
    if Holding(s) { assert Slot(s.consumer.h + 1) in Occupied(s.slots); }
  }

  lemma ReleaseEmpties(q: Slots, pos: nat)
    requires pos < BLOCK_CACHE_SIZE && q[pos].Some?
    ensures |Occupied(q[pos := None])| == |Occupied(q)| - 1
  {
    assert pos in Occupied(q);
    assert Occupied(q[pos := None]) == Occupied(q) - {pos};
  }

  /** What the consumer does next. */
  function ConsumerStep(s: State): Action {
    match s.consumer
    case Waiting => Wake
    case Looking => ReadHeight
    case HasHeight(_) => TakeNext
    case Holds(_, b) => AddBlock(b.index == s.height + 1)
    case Tried(_, _) => ReleaseSlot
  }

  lemma ConsumerWorks(s: State)
    requires Good(s) && !(s.consumer.Waiting? && !s.token)
    ensures Enabled(s, ConsumerStep(s)) && Honest(s, ConsumerStep(s))
    ensures var t := Next(s, ConsumerStep(s)); Work(t) < Work(s) && t.producers == s.producers
  {
    hide Sweep, Occupied;
    match s.consumer
    case HasHeight(h) => SweepClearsNothing(s.slots, s.lastHeight, h);
    case Tried(h, b) => if Holding(s) { ReleaseEmpties(s.slots, Slot(h + 1)); }
    case _ =>
  }

  function Pending(ps: seq<Producer>): nat {
    if ps == [] then 0 else (if ps[0].Read? then 2 else 1) + Pending(ps[1..])
  }

  function ProducerStep(s: State): Action
    requires s.producers != []
  {
    if s.producers[0].Read? then Store(0) else Signal(0)
  }

  lemma ProducerWorks(s: State)
    requires s.producers != []
    ensures Enabled(s, ProducerStep(s)) && Honest(s, ProducerStep(s))
    ensures Pending(Next(s, ProducerStep(s)).producers) < Pending(s.producers)
  {
    hide Put;
    var t := Next(s, ProducerStep(s));
    assert Remove(s.producers, 0) == s.producers[1..];
    if t.producers != s.producers[1..] { assert t.producers[1..] == s.producers[1..]; }
  }

  /** Without new blocks, from every state there is a way on until the queue rests with every pending call over. */
  lemma {:induction false} ComesToRest(s: State) returns (actions: seq<Action>)
    requires Good(s)
    ensures Possible(s, actions) && OnlyQueueGrows(actions) && HonestRun(s, actions)
    ensures Resting(RunAll(s, actions)) && RunAll(s, actions).producers == []
    ensures forall i :: 0 <= i < |actions| ==> !actions[i].Begin?
    decreases Pending(s.producers), Work(s)
  {
    hide Good, Next, Work, Pending, Enabled, Honest;
    WorkIsNatural(s);
    if s.producers == [] && s.consumer.Waiting? && !s.token {
      actions := [];
    } else {
      var a := if s.producers != [] then ProducerStep(s) else ConsumerStep(s);
      if s.producers != [] { ProducerWorks(s); } else { ConsumerWorks(s); }
      StepKeepsGood(s, a);
      WorkIsNatural(Next(s, a));
      var rest := ComesToRest(Next(s, a));
      actions := [a] + rest;
      assert actions[1..] == rest;
    }
  }

  // ----- what the chain growing by itself can do -----

  lemma OneMore(s: State, a: Action, rest: seq<Action>)
    requires Enabled(s, a) && Possible(Next(s, a), rest)
    ensures Possible(s, [a] + rest) && RunAll(s, [a] + rest) == RunAll(Next(s, a), rest)
  {
    hide Next, Enabled;
    assert ([a] + rest)[1..] == rest;
  }

  /** The consumer has read the height with one given block queued. */
  function Woken(b: Block, rest: seq<Action>): seq<Action> {
    [Begin(b)] + ([Store(0)] + ([Signal(0)] + ([Wake] + ([ReadHeight] + rest))))
  }

  function AfterWaking(b: Block): State
    requires Accepts(b, 0)
  {
    State(0, Put(Start(0).slots, b, 0), false, 0, HasHeight(0), [])
  }

  lemma WokenRuns(b: Block, rest: seq<Action>)
    requires Accepts(b, 0) && Possible(AfterWaking(b), rest)
    ensures Possible(Start(0), Woken(b, rest)) && RunAll(Start(0), Woken(b, rest)) == RunAll(AfterWaking(b), rest)
  {
    hide Put;
    var s0 := Start(0);
    var s1 := Next(s0, Begin(b));
    var s2 := Next(s1, Store(0));
    var s3 := Next(s2, Signal(0));
    var s4 := Next(s3, Wake);
    assert Next(s4, ReadHeight) == AfterWaking(b);
    OneMore(s4, ReadHeight, rest);
    OneMore(s3, Wake, [ReadHeight] + rest);
    OneMore(s2, Signal(0), [Wake] + ([ReadHeight] + rest));
    OneMore(s1, Store(0), [Signal(0)] + ([Wake] + ([ReadHeight] + rest)));
    OneMore(s0, Begin(b), [Store(0)] + ([Signal(0)] + ([Wake] + ([ReadHeight] + rest))));
  }

  /** With blocks from elsewhere a wake-up can be lost: the next block is queued and nobody will look for it. */
  lemma WakeUpLostOtherwise()
    ensures var actions := Woken(Block(2, 0), [OtherBlock] + ([TakeNext] + []));
            Possible(Start(0), actions) && NextQueued(RunAll(Start(0), actions)) && !WillLook(RunAll(Start(0), actions))
  {
    var s5 := AfterWaking(Block(2, 0));
    var s6 := Next(s5, OtherBlock);
    assert Sweep(s6.slots, 0, 0) == s6.slots;
    var s7 := Next(s6, TakeNext);
    assert RunAll(s7, []) == s7;
    OneMore(s6, TakeNext, []);
    OneMore(s5, OtherBlock, [TakeNext] + []);
    WokenRuns(Block(2, 0), [OtherBlock] + ([TakeNext] + []));
  }

  /** A far block is stored, taken, refused by the chain and released. */
  function FarRun(far: Block): seq<Action> {
    [OtherBlock] + ([Begin(far)] + ([Store(0)] + ([TakeNext] + ([AddBlock(false)] + ([ReleaseSlot] + [])))))
  }

  /** And a block a whole ring ahead can be taken, refused by the chain and dropped from the queue. */
  lemma FarBlockDropped()
    ensures var far := Block(2001, 1);
            var actions := Woken(Block(5, 0), FarRun(far));
            && Possible(Start(0), actions)
            && var s := RunAll(Start(0), actions);
               s.height + 1 < far.index && Accepts(far, s.height) && s.slots[Slot(far.index)].None?
  {
    var far := Block(2001, 1);
    var s5 := AfterWaking(Block(5, 0));
    var s6 := Next(s5, OtherBlock);
    var s7 := Next(s6, Begin(far));
    var s8 := Next(s7, Store(0));
    assert s8.slots[1] == Some(far);
    assert Sweep(s8.slots, 0, 0) == s8.slots;
    var s9 := Next(s8, TakeNext);
    var s10 := Next(s9, AddBlock(false));
    var s11 := Next(s10, ReleaseSlot);
    assert s11.height == 1 && s11.slots[1].None?;
    assert RunAll(s11, []) == s11;
    OneMore(s10, ReleaseSlot, []);
    OneMore(s9, AddBlock(false), [ReleaseSlot] + []);
    OneMore(s8, TakeNext, [AddBlock(false)] + ([ReleaseSlot] + []));
    OneMore(s7, Store(0), [TakeNext] + ([AddBlock(false)] + ([ReleaseSlot] + [])));
    OneMore(s6, Begin(far), [Store(0)] + ([TakeNext] + ([AddBlock(false)] + ([ReleaseSlot] + []))));
    OneMore(s5, OtherBlock, [Begin(far)] + ([Store(0)] + ([TakeNext] + ([AddBlock(false)] + ([ReleaseSlot] + [])))));
    WokenRuns(Block(5, 0), FarRun(far));
  }
}
