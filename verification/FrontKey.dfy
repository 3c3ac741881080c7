/** The per-user front key: kept in the store, checked with LiteLLM before it is handed out, discarded when LiteLLM
    rejects it, and minted under a lock that expires. This machine is one user's key and lock; any number of calls
    interleave, one store verb or LiteLLM call per step. */
module FrontKey {
  import opened Prelude
  import opened DeadlineMap

  type Key = nat

  const MINT_LOCK_TTL: nat := 10

  /** Where a call of `resolve_front_key` is. Inside the lock, `until` is the lock's deadline when it was taken. */
  datatype Call =
    | Reading
    | Checking(key: Key)
    | Discarding
    | Locking
    | Waiting
    | Rereading(until: Time)
    | Minting(until: Time)
    | Storing(key: Key, until: Time)
    | Releasing(result: Option<Key>, until: Time)
    | Returned(key: Key)
    | InProgress
    | Unavailable

  /** The store's two entries, the calls under way, and history: keys ever stored, calls that saw LiteLLM reject
      their key, calls that discarded one. */
  datatype State = State(
    now: Time,
    key: Option<Key>,
    lock: Option<Time>,
    calls: map<nat, Call>,
    drawn: set<Key>,
    stored: set<Key>,
    rejections: set<nat>,
    discards: set<nat>)

  datatype Label =
    | Tick(to: Time)
    | Start(c: nat)
    | Read(c: nat)
    | Probe(c: nat, rejected: bool)
    | Discard(c: nat)
    | Acquire(c: nat)
    | WaitThenRead(c: nat)
    | Reread(c: nat)
    | Mint(c: nat, minted: Option<Key>)
    | Store(c: nat)
    | Release(c: nat)

  function Init(now: Time): State {
    State(now, None, None, map[], {}, {}, {}, {})
  }

  function At(s: State, c: nat): Call {
    if c in s.calls then s.calls[c] else Unavailable
  }

  function Goto(s: State, c: nat, pc: Call): State {
    s.(calls := s.calls[c := pc])
  }

  predicate LockHeld(s: State) {
    s.lock.Some? && s.now < s.lock.value
  }

  function Next(s: State, l: Label): State {
    match l
    case Tick(to) => if s.now <= to then s.(now := to) else s
    case Start(c) => if c in s.calls then s else Goto(s, c, Reading)
    case Read(c) => (
      match At(s, c)
      case Reading => Goto(s, c, if s.key.Some? then Checking(s.key.value) else Locking)
      case _ => s)
    case Probe(c, rejected) => (
      match At(s, c)
      case Checking(key) =>
        var seen := s.(rejections := if rejected then s.rejections + {c} else s.rejections);
        if rejected then Goto(seen, c, Discarding) else Goto(seen, c, Returned(key))
      case _ => s)
    case Discard(c) => (
      match At(s, c)
      case Discarding =>
        Goto(s, c, Locking).(key := None, discards := if s.key.Some? then s.discards + {c} else s.discards)
      case _ => s)
    case Acquire(c) => (
      match At(s, c)
      case Locking =>
        if LockHeld(s) then Goto(s, c, Waiting)
        else
          var until := s.now + MINT_LOCK_TTL as Time;
          Goto(s, c, Rereading(until)).(lock := Some(until))
      case _ => s)
    case WaitThenRead(c) => (
      match At(s, c)
      case Waiting => Goto(s, c, if s.key.Some? then Returned(s.key.value) else InProgress)
      case _ => s)
    case Reread(c) => (
      match At(s, c)
      case Rereading(until) => Goto(s, c, if s.key.Some? then Releasing(s.key, until) else Minting(until))
      case _ => s)
    case Mint(c, minted) => (
      match At(s, c)
      case Minting(until) => (
        match minted
        case Some(key) => if key in s.drawn then s else Goto(s, c, Storing(key, until)).(drawn := s.drawn + {key})
        case None => Goto(s, c, Releasing(None, until)))
      case _ => s)
    case Store(c) => (
      match At(s, c)
      case Storing(key, until) => Goto(s, c, Releasing(Some(key), until)).(key := Some(key), stored := s.stored + {key})
      case _ => s)
    case Release(c) => (
      match At(s, c)
      case Releasing(result, _) =>
        Goto(s, c, if result.Some? then Returned(result.value) else Unavailable).(lock := None)
      case _ => s)
  }

  function Exec(s: State, run: seq<Label>): State
    decreases |run|
  {
    if run == [] then s else Exec(Next(s, run[0]), run[1..])
  }

  predicate Inside(pc: Call) {
    pc.Rereading? || pc.Minting? || pc.Storing? || pc.Releasing?
  }

  /** Every lock holder is still inside its lock's lifetime. */
  ghost predicate Timely(s: State) {
    forall c :: c in s.calls && Inside(s.calls[c]) ==> s.now < s.calls[c].until
  }

  ghost predicate AlwaysTimely(s: State, run: seq<Label>)
    decreases |run|
  {
    Timely(s) && (run == [] || AlwaysTimely(Next(s, run[0]), run[1..]))
  }

  /** Lock holders exclude each other and hold the lock that is on file; nothing is stored while one mints. */
  ghost predicate Exclusive(s: State) {
    && (forall a, b :: a in s.calls && b in s.calls && Inside(s.calls[a]) && Inside(s.calls[b]) ==> a == b)
    && (forall c :: c in s.calls && Inside(s.calls[c]) ==> s.lock == Some(s.calls[c].until))
    && (forall c :: c in s.calls && (s.calls[c].Minting? || s.calls[c].Storing?) ==> s.key.None?)
  }

  /** Keys in circulation were stored once; each call rejects and discards at most once, in that order. */
  ghost predicate CallOk(s: State, c: nat, pc: Call) {
    match pc
    case Reading => c !in s.rejections && c !in s.discards
    case Checking(key) => key in s.stored && c !in s.rejections && c !in s.discards
    case Discarding => c in s.rejections && c !in s.discards
    case Storing(key, _) => key in s.drawn && key !in s.stored
    case Releasing(result, _) => result.Some? ==> result.value in s.stored
    case Returned(key) => key in s.stored
    case _ => true
  }

  ghost predicate Tallied(s: State) {
    && (s.key.Some? ==> s.key.value in s.stored)
    && s.stored <= s.drawn
    && (forall c :: c in s.calls ==> CallOk(s, c, s.calls[c]))
    && s.discards <= s.rejections <= s.calls.Keys
  }

  /** Keys stored = keys discarded + the one on file. */
  ghost predicate Conserved(s: State) {
    |s.stored| == |s.discards| + (if s.key.Some? then 1 else 0)
  }

  lemma StepKeepsExclusive(s: State, l: Label)
    requires Exclusive(s) && Timely(s)
    ensures Exclusive(Next(s, l))
  {
    match l
    case Acquire(c) => AcquireKeepsExclusive(s, c);
    case Reread(_) => InsideStepKeepsExclusive(s, l);
    case Mint(_, _) => InsideStepKeepsExclusive(s, l);
    case Store(_) => InsideStepKeepsExclusive(s, l);
    case Release(_) => InsideStepKeepsExclusive(s, l);
    case _ => OutsideStepKeepsExclusive(s, l);
  }

  lemma AcquireKeepsExclusive(s: State, c: nat)
    requires Exclusive(s) && Timely(s)
    ensures Exclusive(Next(s, Acquire(c)))
  {
    InsideMeansHeld(s);
  }

  lemma InsideStepKeepsExclusive(s: State, l: Label)
    requires (l.Reread? || l.Mint? || l.Store? || l.Release?) && Exclusive(s)
    ensures Exclusive(Next(s, l))
  {
  }

  lemma OutsideStepKeepsExclusive(s: State, l: Label)
    requires !(l.Acquire? || l.Reread? || l.Mint? || l.Store? || l.Release?) && Exclusive(s)
    ensures Exclusive(Next(s, l))
  {
  }

  lemma InsideMeansHeld(s: State)
    requires Exclusive(s) && Timely(s)
    ensures forall c :: c in s.calls && Inside(s.calls[c]) ==> LockHeld(s)
  {
  }

  lemma StepKeepsTallied(s: State, l: Label)
    requires Exclusive(s) && Tallied(s)
    ensures Tallied(Next(s, l))
  {
    match l
    case Store(c) => StoreKeepsTallied(s, c);
    case Mint(c, minted) => MintKeepsTallied(s, c, minted);
    case Probe(c, rejected) => ProbeKeepsTallied(s, c, rejected);
    case Discard(c) => DiscardKeepsTallied(s, c);
    case _ =>
  }

  lemma ProbeKeepsTallied(s: State, c: nat, rejected: bool)
    requires Tallied(s)
    ensures Tallied(Next(s, Probe(c, rejected)))
  {
  }

  lemma DiscardKeepsTallied(s: State, c: nat)
    requires Tallied(s)
    ensures Tallied(Next(s, Discard(c)))
  {
  }

  lemma StoreKeepsTallied(s: State, c: nat)
    requires Exclusive(s) && Tallied(s)
    ensures Tallied(Next(s, Store(c)))
  {
  }

  lemma MintKeepsTallied(s: State, c: nat, minted: Option<Key>)
    requires Tallied(s)
    ensures Tallied(Next(s, Mint(c, minted)))
  {
  }

  lemma StepKeepsConserved(s: State, l: Label)
    requires Exclusive(s) && Tallied(s) && Conserved(s)
    ensures Conserved(Next(s, l))
  {
    match l
    case Store(c) => StoreKeepsConserved(s, c);
    case Discard(c) => DiscardKeepsConserved(s, c);
    case _ =>
  }

  lemma StoreKeepsConserved(s: State, c: nat)
    requires Exclusive(s) && Tallied(s) && Conserved(s)
    ensures Conserved(Next(s, Store(c)))
  {
    assert c in s.calls ==> CallOk(s, c, s.calls[c]);
  }

  lemma DiscardKeepsConserved(s: State, c: nat)
    requires Tallied(s) && Conserved(s)
    ensures Conserved(Next(s, Discard(c)))
  {
    assert c in s.calls ==> CallOk(s, c, s.calls[c]);
  }

  lemma {:induction false} RunKeepsAll(s: State, run: seq<Label>)
    requires Exclusive(s) && Tallied(s) && Conserved(s) && AlwaysTimely(s, run)
    ensures Exclusive(Exec(s, run)) && Tallied(Exec(s, run)) && Conserved(Exec(s, run))
    decreases |run|
  {
    if run != [] {
      StepKeepsExclusive(s, run[0]);
      StepKeepsTallied(s, run[0]);
      StepKeepsConserved(s, run[0]);
      RunKeepsAll(Next(s, run[0]), run[1..]);
    }
  }

  lemma SubsetSize<T>(a: set<T>, b: set<T>)
    requires a <= b
    ensures |a| <= |b|
  {
    if a != {} {
      var x :| x in a;
      SubsetSize(a - {x}, b - {x});
    }
  }

  lemma SingletonMembers<T>(s: set<T>, x: T, y: T)
    requires |s| <= 1 && x in s && y in s
    ensures x == y
  {
    if x != y {
      SubsetSize({x, y}, s);
    }
  }

  /** While every lock holder finishes inside the lock's lifetime, in every interleaving: mints exclude each other;
      keys stored are keys discarded plus the one on file; at most one key is stored more than LiteLLM rejections
      were seen; and without a rejection every call that returns a key returns the same one. */
  lemma KeysAreConserved(now: Time, run: seq<Label>)
    requires AlwaysTimely(Init(now), run)
    ensures var s := Exec(Init(now), run);
            && Exclusive(s)
            && |s.stored| == |s.discards| + (if s.key.Some? then 1 else 0)
            && |s.stored| <= 1 + |s.rejections|
            && (s.rejections == {} ==>
                  forall a, b :: a in s.calls && b in s.calls && s.calls[a].Returned? && s.calls[b].Returned? ==>
                    s.calls[a] == s.calls[b])
  {
    var s := Exec(Init(now), run);
    RunKeepsAll(Init(now), run);
    SubsetSize(s.discards, s.rejections);
    if s.rejections == {} {
      assert s.discards == {};
      forall a, b | a in s.calls && b in s.calls && s.calls[a].Returned? && s.calls[b].Returned?
        ensures s.calls[a] == s.calls[b]
      {
        assert CallOk(s, a, s.calls[a]) && CallOk(s, b, s.calls[b]);
        SingletonMembers(s.stored, s.calls[a].key, s.calls[b].key);
      }
    }
  }

  /** A call on its own up to the lock: its look at the store, the probe of the key and the discard. */
  function Looked(s: State, c: nat, rejected: bool): State {
    Next(Next(Next(Next(s, Start(c)), Read(c)), Probe(c, rejected)), Discard(c))
  }

  /** The key on file is returned if LiteLLM does not reject it; a rejected one is taken off the file. */
  lemma TheProbeDecides(s: State, c: nat, rejected: bool)
    requires c !in s.calls
    ensures var t := Looked(s, c, rejected);
            && t.lock == s.lock && t.now == s.now && t.drawn == s.drawn && t.stored == s.stored
            && (s.key.Some? && !rejected ==> At(t, c) == Returned(s.key.value) && t.key == s.key && t.discards == s.discards)
            && (s.key.None? || rejected ==> At(t, c) == Locking && t.key.None?
                                            && t.discards == if s.key.Some? then s.discards + {c} else s.discards)
  {
    var s2 := Next(Next(s, Start(c)), Read(c));
    assert At(s2, c) == if s.key.Some? then Checking(s.key.value) else Locking;
    var s3 := Next(s2, Probe(c, rejected));
    assert At(s3, c) == if s.key.None? then Locking else if rejected then Discarding else Returned(s.key.value);
  }

  /** A call that does not get the lock waits and then returns what is on file. */
  lemma WithoutTheLock(s: State, c: nat)
    requires At(s, c).Locking? && LockHeld(s)
    ensures var t := Next(Next(s, Acquire(c)), WaitThenRead(c));
            && At(t, c) == (if s.key.Some? then Returned(s.key.value) else InProgress)
            && t.key == s.key && t.stored == s.stored && t.lock == s.lock
  {
  }

  /** The lock, the second look, the mint, the store and the release. */
  function Minted(s: State, c: nat, minted: Option<Key>): State {
    Next(Next(Next(Next(Next(s, Acquire(c)), Reread(c)), Mint(c, minted)), Store(c)), Release(c))
  }

  /** A call that gets the lock and finds a key on file returns that. */
  lemma WithTheLockAndAKey(s: State, c: nat, minted: Option<Key>)
    requires At(s, c).Locking? && !LockHeld(s) && s.key.Some?
    ensures var t := Minted(s, c, minted);
            At(t, c) == Returned(s.key.value) && t.key == s.key && t.stored == s.stored && t.lock.None?
  {
    var s1 := Next(s, Acquire(c));
    var s2 := Next(s1, Reread(c));
    assert At(s2, c) == Releasing(s.key, s.now + MINT_LOCK_TTL as Time);
    assert Next(Next(s2, Mint(c, minted)), Store(c)) == s2;
  }

  /** A call that gets the lock and finds none returns the key it mints, which is then on file, or fails with the mint. */
  lemma WithTheLockAlone(s: State, c: nat, minted: Option<Key>)
    requires At(s, c).Locking? && !LockHeld(s) && s.key.None? && (minted.Some? ==> minted.value !in s.drawn)
    ensures var t := Minted(s, c, minted);
            && t.lock.None? && t.key == minted
            && At(t, c) == (if minted.Some? then Returned(minted.value) else Unavailable)
            && t.stored == (if minted.Some? then s.stored + {minted.value} else s.stored)
  {
    var until := s.now + MINT_LOCK_TTL as Time;
    var held := Next(s, Acquire(c));
    assert held == Goto(s, c, Rereading(until)).(lock := Some(until));
    var s2 := Next(held, Reread(c));
    assert At(s2, c) == Minting(until) && s2.key.None? && s2.stored == s.stored && s2.drawn == s.drawn;
    TheMintDecides(s2, c, minted, until);
  }

  lemma TheMintDecides(s: State, c: nat, minted: Option<Key>, until: Time)
    requires At(s, c) == Minting(until) && s.key.None? && (minted.Some? ==> minted.value !in s.drawn)
    ensures var t := Next(Next(Next(s, Mint(c, minted)), Store(c)), Release(c));
            && t.lock.None? && t.key == minted
            && At(t, c) == (if minted.Some? then Returned(minted.value) else Unavailable)
            && t.stored == (if minted.Some? then s.stored + {minted.value} else s.stored)
  {
    var s3 := Next(s, Mint(c, minted));
    assert At(s3, c) == if minted.Some? then Storing(minted.value, until) else Releasing(None, until);
    assert At(Next(s3, Store(c)), c) == Releasing(minted, until);
  }

  /** The lock lasts ten seconds unless it is released. */
  lemma TheLockLasts(s: State, c: nat, later: Time)
    requires At(s, c).Locking? && !LockHeld(s)
    ensures var t := Next(s, Acquire(c)); LockHeld(t.(now := later)) <==> later < s.now + 10.0
  {
  }

  /** The lifetime hypothesis is needed: a holder that outlives its lock and a second one store a key each, without
      any rejection, and the first overwrites the second's. */
  lemma AHolderThatOutlivesItsLockLosesAKey(s: State, slow: nat, quick: nat, other: Key)
    requires At(s, slow).Storing? && s.key.None? && At(s, slow).key in s.drawn
    requires At(s, quick).Locking? && !LockHeld(s)
    requires other !in s.drawn
    ensures var t := Next(Next(Next(Next(Next(s, Acquire(quick)), Reread(quick)), Mint(quick, Some(other))), Store(quick)), Store(slow));
            && t.stored == s.stored + {other, At(s, slow).key}
            && t.key == Some(At(s, slow).key) && other != At(s, slow).key
            && t.discards == s.discards && t.rejections == s.rejections
            && At(t, quick).Releasing? && At(t, quick).result == Some(other)
  {
    var t1 := Next(s, Acquire(quick));
    var t2 := Next(t1, Reread(quick));
    assert At(t2, quick).Minting?;
    var t3 := Next(t2, Mint(quick, Some(other)));
    var t4 := Next(t3, Store(quick));
    assert At(t4, slow) == At(s, slow);
  }
}

/** The same call run alone against the in-memory store. */
module FrontKeyCall {
  import opened Prelude
  import opened DeadlineMap
  import opened MemoryStores
  import FrontKey

  const KEY_KIND := "frontkey"

  datatype Reply = Key(key: string) | MintInProgress | KeyUnavailable

  function KeySlot(sub: string): Slot { Slot(KEY_KIND, sub) }

  function LockSlot(sub: string): Slot { Slot(LOCK_KIND, "mint:" + sub) }

  /** What LiteLLM answers while the call runs: whether it positively rejects the stored key, and what a mint yields. */
  datatype LiteLLM = LiteLLM(rejects: bool, minted: Option<string>)

  /** The user's key on file when the call is past its own check of it. */
  function OnFile(log: seq<Effect<string>>, sub: string, now: Time, net: LiteLLM): Option<string> {
    if net.rejects then None else Owed(log, KeySlot(sub), now)
  }

  function Found(record: Option<string>, otherwise: Reply): Reply {
    match record
    case Some(key) => Key(key)
    case None => otherwise
  }

  lemma {:induction false} OtherSlotsUnmoved<V>(log: seq<Effect<V>>, e: Effect<V>, slot: Slot)
    requires e.slot != slot
    ensures LastCell(log + [e], slot) == LastCell(log, slot)
  {
    assert (log + [e])[..|log|] == log;
  }

  /** What is not owed is not owed later, as long as nothing is written. */
  lemma NotOwedLater<V>(log: seq<Effect<V>>, slot: Slot, now: Time, later: Time)
    requires Owed(log, slot, now).None? && now <= later
    ensures Owed(log, slot, later).None?
  {
  }

  /** When the call reads the clock: at its first look, when it drops a rejected key, at the lock, for the lock's deadline, at its second look (after
      the wait, if it did not get the lock), and when it stores a key. */
  datatype Clock = Clock(look: Time, drop: Time, lock: Time, taken: Time, again: Time, store: Time)

  predicate Forward(c: Clock) { c.look <= c.drop <= c.lock <= c.taken <= c.again <= c.store }

  /** Undisturbed, a call returns the key on file unless LiteLLM rejects it; otherwise it mints one, stores it for
      good and leaves the lock free; it answers "in progress" exactly when another holds the lock, and "unavailable"
      exactly when the mint fails. */
  method ResolveFrontKey(store: MemoryStore<string>, sub: string, net: LiteLLM, clock: Clock) returns (reply: Reply)
    requires store.Valid() && store.clock <= clock.look && Forward(clock)
    modifies store
    ensures store.Valid()
    ensures var onFile := OnFile(old(store.log), sub, clock.look, net);
            var locked := Owed(old(store.log), LockSlot(sub), clock.lock).Some?;
            && (onFile.Some? ==> reply == Key(onFile.value) && store.log == old(store.log))
            && (onFile.None? && locked ==>
                  reply == MintInProgress && LastCell(store.log, LockSlot(sub)) == LastCell(old(store.log), LockSlot(sub)))
            && (onFile.None? && !locked ==>
                  && reply == (if net.minted.Some? then Key(net.minted.value) else KeyUnavailable)
                  && (net.minted.None? ==> Owed(store.log, KeySlot(sub), clock.again) == None)
                  && (net.minted.Some? ==> LastCell(store.log, KeySlot(sub)) == Some(Cell(net.minted.value, None)))
                  && LastCell(store.log, LockSlot(sub)) == None)
  {
    var record := store.Get(KEY_KIND, sub, clock.look);
    if record.Some? {
      if !net.rejects {
        return Key(record.value);
      }
      var _ := store.Pop(KEY_KIND, sub, clock.drop);
      OtherSlotsUnmoved(old(store.log), Cleared(KeySlot(sub)), LockSlot(sub));
    }
    ghost var log0 := store.log;
    NotOwedLater(log0, KeySlot(sub), clock.look, clock.again);
    var taken := store.Acquire("mint:" + sub, FrontKey.MINT_LOCK_TTL, clock.lock, clock.taken);
    if !taken {
      record := store.Get(KEY_KIND, sub, clock.again);
      return Found(record, MintInProgress);
    }
    ghost var lockWritten: Effect<string> := Wrote(LockSlot(sub), store.emptyValue, Deadline(clock.taken, Some(FrontKey.MINT_LOCK_TTL)));
    OtherSlotsUnmoved(log0, lockWritten, KeySlot(sub));
    record := store.Get(KEY_KIND, sub, clock.again);
    if record.Some? {
      reply := Found(record, KeyUnavailable);
    } else if net.minted.None? {
      reply := KeyUnavailable;
    } else {
      store.Put(KEY_KIND, sub, net.minted.value, None, clock.store);
      reply := Key(net.minted.value);
    }
    ghost var log1 := store.log;
    store.Release("mint:" + sub);
    OtherSlotsUnmoved(log1, Cleared(LockSlot(sub)), KeySlot(sub));
  }
}
