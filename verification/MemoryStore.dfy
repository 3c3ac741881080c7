/** A map whose entries carry deadlines, as the authorization server's protocols see it. */
module DeadlineMap {
  import opened Prelude

  type Time = real

  /** A stored value and the instant it stops being visible; `None` means never. */
  datatype Cell<+V> = Cell(value: V, deadline: Option<Time>)

  predicate Live<V>(c: Cell<V>, now: Time) {
    c.deadline.None? || now < c.deadline.value
  }

  function Deadline(now: Time, ttl: Option<nat>): Option<Time> {
    match ttl
    case None => None
    case Some(seconds) => Some(now + seconds as Time)
  }

  /** What `get` and `pop` answer at `now`. */
  function Lookup<K, V>(m: map<K, Cell<V>>, k: K, now: Time): Option<V> {
    if k in m && Live(m[k], now) then Some(m[k].value) else None
  }
}

/** The in-memory key/value store, which purges a kind's dead entries only when that kind is read. */
module MemoryStores {
  import opened Prelude
  import opened DeadlineMap

  datatype Slot = Slot(kind: string, name: string)

  const LOCK_KIND := "lock"

  /** One effect on the store: a value written under a deadline, or a slot emptied. */
  datatype Effect<+V> =
    | Wrote(slot: Slot, value: V, deadline: Option<Time>)
    | Cleared(slot: Slot)

  /** The cell left in `slot` by the last effect on it. */
  function LastCell<V>(log: seq<Effect<V>>, slot: Slot): Option<Cell<V>> {
    if log == [] then None
    else
      var e := log[|log| - 1];
      if e.slot != slot then LastCell(log[..|log| - 1], slot)
      else match e
        case Wrote(_, value, deadline) => Some(Cell(value, deadline))
        case Cleared(_) => None
  }

  /** The value a reader of `slot` is owed at `now` after the effects in `log`. */
  function Owed<V>(log: seq<Effect<V>>, slot: Slot, now: Time): Option<V> {
    match LastCell(log, slot)
    case Some(c) => if Live(c, now) then Some(c.value) else None
    case None => None
  }

  /** Effect `i` is a write to `slot`, still live at `now`, that nothing later touched. */
  ghost predicate LastLiveWrite<V>(log: seq<Effect<V>>, slot: Slot, now: Time, i: nat) {
    && i < |log|
    && log[i].slot == slot
    && log[i].Wrote?
    && (log[i].deadline.None? || now < log[i].deadline.value)
    && (forall j :: i < j < |log| ==> log[j].slot != slot)
  }

  /** A reader gets exactly the last write that is neither removed nor expired. */
  lemma {:induction false} OwedIsTheLastLiveWrite<V>(log: seq<Effect<V>>, slot: Slot, now: Time)
    ensures Owed(log, slot, now).Some? <==> exists i: nat :: LastLiveWrite(log, slot, now, i)
    ensures forall i: nat :: LastLiveWrite(log, slot, now, i) ==> Owed(log, slot, now) == Some(log[i].value)
  {
    if log != [] {
      var last := |log| - 1;
      var front := log[..last];
      if log[last].slot != slot {
        OwedIsTheLastLiveWrite(front, slot, now);
        assert forall i: nat :: LastLiveWrite(log, slot, now, i) <==> LastLiveWrite(front, slot, now, i);
      } else if log[last].Wrote? && Live(Cell(log[last].value, log[last].deadline), now) {
        assert LastLiveWrite(log, slot, now, last);
      }
    }
  }

  /** A value put with a lifetime is owed exactly until that has passed; one without, for good. */
  lemma PutsLastTheirLifetime<V>(log: seq<Effect<V>>, slot: Slot, value: V, put: Time, ttl: Option<nat>, now: Time)
    ensures var after := log + [Wrote(slot, value, if ttl.None? then None else Some(put + ttl.value as Time))];
            Owed(after, slot, now) == if ttl.None? || now < put + ttl.value as Time then Some(value) else None
  {
  }

  /** The plain map with deadlines: it never purges, it only hides dead entries. */
  function Replay<V>(log: seq<Effect<V>>): map<Slot, Cell<V>> {
    if log == [] then map[]
    else
      var m := Replay(log[..|log| - 1]);
      match log[|log| - 1]
      case Wrote(slot, value, deadline) => m[slot := Cell(value, deadline)]
      case Cleared(slot) => m - {slot}
  }

  /** The plain map answers every read as the history owes it. */
  lemma {:induction false} PlainMapAnswersTheHistory<V>(log: seq<Effect<V>>, slot: Slot, now: Time)
    ensures Lookup(Replay(log), slot, now) == Owed(log, slot, now)
    ensures slot in Replay(log) <==> LastCell(log, slot).Some?
    ensures slot in Replay(log) ==> Replay(log)[slot] == LastCell(log, slot).value
  {
    if log != [] {
      PlainMapAnswersTheHistory(log[..|log| - 1], slot, now);
    }
  }

  class MemoryStore<V> {
    var data: map<string, map<string, Cell<V>>>
    const emptyValue: V
    ghost var log: seq<Effect<V>>
    ghost var clock: Time

    predicate Present(slot: Slot)
      reads this
    {
      slot.kind in data && slot.name in data[slot.kind]
    }

    function CellOf(slot: Slot): Cell<V>
      requires Present(slot)
      reads this
    {
      data[slot.kind][slot.name]
    }

    /** Every stored cell is the last one written there, and no cell that is still live is missing. */
    ghost predicate Valid()
      reads this
    {
      && (forall slot :: Present(slot) ==> LastCell(log, slot) == Some(CellOf(slot)))
      && (forall slot :: LastCell(log, slot).Some? && Live(LastCell(log, slot).value, clock) ==> Present(slot))
    }

    constructor (emptyValue: V, ghost start: Time)
      ensures Valid() && log == [] && clock == start && this.emptyValue == emptyValue
    {
      data := map[];
      this.emptyValue := emptyValue;
      log := [];
      clock := start;
    }

    /** Purge the dead entries of one kind; no reader can tell. */
    method Expire(kind: string, now: Time)
      requires Valid() && clock <= now
      modifies this
      ensures Valid() && log == old(log) && clock == now
      ensures kind in data
      ensures forall slot :: Present(slot) ==> old(Present(slot)) && CellOf(slot) == old(CellOf(slot))
      ensures forall slot :: Present(slot) && slot.kind == kind ==> Live(CellOf(slot), now)
    {
      clock := now;
      if kind !in data {
        data := data[kind := map[]];
      }
      var before := data[kind];
      var dead := set name | name in before && !Live(before[name], now);
      var bucket := before;
      while dead != {}
        invariant forall name :: name in bucket ==> name in before && bucket[name] == before[name]
        invariant forall name :: name in dead ==> name in before && !Live(before[name], now)
        invariant forall name :: name in before && name !in bucket ==> !Live(before[name], now)
        invariant forall name :: name in bucket && !Live(bucket[name], now) ==> name in dead
      {
        var name :| name in dead;
        bucket := bucket - {name};
        dead := dead - {name};
      }
      data := data[kind := bucket];
    }

    method Get(kind: string, name: string, now: Time) returns (hit: Option<V>)
      requires Valid() && clock <= now
      modifies this
      ensures Valid() && clock == now && log == old(log)
      ensures hit == Owed(log, Slot(kind, name), now)
    {
      Expire(kind, now);
      var slot := Slot(kind, name);
      if name in data[kind] {
        assert Present(slot);
        hit := Some(data[kind][name].value);
      } else {
        assert !Present(slot);
        hit := None;
      }
    }

    method Put(kind: string, name: string, value: V, ttl: Option<nat>, now: Time)
      requires Valid() && clock <= now
      modifies this
      ensures Valid() && clock == now
      ensures log == old(log) + [Wrote(Slot(kind, name), value, if ttl.None? then None else Some(now + ttl.value as Time))]
    {
      var bucket := if kind in data then data[kind] else map[];
      var slot := Slot(kind, name);
      var exp := Deadline(now, ttl);
      data := data[kind := bucket[name := Cell(value, exp)]];
      clock := now;
      Append(Wrote(slot, value, exp));
    }

    method Pop(kind: string, name: string, now: Time) returns (hit: Option<V>)
      requires Valid() && clock <= now
      modifies this
      ensures Valid() && clock == now
      ensures log == old(log) + [Cleared(Slot(kind, name))]
      ensures hit == Owed(old(log), Slot(kind, name), now)
    {
      Expire(kind, now);
      var slot := Slot(kind, name);
      if name in data[kind] {
        assert Present(slot);
        hit := Some(data[kind][name].value);
      } else {
        assert !Present(slot);
        hit := None;
      }
      data := data[kind := data[kind] - {name}];
      Append(Cleared(slot));
    }

    /** Take the lock `name` unless someone holds it; the deadline counts from the second clock reading. */
    method Acquire(name: string, ttl: nat, now: Time, later: Time) returns (taken: bool)
      requires Valid() && clock <= now <= later
      modifies this
      ensures Valid() && now <= clock <= later
      ensures taken <==> Owed(old(log), Slot(LOCK_KIND, name), now).None?
      ensures log == if taken then old(log) + [Wrote(Slot(LOCK_KIND, name), emptyValue, Some(later + ttl as Time))]
                     else old(log)
    {
      Expire(LOCK_KIND, now);
      var slot := Slot(LOCK_KIND, name);
      if name in data[LOCK_KIND] {
        assert Present(slot);
        return false;
      }
      assert !Present(slot);
      Put(LOCK_KIND, name, emptyValue, Some(ttl), later);
      taken := true;
    }

    /** Drop the lock whoever holds it; no purge happens here. */
    method Release(name: string)
      requires Valid()
      modifies this
      ensures Valid() && clock == old(clock)
      ensures log == old(log) + [Cleared(Slot(LOCK_KIND, name))]
    {
      var bucket := if LOCK_KIND in data then data[LOCK_KIND] else map[];
      data := data[LOCK_KIND := bucket - {name}];
      Append(Cleared(Slot(LOCK_KIND, name)));
    }

    /** Record an effect that `data` already shows. */
    ghost method Append(e: Effect<V>)
      requires forall slot :: Present(slot) && slot != e.slot ==> LastCell(log, slot) == Some(CellOf(slot))
      requires forall slot :: slot != e.slot && LastCell(log, slot).Some? && Live(LastCell(log, slot).value, clock) ==> Present(slot)
      requires match e
               case Wrote(slot, value, deadline) => Present(slot) && CellOf(slot) == Cell(value, deadline)
               case Cleared(slot) => !Present(slot)
      modifies this`log
      ensures log == old(log) + [e] && Valid()
    {
      log := log + [e];
      assert log[..|log| - 1] == old(log);
    }
  }
}
