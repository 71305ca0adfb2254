/** What every critical section of the readiness loop keeps.

Three facts about the tables, each over just the fields it speaks of: slots and
armed records name each other, timers name live records, and whatever lost its
slot or its timer is owed a delivery.
*/
module PosixLedger {
  import opened Octets
  import opened Timers
  import opened PosixLoop

  // ── slots ───────────────────────────────────────────────────────────────────

  predicate Holds(op: Operation, side: Side)
  {
    op.kind.Readiness? && op.armed && op.fd == side.0 && op.writable == side.1
  }

  /** A record is armed exactly when the slot of its descriptor names it. */
  ghost predicate SlotsAgree(ops: map<nat, Operation>, slots: map<Side, nat>)
  {
    && (forall side :: side in slots ==> slots[side] in ops && Holds(ops[slots[side]], side))
    && (forall id :: id in ops && ops[id].armed ==>
          && ops[id].kind.Readiness?
          && (ops[id].fd, ops[id].writable) in slots
          && slots[(ops[id].fd, ops[id].writable)] == id)
    && (forall id :: id in ops && ops[id].kind.Readiness? ==> ops[id].fd >= 0)
  }

  lemma SlotsAfterInsert(ops: map<nat, Operation>, slots: map<Side, nat>, id: nat, op: Operation)
    requires SlotsAgree(ops, slots) && id !in ops
    requires op.kind.Readiness? && op.armed && op.fd >= 0 && (op.fd, op.writable) !in slots
    ensures SlotsAgree(ops[id := op], slots[(op.fd, op.writable) := id])
  {
  }

  lemma SlotsAfterUnlink(s: Loop, id: nat)
    requires SlotsAgree(s.ops, s.slots) && id in s.ops
    ensures SlotsAgree(Unlink(s, id).ops, Unlink(s, id).slots)
    ensures !s.ops[id].armed ==> Unlink(s, id).slots == s.slots
    ensures s.ops[id].armed ==> Unlink(s, id).slots == s.slots - {(s.ops[id].fd, s.ops[id].writable)}
  {
  }

  lemma SlotsAfterClaim(ops: map<nat, Operation>, slots: map<Side, nat>, side: Side)
    requires SlotsAgree(ops, slots) && side in slots
    ensures SlotsAgree(Disarmed(ops, slots[side]), slots - {side})
  {
    var id := slots[side];
    var ops1 := Disarmed(ops, id);
    forall other | other in slots - {side}
      ensures slots[other] in ops1 && Holds(ops1[slots[other]], other)
    {
      assert slots[other] in ops && Holds(ops[slots[other]], other) && Holds(ops[id], side);
      assert other == (other.0, other.1) && side == (side.0, side.1);
    }
  }

  lemma SlotsAfterDrop(ops: map<nat, Operation>, slots: map<Side, nat>, side: Side)
    requires SlotsAgree(ops, slots) && 0 !in ops
    ensures SlotsAgree(Disarmed(ops, SlotId(slots, side)), slots - {side})
  {
    if side in slots {
      SlotsAfterClaim(ops, slots, side);
    } else {
      assert slots - {side} == slots;
    }
  }

  lemma SlotsAfterClear(s: Loop, fd: int)
    requires SlotsAgree(s.ops, s.slots) && 0 !in s.ops
    ensures SlotsAgree(ClearSlots(s, fd).ops, ClearSlots(s, fd).slots)
  {
    hide SlotsAgree;
    var first, second := (fd, false), (fd, true);
    SlotsAfterDrop(s.ops, s.slots, first);
    SlotsAfterDrop(Disarmed(s.ops, SlotId(s.slots, first)), s.slots - {first}, second);
    assert s.slots - {first} - {second} == s.slots - Sides(fd);
  }

  // ── timers ──────────────────────────────────────────────────────────────────

  predicate Owns(op: Operation, k: Key)
  {
    op.wake == Some(k) || op.deadline == Some(k)
  }

  /** Every queued timer names a live record that holds its handle. */
  ghost predicate TimersNamed(ops: map<nat, Operation>, timers: Queue)
  {
    forall k :: k in timers ==> timers[k].operation in ops && HandleOf(ops[timers[k].operation], timers[k]) == Some(k)
  }

  function HandleOf(op: Operation, t: Target): (k: Option<Key>)
  {
    if t.isDeadline then op.deadline else op.wake
  }

  /** No two records hold the same handle, and none is newer than the counter. */
  ghost predicate HandlesUnshared(ops: map<nat, Operation>, serial: nat)
  {
    && (forall id, k :: id in ops && Owns(ops[id], k) ==> k.serial <= serial)
    && (forall i, j, k :: i in ops && j in ops && Owns(ops[i], k) && Owns(ops[j], k) ==> i == j)
  }

  /** Only a sleep has a wake-up, and it is older than the deadline beside it. */
  predicate WakesFirst(op: Operation)
  {
    && (op.kind.Sleep? <==> op.wake.Some?)
    && (op.wake.Some? && op.deadline.Some? ==> op.wake.value.serial < op.deadline.value.serial)
  }

  ghost predicate TimersAgree(ops: map<nat, Operation>, timers: Queue, serial: nat)
  {
    && TimersNamed(ops, timers)
    && HandlesUnshared(ops, serial)
    && forall id :: id in ops ==> WakesFirst(ops[id])
  }

  lemma HandlesAfterInsert(ops: map<nat, Operation>, serial: nat, id: nat, op: Operation, after: nat)
    requires HandlesUnshared(ops, serial) && id !in ops && serial <= after
    requires forall k :: Owns(op, k) ==> serial < k.serial <= after
    ensures HandlesUnshared(ops[id := op], after)
  {
    hide Owns;
  }

  lemma TimersAfterInsert(
      ops: map<nat, Operation>, timers: Queue, serial: nat, id: nat, op: Operation, after: nat)
    requires TimersAgree(ops, timers, serial) && id !in ops && serial <= after && WakesFirst(op)
    requires forall k :: Owns(op, k) ==> serial < k.serial <= after
    ensures TimersAgree(ops[id := op], timers + TimersFor(id, op.wake, op.deadline), after)
  {
    HandlesAfterInsert(ops, serial, id, op, after);
    hide HandlesUnshared, WakesFirst;
  }

  lemma TimersAfterUnlink(s: Loop, id: nat)
    requires TimersAgree(s.ops, s.timers, s.serial) && id in s.ops
    ensures TimersAgree(Unlink(s, id).ops, Unlink(s, id).timers, s.serial)
    ensures forall i, k :: i in s.ops && i != id && Owns(s.ops[i], k) && k in s.timers ==>
              k in Unlink(s, id).timers
  {
  }

  /** A queued handle belongs to the record the queue names for it. */
  lemma TimerNames(ops: map<nat, Operation>, timers: Queue, serial: nat, id: nat, k: Key)
    requires TimersAgree(ops, timers, serial) && id in ops && Owns(ops[id], k) && k in timers
    ensures timers[k].operation == id
    ensures timers[k].isDeadline <==> ops[id].deadline == Some(k)
  {
    assert Owns(ops[timers[k].operation], k);
    assert WakesFirst(ops[id]);
  }

  lemma TimersAfterExpiry(ops: map<nat, Operation>, timers: Queue, serial: nat, now: int)
    requires TimersAgree(ops, timers, serial)
    ensures TimersAgree(ops, NotDue(timers, now), serial)
  {
  }

  /** Disarming touches no handle. */
  ghost predicate SameHandles(ops: map<nat, Operation>, after: map<nat, Operation>)
  {
    after.Keys == ops.Keys && forall id :: id in ops ==> after[id] == ops[id].(armed := after[id].armed)
  }

  lemma TimersAfterDisarm(ops: map<nat, Operation>, after: map<nat, Operation>, timers: Queue, serial: nat)
    requires TimersAgree(ops, timers, serial) && SameHandles(ops, after)
    ensures TimersAgree(after, timers, serial)
  {
    assert forall id, k :: id in ops ==> (Owns(after[id], k) <==> Owns(ops[id], k));
    hide Owns;
  }

  // ── what is owed ────────────────────────────────────────────────────────────

  /** Nothing can fire for this record any more, or not all that should. */
  predicate Spent(op: Operation, timers: Queue)
  {
    || (op.kind.Readiness? && !op.armed)
    || (op.wake.Some? && op.wake.value !in timers)
    || (op.deadline.Some? && op.deadline.value !in timers)
  }

  /** Whoever lost a slot or a timer is on its way to being delivered. */
  ghost predicate Owed(ops: map<nat, Operation>, timers: Queue, pending: set<nat>)
  {
    forall id :: id in ops && Spent(ops[id], timers) ==> id in pending
  }

  lemma OwedAfterInsert(ops: map<nat, Operation>, timers: Queue, pending: set<nat>, id: nat, op: Operation)
    requires Owed(ops, timers, pending) && (op.kind.Readiness? ==> op.armed)
    ensures Owed(ops[id := op], timers + TimersFor(id, op.wake, op.deadline), pending)
  {
  }

  lemma OwedAfterUnlink(s: Loop, id: nat, pending: set<nat>, fewer: set<nat>)
    requires TimersAgree(s.ops, s.timers, s.serial) && id in s.ops
    requires Owed(s.ops, s.timers, pending) && pending <= fewer + {id}
    ensures Owed(Unlink(s, id).ops, Unlink(s, id).timers, fewer)
  {
    TimersAfterUnlink(s, id);
    var r := Unlink(s, id);
    forall i | i in r.ops && Spent(r.ops[i], r.timers) ensures i in fewer {
      assert i in s.ops && i != id && r.ops[i] == s.ops[i];
      assert s.ops[i].wake.Some? ==> Owns(s.ops[i], s.ops[i].wake.value);
      assert s.ops[i].deadline.Some? ==> Owns(s.ops[i], s.ops[i].deadline.value);
    }
  }
}
