/** The completion-port loop's timers.

Every queued timer is the one its live record names, no two records share a
handle, and a timer that is still to strike is queued or on its way through the
batch at hand.
*/
module IocpClock {
  import opened Accounts
  import opened Octets
  import opened Timers
  import opened IocpLoop
  import opened IocpRuns
  import opened IocpSafety

  predicate Owns(op: Operation, k: Key)
  {
    op.wake == Some(k) || op.deadline == Some(k)
  }

  function HandleOf(op: Operation, t: Target): (k: Option<Key>)
  {
    if t.isDeadline then op.deadline else op.wake
  }

  /** Every queued timer names a live record that holds its handle. */
  ghost predicate Named(ops: map<nat, Operation>, timers: Queue)
  {
    forall k :: k in timers ==> timers[k].operation in ops && HandleOf(ops[timers[k].operation], timers[k]) == Some(k)
  }

  /** No two records hold the same handle, none is newer than the counter, and a
      wake-up is older than the deadline beside it. */
  ghost predicate Unshared(ops: map<nat, Operation>, serial: nat)
  {
    && (forall id, k :: id in ops && Owns(ops[id], k) ==> k.serial <= serial)
    && (forall i, j, k :: i in ops && j in ops && Owns(ops[i], k) && Owns(ops[j], k) ==> i == j)
    && (forall id :: id in ops && ops[id].wake.Some? && ops[id].deadline.Some? ==>
          ops[id].wake.value.serial < ops[id].deadline.value.serial)
  }

  ghost function Striking(p: Phase): (r: seq<Target>)
  {
    if p.Expiring? then p.targets else []
  }

  /** A wake-up is queued, striking or has struck; so is the deadline of whoever
      has no answer yet. */
  predicate Ticking(op: Operation, timers: Queue, targets: seq<Target>, listed: bool, id: nat)
  {
    && (op.wake.Some? ==> op.wake.value in timers || Target(id, false) in targets || listed)
    && (op.deadline.Some? && op.fixed.None? ==> op.deadline.value in timers || Target(id, true) in targets)
  }

  ghost predicate AllTick(s: Iocp, p: Phase)
  {
    forall id :: id in s.ops ==> Ticking(s.ops[id], s.timers, Striking(p), id in Ids(ListOf(p)), id)
  }

  ghost predicate Clocked(y: System)
  {
    Named(y.loop.ops, y.loop.timers) && Unshared(y.loop.ops, y.loop.serial) && AllTick(y.loop, y.phase)
  }

  /** A queued handle belongs to the record that holds it. */
  lemma NameOf(ops: map<nat, Operation>, timers: Queue, serial: nat, id: nat, k: Key)
    requires Named(ops, timers) && Unshared(ops, serial) && id in ops && Owns(ops[id], k) && k in timers
    ensures timers[k] == Target(id, ops[id].deadline == Some(k))
  {
    assert Owns(ops[timers[k].operation], k);
  }

  // ── records come and go ─────────────────────────────────────────────────────

  lemma UnsharedInsert(ops: map<nat, Operation>, serial: nat, id: nat, op: Operation, after: nat)
    requires Unshared(ops, serial) && id !in ops && serial <= after
    requires forall k :: Owns(op, k) ==> serial < k.serial <= after
    requires op.wake.Some? && op.deadline.Some? ==> op.wake.value.serial < op.deadline.value.serial
    ensures Unshared(ops[id := op], after)
  {
    hide Owns;
  }

  lemma UnsharedFewer(ops: map<nat, Operation>, serial: nat, after: map<nat, Operation>)
    requires Unshared(ops, serial)
    requires forall id :: id in after ==>
               id in ops && after[id].wake == ops[id].wake && (after[id].deadline == ops[id].deadline || after[id].deadline.None?)
    ensures Unshared(after, serial)
  {
    assert forall id, k :: id in after && Owns(after[id], k) ==> Owns(ops[id], k);
    hide Owns;
  }

  lemma AcquireClocked(
      s: Iocp, p: Phase, kind: Kind, socket: int, accepted: Option<nat>, wakeAt: Option<int>, deadline: Option<int>)
    requires Clocked(System(s, p)) && s.nextId + 1 !in s.ops
    ensures Clocked(System(Acquire(s, kind, socket, accepted, wakeAt, deadline), p))
  {
    var r := Acquire(s, kind, socket, accepted, wakeAt, deadline);
    var id := s.nextId + 1;
    var op := r.ops[id];
    UnsharedInsert(s.ops, s.serial, id, op, r.serial);
    NamedInsert(s.ops, s.timers, s.serial, id, op);
    hide Unshared, Named, Ids, ListOf, Striking;
    forall i | i in r.ops ensures Ticking(r.ops[i], r.timers, Striking(p), i in Ids(ListOf(p)), i) {
      if i != id {
        assert Ticking(s.ops[i], s.timers, Striking(p), i in Ids(ListOf(p)), i);
      }
    }
    hide TimersFor, Ticking;
  }

  lemma NamedInsert(ops: map<nat, Operation>, timers: Queue, serial: nat, id: nat, op: Operation)
    requires Named(ops, timers) && Unshared(ops, serial) && id !in ops && op.fixed.None?
    requires forall k :: Owns(op, k) ==> serial < k.serial
    requires op.wake.Some? && op.deadline.Some? ==> op.wake.value.serial < op.deadline.value.serial
    ensures Named(ops[id := op], timers + TimersFor(id, op.wake, op.deadline))
    ensures forall k :: k in timers ==> k in timers + TimersFor(id, op.wake, op.deadline)
    ensures forall k :: Owns(op, k) ==> k in timers + TimersFor(id, op.wake, op.deadline)
  {
  }

  /** Cancelling one record's timers leaves another's alone. */
  lemma StillQueued(ops: map<nat, Operation>, timers: Queue, serial: nat, i: nat, id: nat)
    requires Unshared(ops, serial) && i in ops && id in ops && i != id
    ensures forall k :: Owns(ops[i], k) && k in timers ==>
              && k in CancelTimer(timers, ops[id].deadline)
              && k in CancelTimer(CancelTimer(timers, ops[id].wake), ops[id].deadline)
  {
    forall k | Owns(ops[i], k) ensures !Owns(ops[id], k) {
    }
  }

  lemma TakeClocked(s: Iocp, p: Phase, id: nat, q: Phase)
    requires Clocked(System(s, p)) && id in s.ops
    requires Striking(q) == Striking(p) && forall i :: i != id && i in Ids(ListOf(p)) ==> i in Ids(ListOf(q))
    ensures Clocked(System(Take(s, id), q))
  {
    var r := Take(s, id);
    UnsharedFewer(s.ops, s.serial, r.ops);
    NamedTake(s, id);
    hide Ids, ListOf, Striking, Named;
    forall i | i in r.ops ensures Ticking(r.ops[i], r.timers, Striking(q), i in Ids(ListOf(q)), i) {
      assert Ticking(s.ops[i], s.timers, Striking(p), i in Ids(ListOf(p)), i);
      StillQueued(s.ops, s.timers, s.serial, i, id);
      hide Unshared, CancelTimer;
    }
    hide Unshared, CancelTimer, Ticking;
  }

  lemma NamedTake(s: Iocp, id: nat)
    requires Named(s.ops, s.timers) && id in s.ops
    ensures Named(Take(s, id).ops, Take(s, id).timers)
  {
    var r := Take(s, id);
    forall k | k in r.timers ensures r.timers[k].operation in r.ops && HandleOf(r.ops[r.timers[k].operation], r.timers[k]) == Some(k) {
      assert HandleOf(s.ops[s.timers[k].operation], s.timers[k]) == Some(k);
    }
  }

  lemma NamedFix(s: Iocp, id: nat, reason: Outcome)
    requires Named(s.ops, s.timers)
    ensures Named(FixReason(s, id, reason).ops, FixReason(s, id, reason).timers)
  {
  }

  lemma FixClocked(s: Iocp, p: Phase, id: nat, reason: Outcome)
    requires Clocked(System(s, p))
    ensures Clocked(System(FixReason(s, id, reason), p))
  {
    var r := FixReason(s, id, reason);
    NamedFix(s, id, reason);
    hide Ids, ListOf, Striking, Named;
    if Pinnable(s, id) {
      UnsharedFewer(s.ops, s.serial, r.ops);
      forall i | i in r.ops ensures Ticking(r.ops[i], r.timers, Striking(p), i in Ids(ListOf(p)), i) {
        assert Ticking(s.ops[i], s.timers, Striking(p), i in Ids(ListOf(p)), i);
        if i != id {
          StillQueued(s.ops, s.timers, s.serial, i, id);
        } else {
          FixedTicks(s, id, reason);
        }
        hide Unshared, CancelTimer;
      }
      hide Unshared, CancelTimer, Ticking;
    }
  }

  lemma FixedTicks(s: Iocp, id: nat, reason: Outcome)
    requires Pinnable(s, id) && Unshared(s.ops, s.serial)
    ensures var wake := s.ops[id].wake;
      wake.Some? && wake.value in s.timers ==> wake.value in CancelTimer(s.timers, s.ops[id].deadline)
  {
  }

  /** The same handles, and answers only added. */
  lemma EditClocked(s: Iocp, p: Phase, after: map<nat, Operation>, q: Phase)
    requires Clocked(System(s, p)) && after.Keys == s.ops.Keys
    requires forall id :: id in s.ops ==>
               && after[id].wake == s.ops[id].wake && after[id].deadline == s.ops[id].deadline
               && (s.ops[id].fixed.Some? ==> after[id].fixed.Some?)
    requires Striking(q) == Striking(p) && forall id :: id in s.ops && id in Ids(ListOf(p)) ==> id in Ids(ListOf(q))
    ensures Clocked(System(s.(ops := after), q))
  {
    UnsharedFewer(s.ops, s.serial, after);
    hide Unshared, Ids, ListOf, Striking;
    forall id | id in after ensures Ticking(after[id], s.timers, Striking(q), id in Ids(ListOf(q)), id) {
      assert Ticking(s.ops[id], s.timers, Striking(p), id in Ids(ListOf(p)), id);
    }
  }

  lemma TransferClocked(s: Iocp, p: Phase, socket: int, deadline: Option<int>, taken: bool)
    requires Clocked(System(s, p)) && s.nextId + 1 !in s.ops
    ensures Clocked(System(SubmitTransfer(s, socket, deadline, taken), p))
  {
    AcquireClocked(s, p, Transfer, socket, None, None, deadline);
    AcquireFields(s, Transfer, socket, None, None, deadline);
    var s1 := Acquire(s, Transfer, socket, None, None, deadline);
    TakeClocked(s1, p, s1.nextId, p);
    hide Acquire, Take, Named, Unshared, Ticking, Ids, ListOf, Striking;
  }

  /** Only records, timers and the counter matter. */
  lemma ClockedAside(s: Iocp, t: Iocp, p: Phase)
    requires Clocked(System(s, p)) && t.ops == s.ops && t.timers == s.timers && t.serial == s.serial
    ensures Clocked(System(t, p))
  {
    hide Named, Unshared, Ticking, Ids, ListOf, Striking;
  }

  lemma AcceptClocked(s: Iocp, p: Phase, socket: int, deadline: Option<int>, taken: bool)
    requires Clocked(System(s, p)) && s.nextId + 1 !in s.ops
    ensures Clocked(System(SubmitAccept(s, socket, deadline, taken), p))
  {
    var made := s.sockets.next + 1;
    AcquireClocked(s, p, Accept, socket, Some(made), None, deadline);
    AcquireFields(s, Accept, socket, Some(made), None, deadline);
    var s0 := Acquire(s, Accept, socket, Some(made), None, deadline);
    hide Acquire, Clocked;
    if !s.shuttingDown {
      var s1 := s0.(sockets := s.sockets.(next := made));
      ClockedAside(s0, s1, p);
      if taken {
        ClockedAside(s1, SubmitAccept(s, socket, deadline, taken), p);
      } else {
        TakeClocked(s1, p, s1.nextId, p);
        hide Take;
        ClockedAside(Take(s1, s1.nextId), SubmitAccept(s, socket, deadline, taken), p);
      }
    }
  }

  // ── steps ───────────────────────────────────────────────────────────────────

  lemma SweepClocked(y: System, now: int, keys: seq<Key>)
    requires Clocked(y) && Enabled(y, Sweep(now, keys))
    ensures Clocked(Apply(y, Sweep(now, keys)))
  {
    var s, z := y.loop, Apply(y, Sweep(now, keys));
    hide Ids, InOrder;
    forall id | id in s.ops ensures Ticking(s.ops[id], z.loop.timers, z.phase.targets, id in Ids(z.phase.listed), id) {
      var op := s.ops[id];
      assert Ticking(op, s.timers, [], id in Ids(y.phase.listed), id);
      if op.wake.Some? && op.wake.value in keys { TargetFound(s, keys, id, op.wake.value); }
      if op.deadline.Some? && op.deadline.value in keys { TargetFound(s, keys, id, op.deadline.value); }
    }
    hide TargetsOf, Unshared;
  }

  lemma TargetFound(s: Iocp, keys: seq<Key>, id: nat, k: Key)
    requires Named(s.ops, s.timers) && Unshared(s.ops, s.serial) && id in s.ops && Owns(s.ops[id], k)
    requires k in keys && forall m :: m in keys ==> m in s.timers
    ensures Target(id, s.ops[id].deadline == Some(k)) in TargetsOf(s.timers, keys)
  {
    NameOf(s.ops, s.timers, s.serial, id, k);
    var i :| 0 <= i < |keys| && keys[i] == k;
    assert TargetsOf(s.timers, keys)[i] == s.timers[k];
  }

  lemma ExpireClocked(y: System)
    requires Clocked(y) && Enabled(y, Expire)
    ensures Clocked(Apply(y, Expire))
  {
    var t, z := y.phase.targets[0], Apply(y, Expire);
    FixClocked(y.loop, y.phase, t.operation, TimedOut);
    var s1 := z.loop;
    assert Clocked(System(s1, y.phase));
    forall id | id in s1.ops
      ensures Ticking(s1.ops[id], s1.timers, z.phase.targets, id in Ids(z.phase.listed), id)
    {
      assert Ticking(s1.ops[id], s1.timers, y.phase.targets, id in Ids(y.phase.listed), id);
      StillStriking(y, id);
    }
    hide Named, Unshared, Ids, FixReason;
  }

  lemma StillStriking(y: System, id: nat)
    requires Enabled(y, Expire)
    ensures var t, z := y.phase.targets[0], Apply(y, Expire);
      && (forall u :: u in y.phase.targets ==> u == t || u in z.phase.targets)
      && (id in Ids(y.phase.listed) ==> id in Ids(z.phase.listed))
      && (t == Target(id, false) ==> id in Ids(z.phase.listed))
      && (t == Target(id, true) && id in z.loop.ops ==> z.loop.ops[id].fixed.Some?)
  {
    var t, z := y.phase.targets[0], Apply(y, Expire);
    assert y.phase.targets == [t] + y.phase.targets[1..];
    var found := ExpireOne(y.loop, t).1;
    ListMore(y.phase.listed, found);
    assert t == Target(id, false) ==> (id, Success) in found;
  }

  lemma DeliverClocked(y: System)
    requires Clocked(y) && Enabled(y, Deliver)
    ensures Clocked(Apply(y, Deliver))
  {
    var (id, outcome) := y.phase.listed[0];
    var q := Delivering(y.phase.listed[1..], id in y.loop.ops);
    assert y.phase.listed == [(id, outcome)] + y.phase.listed[1..];
    ListMore([(id, outcome)], y.phase.listed[1..]);
    assert Ids([(id, outcome)]) == {id} by { assert [(id, outcome)][0] == (id, outcome); }
    if id in y.loop.ops {
      TakeClocked(y.loop, y.phase, id, q);
    }
    hide Take, Named, Unshared, Ids, Dispose;
  }

  lemma ShutdownClocked(y: System, orphans: seq<nat>)
    requires Clocked(y) && Enabled(y, Shutdown(orphans))
    ensures Clocked(Apply(y, Shutdown(orphans)))
  {
    assert Ids([]) == {};
    var q := Draining(|BackedIds(y.loop.ops)|, Orphans(y.loop.ops, orphans));
    EditClocked(y.loop, y.phase, PinAll(y.loop.ops), q);
    hide Named, Unshared, Ids, Orphans, BackedIds, PinAll, Ticking;
  }

  lemma ClassifyClocked(y: System)
    requires Clocked(y) && Enabled(y, Classify)
    ensures Clocked(Apply(y, Classify))
  {
    var p := y.phase.entries[0];
    var found := if p.Done? then [(p.id, PacketOutcome(y.loop, p.id, p.status))] else [];
    ListMore(y.phase.listed, found);
    EditClocked(y.loop, y.phase, y.loop.ops, Apply(y, Classify).phase);
    hide Named, Unshared, Ids, Ticking, PacketOutcome;
    assert y.loop.(ops := y.loop.ops) == y.loop;
  }

  lemma CancelClocked(y: System)
    requires Clocked(y) && Enabled(y, Cancel)
    ensures Clocked(Apply(y, Cancel))
  {
    ListMore(y.phase.listed, CancelOne(y.loop, y.phase.cancels[0]));
    EditClocked(y.loop, y.phase, y.loop.ops, Apply(y, Cancel).phase);
    hide Named, Unshared, Ids, Ticking, CancelOne;
    assert y.loop.(ops := y.loop.ops) == y.loop;
  }

  lemma PinClocked(y: System, id: nat)
    requires Clocked(y)
    ensures Clocked(Apply(y, PinCancel(id)))
  {
    FixClocked(y.loop, y.phase, id, Cancelled);
    hide FixReason, Named, Unshared, Ids, Ticking;
  }

  lemma CloseClocked(y: System, socket: int)
    requires Clocked(y) && Enabled(y, CloseHandle(socket))
    ensures Clocked(Apply(y, CloseHandle(socket)))
  {
    EditClocked(y.loop, y.phase, Detach(y.loop, socket).ops, y.phase);
    hide Named, Unshared, Ids, Ticking;
  }

  lemma OtherClocked(y: System, a: Action)
    requires Clocked(y) && Enabled(y, a)
    requires a.PushCancel? || a.Complete? || a.PostWakeup? || a.Dequeue? || a.BeginDelivery? || a.RunPosted?
             || a.Return? || a.EndDelivery? || a.Drain? || a.Drained?
    ensures Clocked(Apply(y, a))
  {
    hide Named, Unshared, Ids, Ticking;
    assert Ids([]) == {} by { NobodyIn(); }
  }

  lemma NobodyIn()
    ensures Ids([]) == {}
  {
  }

  lemma ClockedStep(y: System, a: Action)
    requires Inv(y) && Clocked(y) && Enabled(y, a)
    ensures Clocked(Apply(y, a))
  {
    Fresh(y);
    hide Inv, Named, Unshared, AllTick, SubmitTransfer, SubmitAccept, Acquire;
    match a
    case StartTransfer(socket, deadline, taken) => TransferClocked(y.loop, y.phase, socket, deadline, taken);
    case StartAccept(socket, deadline, taken) => AcceptClocked(y.loop, y.phase, socket, deadline, taken);
    case StartTimer(wakeAt, deadline) => AcquireClocked(y.loop, y.phase, Timer, -1, None, Some(wakeAt), deadline);
    case CloseHandle(socket) => CloseClocked(y, socket);
    case PinCancel(id) => PinClocked(y, id);
    case Classify => ClassifyClocked(y);
    case Sweep(now, keys) => SweepClocked(y, now, keys);
    case Expire => ExpireClocked(y);
    case Cancel => CancelClocked(y);
    case Deliver => DeliverClocked(y);
    case Shutdown(orphans) => ShutdownClocked(y, orphans);
    case _ => OtherClocked(y, a);
  }

  /** At every point of every run. */
  lemma {:induction false} RunClocked(states: seq<System>, run: seq<Action>, j: nat)
    requires IsRun(states, run) && j <= |run|
    ensures Clocked(states[j])
  {
    hide Apply, Enabled, Inv;
    if j == 0 {
    } else {
      hide Clocked;
      RunClocked(states, run, j - 1);
      RunKeeps(states, run, j - 1);
      ClockedStep(states[j - 1], run[j - 1]);
    }
  }
}
