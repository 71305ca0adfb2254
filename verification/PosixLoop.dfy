/** The operation table of the readiness backend.

Every suspended operation is named in several places: the table itself, the slot
of its descriptor and direction, the timer queue, the list of requested
cancellations and the kernel's one-shot registrations. The functions below are
the loop's critical sections, one each; resumption is left to the caller.
*/
module PosixLoop {
  import opened Accounts
  import opened Octets
  import opened Timers

  datatype Kind = Readiness | Sleep

  datatype Operation = Operation(
    kind: Kind,
    fd: int,
    writable: bool,
    armed: bool,
    wake: Option<Key>,
    deadline: Option<Key>)

  /** A descriptor and a direction: `true` is writable. */
  type Side = (int, bool)

  /** Which directions of a descriptor somebody waits on. */
  datatype Interest = Interest(read: bool, write: bool)
  {
    predicate Wants(writable: bool)
    {
      if writable then write else read
    }
  }

  /** `Epoll`: arming replaces a descriptor's interest and a firing disables all
      of it. `Kqueue`: arming adds filters and a firing removes one. */
  datatype Backend = Epoll | Kqueue

  datatype Loop = Loop(
    backend: Backend,
    ops: map<nat, Operation>,
    slots: map<Side, nat>,
    timers: Queue,
    serial: nat,
    cancels: seq<nat>,
    nextId: nat,
    kernel: set<Side>,
    shuttingDown: bool,
    resumed: seq<(nat, Outcome)>,
    discarded: set<nat>)

  function Created(backend: Backend): (s: Loop)
  {
    Loop(backend, map[], map[], map[], 0, [], 0, {}, false, [], {})
  }

  // ── the kernel's one-shot registrations ─────────────────────────────────────

  function Sides(fd: int): (r: set<Side>)
  {
    {(fd, false), (fd, true)}
  }

  function Wanted(fd: int, interest: Interest): (r: set<Side>)
  {
    (if interest.read then {(fd, false)} else {}) + (if interest.write then {(fd, true)} else {})
  }

  function Arm(backend: Backend, kernel: set<Side>, fd: int, interest: Interest): (r: set<Side>)
  {
    (if backend.Epoll? then kernel - Sides(fd) else kernel) + Wanted(fd, interest)
  }

  /** What a call of `arm` came to. A refused one may leave anything behind, but
      only on its own descriptor. */
  datatype Arming = Armed | Refused(left: Interest, code: int)

  function TryArm(
      backend: Backend, kernel: set<Side>, fd: int, interest: Interest, arming: Arming): (r: set<Side>)
  {
    if arming.Armed? then Arm(backend, kernel, fd, interest)
    else kernel - Sides(fd) + Wanted(fd, arming.left)
  }

  function Disarm(kernel: set<Side>, fd: int): (r: set<Side>)
  {
    kernel - Sides(fd)
  }

  datatype Event = Event(fd: int, readable: bool, writable: bool, failed: bool)
  {
    predicate Takes(side: Side)
    {
      side.0 == fd && (failed || if side.1 then writable else readable)
    }
  }

  /** What reporting an event does to the registrations. */
  function Fire(backend: Backend, kernel: set<Side>, e: Event): (r: set<Side>)
  {
    if backend.Epoll? then kernel - Sides(e.fd)
    else
      kernel - (if e.readable then {(e.fd, false)} else {}) - (if e.writable then {(e.fd, true)} else {})
  }

  function FireAll(backend: Backend, kernel: set<Side>, events: seq<Event>): (r: set<Side>)
  {
    if events == [] then kernel
    else Fire(backend, FireAll(backend, kernel, events[..|events| - 1]), events[|events| - 1])
  }

  function InterestIn(slots: map<Side, nat>, fd: int): (i: Interest)
  {
    Interest((fd, false) in slots, (fd, true) in slots)
  }

  predicate Watched(slots: map<Side, nat>, fd: int)
  {
    (fd, false) in slots || (fd, true) in slots
  }

  // ── submission ──────────────────────────────────────────────────────────────

  /** Record a waiter under the lock; the registration comes after. */
  function Register(s: Loop, fd: int, writable: bool, deadline: Option<int>): (r: Loop)
  {
    var id := s.nextId + 1;
    var op := Operation(Readiness, fd, writable, true, None, HandleFor(deadline, s.serial + 1));
    s.(nextId := id,
       ops := s.ops[id := op],
       slots := s.slots[(fd, writable) := id],
       timers := s.timers + TimersFor(id, op.wake, op.deadline),
       serial := s.serial + Serials(deadline))
  }

  /** Record a sleep: the wake-up takes its serial before the deadline does. */
  function RegisterSleep(s: Loop, wakeAt: int, deadline: Option<int>): (r: Loop)
  {
    var id := s.nextId + 1;
    var op := Operation(Sleep, -1, false, false, HandleFor(Some(wakeAt), s.serial + 1),
                        HandleFor(deadline, s.serial + 2));
    s.(nextId := id,
       ops := s.ops[id := op],
       timers := s.timers + TimersFor(id, op.wake, op.deadline),
       serial := s.serial + 1 + Serials(deadline))
  }

  /** Only operations still in the table can be asked to stop. */
  function RequestCancel(s: Loop, id: nat): (r: Loop)
  {
    if id in s.ops then s.(cancels := s.cancels + [id]) else s
  }

  // ── resolution ──────────────────────────────────────────────────────────────

  /** The slots once `id` no longer holds one. */
  function FreeSlot(slots: map<Side, nat>, op: Operation, id: nat): (r: map<Side, nat>)
  {
    var side := (op.fd, op.writable);
    if op.kind.Readiness? && side in slots && slots[side] == id then slots - {side} else slots
  }

  /** Remove an operation from every index that names it. */
  function Unlink(s: Loop, id: nat): (r: Loop)
    requires id in s.ops
  {
    var op := s.ops[id];
    s.(ops := s.ops - {id},
       slots := FreeSlot(s.slots, op, id),
       timers := CancelTimer(CancelTimer(s.timers, op.wake), op.deadline))
  }

  /** Whether an unlinked operation left a live registration behind. */
  predicate LeavesRegistration(s: Loop, id: nat)
    requires id in s.ops
  {
    var op := s.ops[id];
    op.kind.Readiness? && Watched(s.slots, op.fd) && op.armed && op.fd >= 0 && !s.shuttingDown
  }

  /** Give the registration back: disarm once nobody is left, else arm for
      whoever is. */
  function Release(s: Loop, fd: int, release: Arming): (r: Loop)
  {
    if !Watched(s.slots, fd) then s.(kernel := Disarm(s.kernel, fd))
    else s.(kernel := TryArm(s.backend, s.kernel, fd, InterestIn(s.slots, fd), release))
  }

  function Remove(s: Loop, id: nat, release: Arming): (r: Loop)
    requires id in s.ops
  {
    if LeavesRegistration(s, id) then Release(Unlink(s, id), s.ops[id].fd, release) else Unlink(s, id)
  }

  /** Undo a registration whose coroutine never suspended. */
  function Discard(s: Loop, id: nat, release: Arming): (r: Loop)
    requires id in s.ops
  {
    Remove(s, id, release).(discarded := s.discarded + {id})
  }

  /** The one place an operation resolves; a stale id resolves nothing. */
  function Finalize(s: Loop, id: nat, outcome: Outcome, release: Arming): (r: Loop)
  {
    if id in s.ops then Remove(s, id, release).(resumed := s.resumed + [(id, outcome)]) else s
  }

  /** Submit a wait: record, then register; a registration the kernel refuses
      undoes the record. */
  function AddWaiter(
      s: Loop, fd: int, writable: bool, deadline: Option<int>, arming: Arming, release: Arming): (r: Loop)
  {
    if fd < 0 || s.shuttingDown || (fd, writable) in s.slots then s
    else
      var s1 := Register(s, fd, writable, deadline);
      var s2 := s1.(kernel := TryArm(s1.backend, s1.kernel, fd, InterestIn(s1.slots, fd), arming));
      if arming.Armed? then s2 else Discard(s2, s2.nextId, release)
  }

  function AddTimer(s: Loop, wakeAt: int, deadline: Option<int>): (r: Loop)
  {
    if s.shuttingDown then s else RegisterSleep(s, wakeAt, deadline)
  }

  // ── detaching ───────────────────────────────────────────────────────────────

  function Disarmed(ops: map<nat, Operation>, id: nat): (r: map<nat, Operation>)
  {
    if id in ops then ops[id := ops[id].(armed := false)] else ops
  }

  /** The operation in a slot, or 0. */
  function SlotId(slots: map<Side, nat>, side: Side): (id: nat)
  {
    if side in slots then slots[side] else 0
  }

  /** Take both waiters of `fd` out of their slots. */
  function ClearSlots(s: Loop, fd: int): (r: Loop)
  {
    s.(ops := Disarmed(Disarmed(s.ops, SlotId(s.slots, (fd, false))), SlotId(s.slots, (fd, true))),
       slots := s.slots - Sides(fd))
  }

  function BrokenWaiters(s: Loop, fd: int, outcome: Outcome): (r: seq<(nat, Outcome)>)
  {
    if Watched(s.slots, fd) then
      [(SlotId(s.slots, (fd, false)), outcome), (SlotId(s.slots, (fd, true)), outcome)]
    else []
  }

  // ── one batch ───────────────────────────────────────────────────────────────

  /** What the batch's first critical section has collected so far. */
  datatype Batch = Batch(loop: Loop, resolved: seq<(nat, Outcome)>, rearm: seq<(int, Interest)>)

  /** Take whoever waits on one side, if anyone does. */
  function Claim(b: Batch, side: Side): (r: Batch)
  {
    if side !in b.loop.slots then b
    else
      var id := b.loop.slots[side];
      b.(loop := b.loop.(ops := Disarmed(b.loop.ops, id), slots := b.loop.slots - {side}),
         resolved := b.resolved + [(id, Success)])
  }

  function ClaimEvent(b: Batch, e: Event): (r: Batch)
  {
    if !Watched(b.loop.slots, e.fd) then b
    else
      var b1 := if e.Takes((e.fd, false)) then Claim(b, (e.fd, false)) else b;
      var b2 := if e.Takes((e.fd, true)) then Claim(b1, (e.fd, true)) else b1;
      if Watched(b2.loop.slots, e.fd)
      then b2.(rearm := b2.rearm + [(e.fd, InterestIn(b2.loop.slots, e.fd))])
      else b2
  }

  function ClaimAll(b: Batch, events: seq<Event>): (r: Batch)
  {
    if events == [] then b else ClaimEvent(ClaimAll(b, events[..|events| - 1]), events[|events| - 1])
  }

  function TimerOutcome(t: Target): (o: Outcome)
  {
    if t.isDeadline then TimedOut else Success
  }

  /** The timers' share of the batch, in the order given. */
  function Expired(timers: Queue, keys: seq<Key>): (r: seq<(nat, Outcome)>)
    requires forall k :: k in keys ==> k in timers
  {
    if keys == [] then []
    else
      var t := timers[keys[|keys| - 1]];
      Expired(timers, keys[..|keys| - 1]) + [(t.operation, TimerOutcome(t))]
  }

  function AllCancelled(ids: seq<nat>): (r: seq<(nat, Outcome)>)
    ensures |r| == |ids| && forall i :: 0 <= i < |ids| ==> r[i] == (ids[i], Cancelled)
  {
    seq(|ids|, i requires 0 <= i < |ids| => (ids[i], Cancelled))
  }

  /** Poll and collect: completions, then timers, then cancellations. `keys` are
      the timers due at `now`. */
  function Collect(s: Loop, events: seq<Event>, now: int, keys: seq<Key>): (b: Batch)
    requires forall k :: k in keys ==> k in s.timers
  {
    var fired := s.(kernel := FireAll(s.backend, s.kernel, events));
    var b := ClaimAll(Batch(fired, [], []), events);
    b.(loop := b.loop.(timers := NotDue(s.timers, now), cancels := []),
       resolved := b.resolved + Expired(s.timers, keys) + AllCancelled(s.cancels))
  }
}
