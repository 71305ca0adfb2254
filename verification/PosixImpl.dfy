/** The readiness backend as the loop thread runs it, one critical section or
system call a method. Each is tied to the step of the same name on values. */
module PosixImpl {
  import opened Accounts
  import opened Octets
  import opened Timers
  import opened PosixLoop

  /** Who waits on each direction of a descriptor; 0 is nobody. */
  datatype FdWaiters = FdWaiters(read: nat, write: nat)
  {
    function Of(writable: bool): (id: nat)
    {
      if writable then write else read
    }

    function With(writable: bool, id: nat): (w: FdWaiters)
      ensures w.Of(writable) == id && w.Of(!writable) == Of(!writable)
    {
      if writable then FdWaiters(read, id) else FdWaiters(id, write)
    }

    predicate Empty()
    {
      read == 0 && write == 0
    }

    function Wants(): (i: Interest)
    {
      Interest(read != 0, write != 0)
    }
  }

  const NOBODY := FdWaiters(0, 0)

  function Lookup(waiters: map<int, FdWaiters>, fd: int): (w: FdWaiters)
  {
    if fd in waiters then waiters[fd] else NOBODY
  }

  /** Write an entry back, or drop it once it is empty. */
  function Store(waiters: map<int, FdWaiters>, fd: int, w: FdWaiters): (r: map<int, FdWaiters>)
    ensures Lookup(r, fd) == w && forall other :: other != fd ==> Lookup(r, other) == Lookup(waiters, other)
  {
    if w.Empty() then waiters - {fd} else waiters[fd := w]
  }

  /** The table per descriptor and the table per side say the same. */
  ghost predicate Mirrors(waiters: map<int, FdWaiters>, slots: map<Side, nat>)
  {
    && (forall fd :: fd in waiters ==> !waiters[fd].Empty())
    && (forall fd, writable :: (fd, writable) in slots <==> Lookup(waiters, fd).Of(writable) != 0)
    && (forall fd, writable :: (fd, writable) in slots ==> slots[(fd, writable)] == Lookup(waiters, fd).Of(writable))
  }

  lemma MirrorsEntry(waiters: map<int, FdWaiters>, slots: map<Side, nat>, fd: int)
    requires Mirrors(waiters, slots)
    ensures fd in waiters <==> Watched(slots, fd)
    ensures Lookup(waiters, fd).Wants() == InterestIn(slots, fd)
    ensures Lookup(waiters, fd) == FdWaiters(SlotId(slots, (fd, false)), SlotId(slots, (fd, true)))
  {
    var w := Lookup(waiters, fd);
    assert (fd, false) in slots <==> w.Of(false) != 0;
    assert (fd, true) in slots <==> w.Of(true) != 0;
  }

  lemma MirrorsSide(waiters: map<int, FdWaiters>, slots: map<Side, nat>, fd: int, writable: bool)
    requires Mirrors(waiters, slots)
    ensures (fd, writable) in slots <==> Lookup(waiters, fd).Of(writable) != 0
  {
  }

  lemma MirrorsHolder(waiters: map<int, FdWaiters>, slots: map<Side, nat>, fd: int, writable: bool)
    requires Mirrors(waiters, slots)
    ensures SlotId(slots, (fd, writable)) == Lookup(waiters, fd).Of(writable)
  {
    assert (fd, writable) in slots <==> Lookup(waiters, fd).Of(writable) != 0;
  }

  lemma ClaimLeavesRearm(s: Loop, resolved: seq<(nat, Outcome)>, rearm: seq<(int, Interest)>, side: Side)
    ensures PosixLoop.Claim(Batch(s, resolved, rearm), side)
         == PosixLoop.Claim(Batch(s, resolved, []), side).(rearm := rearm)
  {
  }

  /** Claiming touches neither the timers nor the pending cancellations. */
  lemma {:induction false} ClaimAllAside(b: Batch, events: seq<Event>)
    ensures var s := ClaimAll(b, events).loop;
      s == b.loop.(ops := s.ops, slots := s.slots)
  {
    if events != [] {
      ClaimAllAside(b, events[..|events| - 1]);
    }
  }

  lemma MirrorsSet(waiters: map<int, FdWaiters>, slots: map<Side, nat>, fd: int, writable: bool, id: nat)
    requires Mirrors(waiters, slots) && id != 0
    ensures Mirrors(Store(waiters, fd, Lookup(waiters, fd).With(writable, id)), slots[(fd, writable) := id])
  {
  }

  lemma MirrorsClear(waiters: map<int, FdWaiters>, slots: map<Side, nat>, fd: int, writable: bool)
    requires Mirrors(waiters, slots)
    ensures Mirrors(Store(waiters, fd, Lookup(waiters, fd).With(writable, 0)), slots - {(fd, writable)})
  {
  }

  lemma MirrorsDrop(waiters: map<int, FdWaiters>, slots: map<Side, nat>, fd: int)
    requires Mirrors(waiters, slots)
    ensures Mirrors(waiters - {fd}, slots - Sides(fd))
  {
  }

  lemma RegisterRecords(s: Loop, fd: int, writable: bool, deadline: Option<int>)
    ensures var r := Register(s, fd, writable, deadline);
      r.nextId == s.nextId + 1 && r.nextId in r.ops && r.kernel == s.kernel && r.backend == s.backend
  {
  }

  /** How a submission ended before the coroutine suspended. */
  datatype Submitted = Accepted(id: nat) | InvalidArgument | LoopGone | NotArmed(code: int)

  /** What unlinking hands back, so that the system call happens afterwards. */
  datatype Unlinked = Unlinked(found: bool, fd: int, remaining: Interest, registered: bool)

  class EventLoop {
    const backend: Backend
    const timers: TimerQueue
    var operations: map<nat, Operation>
    var waiters: map<int, FdWaiters>
    var cancels: seq<nat>
    var nextId: nat
    var kernel: set<Side>
    var shuttingDown: bool
    ghost var slots: map<Side, nat>
    ghost var resumed: seq<(nat, Outcome)>
    ghost var discarded: set<nat>

    ghost predicate Valid()
      reads this
    {
      Mirrors(waiters, slots)
    }

    ghost function State(): (s: Loop)
      reads this, timers
    {
      Loop(backend, operations, slots, timers.timers, timers.serial, cancels, nextId, kernel,
           shuttingDown, resumed, discarded)
    }

    constructor (backend: Backend)
      ensures Valid() && State() == Created(backend) && fresh(timers)
    {
      this.backend := backend;
      operations, waiters, cancels, nextId, kernel := map[], map[], [], 0, {};
      shuttingDown, slots, resumed, discarded := false, map[], [], {};
      timers := new TimerQueue();
    }

    // ── the poller ────────────────────────────────────────────────────────────

    method Arm(fd: int, interest: Interest, arming: Arming) returns (ok: bool)
      modifies this`kernel
      ensures ok == arming.Armed?
      ensures State() == old(State()).(kernel := TryArm(backend, old(kernel), fd, interest, arming))
    {
      kernel := TryArm(backend, kernel, fd, interest, arming);
      ok := arming.Armed?;
    }

    method Disarm(fd: int)
      modifies this`kernel
      ensures State() == old(State()).(kernel := PosixLoop.Disarm(old(kernel), fd))
    {
      kernel := PosixLoop.Disarm(kernel, fd);
    }

    // ── leaving the table ─────────────────────────────────────────────────────

    method Unlink(id: nat) returns (out: Unlinked)
      requires Valid()
      modifies this`operations, this`waiters, this`slots, timers`timers
      ensures Valid()
      ensures out.found == (id in old(operations))
      ensures State() == if out.found then PosixLoop.Unlink(old(State()), id) else old(State())
      ensures out.found ==> out.registered == (old(operations)[id].kind.Readiness? && Watched(old(slots), old(operations)[id].fd) && old(operations)[id].armed)
      ensures out.registered ==> out.found && out.fd == old(operations)[id].fd && out.remaining == InterestIn(slots, out.fd)
    {
      hide Mirrors, Store;
      if id !in operations {
        return Unlinked(false, -1, Interest(false, false), false);
      }
      var operation := operations[id];
      operations := operations - {id};
      out := Unlinked(true, -1, Interest(false, false), false);
      var fd := operation.fd;
      MirrorsEntry(waiters, slots, fd);
      if operation.kind.Readiness? && fd in waiters {
        var w := waiters[fd];
        if w.Of(operation.writable) == id {
          w := w.With(operation.writable, 0);
        }
        out := Unlinked(true, fd, w.Wants(), operation.armed);
        MirrorsFree(waiters, slots, operation, id);
        waiters := Store(waiters, fd, w);
        slots := FreeSlot(slots, operation, id);
        MirrorsEntry(waiters, slots, fd);
      }
      timers.Cancel(operation.wake);
      timers.Cancel(operation.deadline);
    }

    /** Give back the registration an unlinked operation left behind. */
    method ReleaseRegistration(out: Unlinked, release: Arming)
      requires out.registered ==> out.remaining == InterestIn(slots, out.fd)
      modifies this`kernel
      ensures State() == if out.registered && out.fd >= 0 && !shuttingDown
                         then Release(old(State()), out.fd, release) else old(State())
    {
      if !out.registered || out.fd < 0 || shuttingDown {
        return;
      }
      if out.remaining == Interest(false, false) {
        Disarm(out.fd);
      } else {
        var _ := Arm(out.fd, out.remaining, release);
      }
    }

    method Discard(id: nat, release: Arming)
      requires Valid() && id in operations
      modifies this`operations, this`waiters, this`slots, this`kernel, this`discarded, timers`timers
      ensures Valid() && State() == PosixLoop.Discard(old(State()), id, release)
    {
      hide Mirrors, PosixLoop.Unlink, Release;
      var out := Unlink(id);
      ReleaseRegistration(out, release);
      discarded := discarded + {id};
    }

    /** The one place an operation resolves; `resume` says whether the caller is
        to resume its coroutine. */
    method Finalize(id: nat, outcome: Outcome, release: Arming) returns (resume: bool)
      requires Valid()
      modifies this`operations, this`waiters, this`slots, this`kernel, this`resumed, timers`timers
      ensures Valid() && State() == PosixLoop.Finalize(old(State()), id, outcome, release)
      ensures resume == (id in old(operations))
    {
      hide Mirrors, PosixLoop.Unlink, Release;
      var out := Unlink(id);
      if !out.found {
        return false;
      }
      ReleaseRegistration(out, release);
      resumed := resumed + [(id, outcome)];
      resume := true;
    }

    // ── suspension ────────────────────────────────────────────────────────────

    method TakeSlot(fd: int, writable: bool, id: nat)
      requires Valid() && id != 0
      modifies this`waiters, this`slots
      ensures Valid() && slots == old(slots)[(fd, writable) := id]
    {
      hide Mirrors, Store;
      MirrorsSet(waiters, slots, fd, writable, id);
      waiters := Store(waiters, fd, Lookup(waiters, fd).With(writable, id));
      slots := slots[(fd, writable) := id];
    }

    /** The lock region of a submission. */
    method Record(fd: int, writable: bool, deadline: Option<int>)
      requires Valid() && Lookup(waiters, fd).Of(writable) == 0
      modifies this`operations, this`waiters, this`slots, this`nextId, timers
      ensures Valid() && State() == Register(old(State()), fd, writable, deadline)
    {
      hide Mirrors, Store, Lookup;
      nextId := nextId + 1;
      var wake, cut := timers.AddFor(nextId, None, deadline);
      var operation := Operation(Readiness, fd, writable, true, wake, cut);
      hide TimersFor, HandleFor, Serials;
      operations := operations[nextId := operation];
      TakeSlot(fd, writable, nextId);
    }

    /** Register for everybody on the descriptor; a failure undoes the record. */
    method ArmOrDiscard(id: nat, fd: int, arming: Arming, release: Arming)
      requires Valid() && id in operations
      modifies this`operations, this`waiters, this`slots, this`kernel, this`discarded, timers`timers
      ensures Valid()
      ensures var s := old(State());
        var armed := s.(kernel := TryArm(s.backend, s.kernel, fd, InterestIn(s.slots, fd), arming));
        State() == if arming.Armed? then armed else PosixLoop.Discard(armed, id, release)
    {
      hide Mirrors, PosixLoop.Discard, TryArm;
      MirrorsEntry(waiters, slots, fd);
      var ok := Arm(fd, Lookup(waiters, fd).Wants(), arming);
      if !ok {
        Discard(id, release);
      }
    }

    method AddWaiter(fd: int, writable: bool, deadline: Option<int>, arming: Arming, release: Arming)
      returns (r: Submitted)
      requires Valid()
      modifies this`operations, this`waiters, this`slots, this`nextId, this`kernel, this`discarded, timers
      ensures Valid()
      ensures State() == PosixLoop.AddWaiter(old(State()), fd, writable, deadline, arming, release)
      ensures r == if fd < 0 then InvalidArgument
                   else if old(shuttingDown) then LoopGone
                   else if (fd, writable) in old(slots) then InvalidArgument
                   else if arming.Armed? then Accepted(old(nextId) + 1) else NotArmed(arming.code)
    {
      hide Mirrors, Register, PosixLoop.Discard, TryArm;
      MirrorsSide(waiters, slots, fd, writable);
      if fd < 0 {
        return InvalidArgument;
      }
      if shuttingDown {
        return LoopGone;
      }
      if Lookup(waiters, fd).Of(writable) != 0 {
        return InvalidArgument;
      }
      RegisterRecords(State(), fd, writable, deadline);
      Record(fd, writable, deadline);
      ArmOrDiscard(nextId, fd, arming, release);
      r := if arming.Armed? then Accepted(nextId) else NotArmed(arming.code);
    }

    method AddTimer(wakeAt: int, deadline: Option<int>) returns (r: Submitted)
      modifies this`operations, this`nextId, timers
      ensures State() == PosixLoop.AddTimer(old(State()), wakeAt, deadline)
      ensures r == if old(shuttingDown) then LoopGone else Accepted(old(nextId) + 1)
    {
      if shuttingDown {
        return LoopGone;
      }
      nextId := nextId + 1;
      var wake, cut := timers.AddFor(nextId, Some(wakeAt), deadline);
      var operation := Operation(Sleep, -1, false, false, wake, cut);
      hide TimersFor;
      operations := operations[nextId := operation];
      r := Accepted(nextId);
    }

    method RequestCancel(id: nat)
      modifies this`cancels
      ensures State() == PosixLoop.RequestCancel(old(State()), id)
    {
      if id in operations {
        cancels := cancels + [id];
      }
    }

    // ── detaching and shutting down ───────────────────────────────────────────

    method DropArmed(id: nat)
      modifies this`operations
      ensures operations == Disarmed(old(operations), id)
    {
      if id in operations {
        operations := operations[id := operations[id].(armed := false)];
      }
    }

    /** Take everybody off a descriptor without a registration; the caller
        delivers the outcome to them. */
    method FailWaiters(fd: int, outcome: Outcome) returns (broken: seq<(nat, Outcome)>)
      requires Valid()
      modifies this`operations, this`waiters, this`slots
      ensures Valid()
      ensures broken == BrokenWaiters(old(State()), fd, outcome)
      ensures State() == if broken == [] then old(State()) else ClearSlots(old(State()), fd)
    {
      hide Mirrors, Disarmed;
      MirrorsEntry(waiters, slots, fd);
      if fd !in waiters {
        return [];
      }
      var w := waiters[fd];
      broken := [(w.read, outcome), (w.write, outcome)];
      DropArmed(w.read);
      DropArmed(w.write);
      MirrorsDrop(waiters, slots, fd);
      waiters := waiters - {fd};
      slots := slots - Sides(fd);
    }

    /** Refuse everything from now on and list who is still suspended. */
    method BeginShutdown() returns (orphans: seq<nat>)
      modifies this`shuttingDown
      ensures State() == old(State()).(shuttingDown := true)
      ensures forall id :: id in orphans <==> !old(shuttingDown) && id in operations
    {
      orphans := [];
      if shuttingDown {
        return;
      }
      shuttingDown := true;
      var left := operations.Keys;
      while left != {}
        invariant left <= operations.Keys
        invariant forall id :: id in operations <==> id in orphans || id in left
        decreases |left|
      {
        var id :| id in left;
        orphans, left := orphans + [id], left - {id};
      }
    }

    // ── one batch ─────────────────────────────────────────────────────────────

    /** Take whoever waits on one direction, if anyone does. */
    method Claim(fd: int, writable: bool, resolved: seq<(nat, Outcome)>) returns (after: seq<(nat, Outcome)>)
      requires Valid()
      modifies this`operations, this`waiters, this`slots
      ensures Valid()
      ensures var b := PosixLoop.Claim(Batch(old(State()), resolved, []), (fd, writable));
        State() == b.loop && after == b.resolved
    {
      hide Mirrors, Disarmed, Store;
      MirrorsSide(waiters, slots, fd, writable);
      MirrorsHolder(waiters, slots, fd, writable);
      var w := Lookup(waiters, fd);
      var id := w.Of(writable);
      if id == 0 {
        return resolved;
      }
      MirrorsClear(waiters, slots, fd, writable);
      waiters := Store(waiters, fd, w.With(writable, 0));
      slots := slots - {(fd, writable)};
      DropArmed(id);
      after := resolved + [(id, Success)];
    }

    method ClaimEvent(e: Event, resolved: seq<(nat, Outcome)>, rearm: seq<(int, Interest)>)
      returns (after: seq<(nat, Outcome)>, still: seq<(int, Interest)>)
      requires Valid()
      modifies this`operations, this`waiters, this`slots
      ensures Valid()
      ensures Batch(State(), after, still) == PosixLoop.ClaimEvent(Batch(old(State()), resolved, rearm), e)
    {
      hide Mirrors, PosixLoop.Claim;
      MirrorsEntry(waiters, slots, e.fd);
      after, still := resolved, rearm;
      if e.fd !in waiters {
        return;
      }
      if e.readable || e.failed {
        ClaimLeavesRearm(State(), after, rearm, (e.fd, false));
        after := Claim(e.fd, false, after);
      }
      if e.writable || e.failed {
        ClaimLeavesRearm(State(), after, rearm, (e.fd, true));
        after := Claim(e.fd, true, after);
      }
      MirrorsEntry(waiters, slots, e.fd);
      if e.fd in waiters {
        still := rearm + [(e.fd, waiters[e.fd].Wants())];
      }
    }

    method ClaimEvents(events: seq<Event>) returns (resolved: seq<(nat, Outcome)>, rearm: seq<(int, Interest)>)
      requires Valid()
      modifies this`operations, this`waiters, this`slots
      ensures Valid()
      ensures Batch(State(), resolved, rearm) == ClaimAll(Batch(old(State()), [], []), events)
    {
      hide Mirrors, PosixLoop.ClaimEvent;
      resolved, rearm := [], [];
      for i := 0 to |events|
        invariant Valid()
        invariant Batch(State(), resolved, rearm) == ClaimAll(Batch(old(State()), [], []), events[..i])
      {
        assert events[..i + 1][..i] == events[..i];
        resolved, rearm := ClaimEvent(events[i], resolved, rearm);
      }
      assert events[..|events|] == events;
    }

    /** Completions, then timers, then cancellations: one list, by id. */
    method Collect(events: seq<Event>, now: int)
      returns (resolved: seq<(nat, Outcome)>, rearm: seq<(int, Interest)>, keys: seq<Key>)
      requires Valid()
      modifies this, timers`timers
      ensures Valid() && DueInOrder(old(timers.timers), now, keys)
      ensures Batch(State(), resolved, rearm) == PosixLoop.Collect(old(State()), events, now, keys)
    {
      hide Mirrors, FireAll, ClaimAll, NotDue, Expired;
      kernel := FireAll(backend, kernel, events);
      resolved, rearm := ClaimEvents(events);
      ghost var queued := timers.timers;
      ClaimAllAside(Batch(old(State()).(kernel := kernel), [], []), events);
      var expired;
      keys, expired := timers.ExtractExpired(now);
      assert forall k :: k in keys ==> k in queued;
      var due := ListExpired(keys, expired, queued);
      var asked := ListCancelled(cancels);
      cancels := [];
      resolved := resolved + due + asked;
    }
  }

  /** The timers taken out, as they will be listed. */
  method ListExpired(keys: seq<Key>, expired: seq<Target>, ghost queued: Queue) returns (due: seq<(nat, Outcome)>)
    requires |expired| == |keys| && forall i :: 0 <= i < |keys| ==> keys[i] in queued && expired[i] == queued[keys[i]]
    ensures (forall k :: k in keys ==> k in queued) && due == Expired(queued, keys)
  {
    due := [];
    for i := 0 to |expired|
      invariant due == Expired(queued, keys[..i])
    {
      assert keys[..i + 1][..i] == keys[..i];
      due := due + [(expired[i].operation, TimerOutcome(expired[i]))];
    }
    assert keys[..|keys|] == keys;
  }

  method ListCancelled(cancels: seq<nat>) returns (asked: seq<(nat, Outcome)>)
    ensures asked == AllCancelled(cancels)
  {
    asked := [];
    for i := 0 to |cancels|
      invariant asked == AllCancelled(cancels[..i])
    {
      asked := asked + [(cancels[i], Cancelled)];
    }
    assert cancels[..|cancels|] == cancels;
  }

  /** Unlinking clears the slot only if it still names this operation. */
  lemma MirrorsFree(waiters: map<int, FdWaiters>, slots: map<Side, nat>, op: Operation, id: nat)
    requires Mirrors(waiters, slots) && op.kind.Readiness? && op.fd in waiters
    ensures var w := waiters[op.fd];
      var w1 := if w.Of(op.writable) == id then w.With(op.writable, 0) else w;
      Mirrors(Store(waiters, op.fd, w1), FreeSlot(slots, op, id))
  {
    var side := (op.fd, op.writable);
    var w := waiters[op.fd];
    if w.Of(op.writable) == id {
      MirrorsClear(waiters, slots, op.fd, op.writable);
      assert side !in slots ==> slots - {side} == slots;
    } else {
      assert Store(waiters, op.fd, w) == waiters;
    }
  }
}
