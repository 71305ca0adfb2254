/** Nobody waits on a descriptor the kernel is not watching.

Registrations are one-shot: a firing takes down more than the waiter it wakes,
and the batch puts back what others still need. In between, resumed code may
register, cancel or detach the same descriptor.
*/
module PosixArming {
  import opened Accounts
  import opened Octets
  import opened Timers
  import opened PosixLoop
  import opened PosixLedger
  import opened PosixRuns
  import opened PosixSafety

  /** The registrations once the rest of the list has been armed. */
  ghost function RearmAll(backend: Backend, kernel: set<Side>, todo: seq<(int, Interest)>): (r: set<Side>)
    decreases |todo|
  {
    if todo == [] then kernel
    else RearmAll(backend, Arm(backend, kernel, todo[0].0, todo[0].1), todo[1..])
  }

  ghost function Todo(stack: seq<Frame>): (r: seq<(int, Interest)>)
  {
    if |stack| >= 2 && stack[1].Rearming? then stack[1].todo else []
  }

  /** Every side somebody waits on is registered once the list has been armed. */
  ghost predicate Covered(y: System)
  {
    y.loop.slots.Keys <= RearmAll(y.loop.backend, y.loop.kernel, Todo(y.stack))
  }

  /** What the rest of the list registers by itself. */
  ghost function Promised(backend: Backend, todo: seq<(int, Interest)>): (r: set<Side>)
  {
    RearmAll(backend, {}, todo)
  }

  /** An entry for the descriptor is still on the list, and arming it replaces
      whatever is registered meanwhile. */
  predicate Replaced(backend: Backend, todo: seq<(int, Interest)>, fd: int)
  {
    backend.Epoll? && exists i :: 0 <= i < |todo| && todo[i].0 == fd
  }

  /** Whoever joins this side now loses its registration to the list. */
  ghost predicate Clobbered(y: System, side: Side)
  {
    var todo := Todo(y.stack);
    Replaced(y.loop.backend, todo, side.0) && side !in Promised(y.loop.backend, todo)
  }

  /** Giving a registration back keeps `side` alive: nobody waits on it, the call
      succeeds or leaves it in place, or the list registers it again. */
  ghost predicate Restored(y: System, side: Side, release: Arming)
  {
    || side !in y.loop.slots
    || release.Armed? || release.left.Wants(side.1)
    || side in Promised(y.loop.backend, Todo(y.stack))
  }

  predicate Accepts(s: Loop, fd: int, writable: bool)
  {
    fd >= 0 && !s.shuttingDown && (fd, writable) !in s.slots
  }

  /** A new waiter is not clobbered by the list; a registration given back, for a
      refused or a finished operation, is restored for the other direction. That
      the batch's own arm calls succeed is not asked. */
  ghost predicate Harmless(y: System, a: Action)
    requires Enabled(y, a)
  {
    match a
    case SubmitWaiter(fd, writable, _, arming, release) =>
      Accepts(y.loop, fd, writable) ==>
        if arming.Armed? then !Clobbered(y, (fd, writable)) else Restored(y, (fd, !writable), release)
    case Deliver(release) =>
      var id := y.stack[|y.stack| - 1].owed[0].0;
      id in y.loop.ops && LeavesRegistration(y.loop, id) ==>
        Restored(y, (y.loop.ops[id].fd, !y.loop.ops[id].writable), release)
    case _ => true
  }

  // ── re-arming ───────────────────────────────────────────────────────────────

  lemma EitherWay(side: Side)
    ensures side == (side.0, false) || side == (side.0, true)
  {
    if side.1 {
      assert side == (side.0, true);
    } else {
      assert side == (side.0, false);
    }
  }

  lemma {:induction false} RearmOne(backend: Backend, kernel: set<Side>, todo: seq<(int, Interest)>)
    requires todo != []
    ensures RearmAll(backend, kernel, todo)
         == RearmAll(backend, Arm(backend, kernel, todo[0].0, todo[0].1), todo[1..])
  {
  }

  lemma {:induction false} RearmLast(backend: Backend, kernel: set<Side>, todo: seq<(int, Interest)>, fd: int, interest: Interest)
    ensures RearmAll(backend, kernel, todo + [(fd, interest)])
         == Arm(backend, RearmAll(backend, kernel, todo), fd, interest)
    decreases |todo|
  {
    var longer := todo + [(fd, interest)];
    if todo == [] {
      assert RearmAll(backend, Arm(backend, kernel, fd, interest), longer[1..]) == Arm(backend, kernel, fd, interest);
    } else {
      assert longer[1..] == todo[1..] + [(fd, interest)];
      RearmLast(backend, Arm(backend, kernel, todo[0].0, todo[0].1), todo[1..], fd, interest);
    }
  }

  /** Whether a side ends up registered depends on its own descriptor only. */
  lemma {:induction false} RearmElsewhere(
      backend: Backend, kernel: set<Side>, other: set<Side>, todo: seq<(int, Interest)>, side: Side)
    requires side in kernel ==> side in other
    ensures side in RearmAll(backend, kernel, todo) ==> side in RearmAll(backend, other, todo)
    decreases |todo|
  {
    if todo != [] {
      RearmElsewhere(backend, Arm(backend, kernel, todo[0].0, todo[0].1),
                     Arm(backend, other, todo[0].0, todo[0].1), todo[1..], side);
    }
  }

  /** A side ends up registered if the list wants it, or if it is registered now
      and the list does not replace it. */
  lemma {:induction false} RearmMeans(backend: Backend, kernel: set<Side>, todo: seq<(int, Interest)>, side: Side)
    ensures side in RearmAll(backend, kernel, todo) <==>
              side in Promised(backend, todo) || (side in kernel && !Replaced(backend, todo, side.0))
    decreases |todo|
  {
    if todo != [] {
      var (fd, interest) := todo[0];
      RearmMeans(backend, Arm(backend, kernel, fd, interest), todo[1..], side);
      RearmMeans(backend, Arm(backend, {}, fd, interest), todo[1..], side);
      ReplacedFirst(backend, todo, side.0);
      EitherWay(side);
    }
  }

  lemma ReplacedFirst(backend: Backend, todo: seq<(int, Interest)>, fd: int)
    requires todo != []
    ensures Replaced(backend, todo, fd) <==> backend.Epoll? && (todo[0].0 == fd || Replaced(backend, todo[1..], fd))
  {
    assert forall i :: 1 <= i < |todo| ==> todo[i] == todo[1..][i - 1];
    if Replaced(backend, todo[1..], fd) {
      var i :| 0 <= i < |todo[1..]| && todo[1..][i].0 == fd;
      assert todo[i + 1].0 == fd;
    }
  }

  /** Under epoll the last entry of a descriptor decides. */
  lemma {:induction false} PromisedMeans(todo: seq<(int, Interest)>, side: Side)
    ensures side in Promised(Epoll, todo) <==>
              exists i :: 0 <= i < |todo| && todo[i].0 == side.0 && todo[i].1.Wants(side.1)
                          && forall k :: i < k < |todo| ==> todo[k].0 != side.0
  {
    if todo != [] {
      var n := |todo| - 1;
      var before := todo[..n];
      var (fd, interest) := todo[n];
      assert todo == before + [(fd, interest)];
      RearmLast(Epoll, {}, before, fd, interest);
      PromisedMeans(before, side);
      EitherWay(side);
      if fd != side.0 && side in Promised(Epoll, before) {
        var i :| 0 <= i < n && before[i].0 == side.0 && before[i].1.Wants(side.1)
                 && forall k :: i < k < n ==> before[k].0 != side.0;
        assert todo[i] == before[i] && forall k :: i < k < n ==> todo[k] == before[k];
      }
    }
  }

  // ── a batch covers whom it leaves behind ────────────────────────────────────

  lemma ArmCovers(backend: Backend, kernel: set<Side>, slots: map<Side, nat>, fd: int, side: Side)
    requires side in slots
    ensures var k := Arm(backend, kernel, fd, InterestIn(slots, fd));
      if side.0 == fd then side in k else (side in k <==> side in kernel)
  {
    EitherWay(side);
  }

  lemma FireIsLocal(backend: Backend, kernel: set<Side>, e: Event, side: Side)
    requires side.0 != e.fd && side in kernel
    ensures side in Fire(backend, kernel, e)
  {
  }

  lemma {:induction false} ClaimEventCovers(b: Batch, e: Event, kernel: set<Side>)
    requires b.loop.slots.Keys <= RearmAll(b.loop.backend, kernel, b.rearm)
    ensures var b1 := ClaimEvent(b, e);
      b1.loop.slots.Keys <= RearmAll(b.loop.backend, Fire(b.loop.backend, kernel, e), b1.rearm)
  {
    var backend := b.loop.backend;
    var b1 := ClaimEvent(b, e);
    var fired := Fire(backend, kernel, e);
    forall side | side in b1.loop.slots ensures side in RearmAll(backend, fired, b1.rearm) {
      ClaimEventFields(b, e);
      RearmLast(backend, fired, b.rearm, e.fd, InterestIn(b1.loop.slots, e.fd));
      hide RearmAll;
      if side.0 == e.fd {
        ArmCovers(backend, RearmAll(backend, fired, b.rearm), b1.loop.slots, e.fd, side);
        assert Watched(b1.loop.slots, e.fd) by { EitherWay(side); }
      } else {
        if side in kernel { FireIsLocal(backend, kernel, e, side); }
        RearmElsewhere(backend, kernel, fired, b.rearm, side);
      }
    }
  }

  lemma ClaimFields(b: Batch, side: Side)
    ensures var b1 := Claim(b, side);
      && b1.loop.slots.Keys <= b.loop.slots.Keys
      && b1.loop.backend == b.loop.backend && b1.loop.kernel == b.loop.kernel && b1.rearm == b.rearm
  {
  }

  /** An event shrinks the slots of its own descriptor, and lists the descriptor
      for re-arming exactly when somebody is still there. */
  lemma ClaimEventFields(b: Batch, e: Event)
    ensures var b1 := ClaimEvent(b, e);
      && b1.loop.slots.Keys <= b.loop.slots.Keys
      && b1.loop.backend == b.loop.backend && b1.loop.kernel == b.loop.kernel
      && b1.rearm == if Watched(b1.loop.slots, e.fd)
                     then b.rearm + [(e.fd, InterestIn(b1.loop.slots, e.fd))] else b.rearm
  {
    ClaimFields(b, (e.fd, false));
    ClaimFields(if e.Takes((e.fd, false)) then Claim(b, (e.fd, false)) else b, (e.fd, true));
    hide Claim;
  }

  lemma {:induction false} ClaimAllCovers(b: Batch, events: seq<Event>, kernel: set<Side>)
    requires b.loop.slots.Keys <= kernel && b.rearm == []
    ensures var b1 := ClaimAll(b, events);
      && b1.loop.backend == b.loop.backend && b1.loop.kernel == b.loop.kernel
      && b1.loop.slots.Keys <= RearmAll(b.loop.backend, FireAll(b.loop.backend, kernel, events), b1.rearm)
  {
    hide ClaimEvent, Fire;
    if events != [] {
      var n := |events| - 1;
      var b1 := ClaimAll(b, events[..n]);
      ClaimAllCovers(b, events[..n], kernel);
      ClaimEventFields(b1, events[n]);
      ClaimEventCovers(b1, events[n], FireAll(b.loop.backend, kernel, events[..n]));
    }
  }

  // ── user code and deliveries uncover nobody ─────────────────────────────────

  /** Removing an operation leaves other descriptors alone; on its own, the other
      direction stays registered exactly if the release says so. */
  lemma RemoveCovers(s: Loop, id: nat, release: Arming, side: Side)
    requires SlotsAgree(s.ops, s.slots) && id in s.ops
    requires side in Remove(s, id, release).slots
    ensures var t, op := Remove(s, id, release), s.ops[id];
      && side in s.slots
      && (side.0 == op.fd && LeavesRegistration(s, id) ==>
            side == (op.fd, !op.writable) && (side in t.kernel <==> release.Armed? || release.left.Wants(side.1)))
      && (side.0 != op.fd || !LeavesRegistration(s, id) ==> (side in t.kernel <==> side in s.kernel))
  {
    SlotsAfterUnlink(s, id);
    RemoveIsUnlink(s, id, release);
    var op := s.ops[id];
    var t := Remove(s, id, release);
    EitherWay(side);
    ArmCovers(s.backend, s.kernel, t.slots, op.fd, side);
    if LeavesRegistration(s, id) && side.0 == op.fd {
      assert side != (op.fd, op.writable);
      assert Watched(t.slots, op.fd);
    }
    hide Unlink, Arm, SlotsAgree;
  }

  /** And the other direction is still there. */
  lemma OtherStays(s: Loop, id: nat, release: Arming)
    requires SlotsAgree(s.ops, s.slots) && id in s.ops && (s.ops[id].fd, !s.ops[id].writable) in s.slots
    ensures (s.ops[id].fd, !s.ops[id].writable) in Remove(s, id, release).slots
  {
    SlotsAfterUnlink(s, id);
    RemoveIsUnlink(s, id, release);
    hide Unlink;
  }

  /** A registration given back asks for nobody who is gone: once nobody waits on the
      descriptor nothing of it is left, and under epoll exactly the sides still waited
      on are. Other descriptors keep theirs. */
  lemma GivenBackExactly(s: Loop, id: nat, side: Side)
    requires SlotsAgree(s.ops, s.slots) && id in s.ops && LeavesRegistration(s, id)
    ensures var t, fd := Remove(s, id, Armed), s.ops[id].fd;
      && (side.0 != fd ==> (side in t.kernel <==> side in s.kernel))
      && (side.0 == fd && (s.backend.Epoll? || !Watched(t.slots, fd)) ==> (side in t.kernel <==> side in t.slots))
      && (s.ops[id].fd, s.ops[id].writable) !in t.slots
  {
    SlotsAfterUnlink(s, id);
    RemoveIsUnlink(s, id, Armed);
    EitherWay(side);
    hide Unlink, SlotsAgree;
  }

  lemma TryArmIsLocal(backend: Backend, kernel: set<Side>, fd: int, interest: Interest, arming: Arming, side: Side)
    requires side.0 != fd
    ensures side in TryArm(backend, kernel, fd, interest, arming) <==> side in kernel
  {
  }

  /** What a submission leaves of a waited-on side's registration. */
  lemma AddWaiterCovers(
      s: Loop, fd: int, writable: bool, deadline: Option<int>, arming: Arming, release: Arming, pending: set<nat>,
      side: Side)
    requires Tables(s, pending) && Accepts(s, fd, writable)
    requires side in AddWaiter(s, fd, writable, deadline, arming, release).slots
    ensures var t := AddWaiter(s, fd, writable, deadline, arming, release);
      && (side in s.slots || (arming.Armed? && side == (fd, writable)))
      && (side.0 != fd ==> (side in t.kernel <==> side in s.kernel))
      && (side.0 == fd && arming.Armed? ==> side in t.kernel)
      && (side.0 == fd && !arming.Armed? ==>
            side == (fd, !writable) && (side in t.kernel <==> release.Armed? || release.left.Wants(side.1)))
  {
    RegisterKeeps(s, fd, writable, deadline, pending);
    var s1 := Register(s, fd, writable, deadline);
    var s2 := s1.(kernel := TryArm(s1.backend, s1.kernel, fd, InterestIn(s1.slots, fd), arming));
    hide SlotsAgree, TimersAgree, Accounted, Owed, Remove;
    ArmCovers(s1.backend, s1.kernel, s1.slots, fd, side);
    if side.0 != fd {
      TryArmIsLocal(s1.backend, s1.kernel, fd, InterestIn(s1.slots, fd), arming, side);
    }
    if !arming.Armed? {
      NewcomerLeaves(s, fd, writable, deadline, s2, pending);
      RemoveCovers(s2, s2.nextId, release, side);
      NewcomerGone(s2, release);
    }
    hide Arm, TryArm;
  }

  lemma NewcomerLeaves(s: Loop, fd: int, writable: bool, deadline: Option<int>, s2: Loop, pending: set<nat>)
    requires Tables(s, pending) && Accepts(s, fd, writable)
    requires s2 == Register(s, fd, writable, deadline).(kernel := s2.kernel)
    ensures s2.nextId in s2.ops && s2.ops[s2.nextId].fd == fd && s2.ops[s2.nextId].writable == writable
    ensures s2.ops[s2.nextId].armed && LeavesRegistration(s2, s2.nextId)
    ensures SlotsAgree(s2.ops, s2.slots) && s2.slots == s.slots[(fd, writable) := s2.nextId]
  {
    RegisterKeeps(s, fd, writable, deadline, pending);
    EitherWay((fd, writable));
    hide TimersFor, TimersAgree, Accounted, Owed;
  }

  lemma NewcomerGone(s2: Loop, release: Arming)
    requires SlotsAgree(s2.ops, s2.slots) && s2.nextId in s2.ops && s2.ops[s2.nextId].armed
    ensures Remove(s2, s2.nextId, release).slots == s2.slots - {(s2.ops[s2.nextId].fd, s2.ops[s2.nextId].writable)}
  {
    SlotsAfterUnlink(s2, s2.nextId);
    RemoveIsUnlink(s2, s2.nextId, release);
    hide Unlink, SlotsAgree;
  }

  /** Who is in which slot afterwards. */
  lemma AddWaiterSlots(
      s: Loop, fd: int, writable: bool, deadline: Option<int>, arming: Arming, release: Arming, pending: set<nat>)
    requires Tables(s, pending) && Accepts(s, fd, writable)
    ensures var t := AddWaiter(s, fd, writable, deadline, arming, release);
      t.slots.Keys == if arming.Armed? then s.slots.Keys + {(fd, writable)} else s.slots.Keys
  {
    hide Tables, Remove, TryArm, SlotsAgree, LeavesRegistration, TimersFor;
    var s1 := Register(s, fd, writable, deadline);
    var s2 := s1.(kernel := TryArm(s1.backend, s1.kernel, fd, InterestIn(s1.slots, fd), arming));
    assert s2 == s1.(kernel := s2.kernel);
    NewcomerLeaves(s, fd, writable, deadline, s2, pending);
    if !arming.Armed? {
      NewcomerGone(s2, release);
    }
  }

  // ── exactly the harmless steps keep everybody covered ───────────────────────

  lemma SubmitCovers(y: System, a: Action)
    requires Inv(y) && Covered(y) && Enabled(y, a) && a.SubmitWaiter? && Accepts(y.loop, a.fd, a.writable)
    ensures Covered(Apply(y, a)) <==> Harmless(y, a)
  {
    var z := Apply(y, a);
    var s, t, todo := y.loop, z.loop, Todo(y.stack);
    var SubmitWaiter(fd, writable, deadline, arming, release) := a;
    AddWaiterSlots(s, fd, writable, deadline, arming, release, Pending(y.stack));
    AddWaiterOnward(s, fd, writable, deadline, arming, release);
    assert t.backend == s.backend && Todo(z.stack) == todo;
    var key := if arming.Armed? then (fd, writable) else (fd, !writable);
    forall side | side in t.slots
      ensures side in RearmAll(t.backend, t.kernel, todo) <==> side != key || Harmless(y, a)
    {
      AddWaiterCovers(s, fd, writable, deadline, arming, release, Pending(y.stack), side);
      RearmMeans(t.backend, t.kernel, todo, side);
      if side in s.slots {
        RearmMeans(s.backend, s.kernel, todo, side);
      }
      hide AddWaiter, Tables, RearmAll, Replaced, Pending;
    }
    hide AddWaiter, Tables, RearmAll, Replaced;
  }

  lemma DeliverCovers(y: System, release: Arming)
    requires Inv(y) && Covered(y) && Enabled(y, Deliver(release))
    ensures Covered(Apply(y, Deliver(release))) <==> Harmless(y, Deliver(release))
  {
    var z := Apply(y, Deliver(release));
    var s, todo := y.loop, Todo(y.stack);
    var (id, outcome) := y.stack[|y.stack| - 1].owed[0];
    assert Todo(z.stack) == todo;
    if id in s.ops {
      assert SlotsAgree(s.ops, s.slots) by { TablesSlots(s, Pending(y.stack)); }
      var t := Remove(s, id, release);
      RemoveIsUnlink(s, id, release);
      assert z.loop == t.(resumed := z.loop.resumed) && t.backend == s.backend;
      var other := (s.ops[id].fd, !s.ops[id].writable);
      if other in s.slots {
        OtherStays(s, id, release);
      }
      forall side | side in t.slots
        ensures side in RearmAll(t.backend, t.kernel, todo) <==> side != other || Harmless(y, Deliver(release))
      {
        RemoveCovers(s, id, release, side);
        RearmMeans(t.backend, t.kernel, todo, side);
        RearmMeans(s.backend, s.kernel, todo, side);
        hide Remove, Tables, RearmAll, Replaced, SlotsAgree, LeavesRegistration;
      }
      hide Remove, Tables, RearmAll, Replaced, SlotsAgree, LeavesRegistration;
    }
  }

  lemma RunOnceCovers(y: System, events: seq<Event>, now: int, keys: seq<Key>)
    requires Covered(y) && Enabled(y, RunOnce(events, now, keys))
    ensures Covered(Apply(y, RunOnce(events, now, keys)))
  {
    var fired := y.loop.(kernel := FireAll(y.loop.backend, y.loop.kernel, events));
    assert RearmAll(y.loop.backend, y.loop.kernel, []) == y.loop.kernel;
    ClaimAllCovers(Batch(fired, [], []), events, y.loop.kernel);
    hide RearmAll, ClaimAll, FireAll, Expired, AllCancelled, NotDue;
  }

  /** A refused entry takes its waiters with it; the others keep what they had. */
  lemma RearmCovers(y: System, arming: Arming)
    requires Covered(y) && WellStacked(y.stack) && Enabled(y, Rearm(arming))
    ensures Covered(Apply(y, Rearm(arming)))
  {
    var top := y.stack[|y.stack| - 1];
    var (fd, interest) := top.todo[0];
    var z := Apply(y, Rearm(arming));
    assert |y.stack| == 2;
    RearmOne(y.loop.backend, y.loop.kernel, top.todo);
    assert Todo(z.stack) == top.todo[1..];
    if !arming.Armed? {
      forall side | side in z.loop.slots
        ensures side in RearmAll(y.loop.backend, z.loop.kernel, top.todo[1..])
      {
        EitherWay(side);
        assert side.0 != fd;
        RearmElsewhere(y.loop.backend, Arm(y.loop.backend, y.loop.kernel, fd, interest), z.loop.kernel, top.todo[1..], side);
      }
    }
  }

  lemma DetachCovers(y: System, fd: int)
    requires Covered(y) && WellStacked(y.stack) && Enabled(y, Detach(fd))
    ensures Covered(Apply(y, Detach(fd)))
  {
    var z := Apply(y, Detach(fd));
    assert Todo(z.stack) == Todo(y.stack);
    forall side | side in z.loop.slots ensures side in RearmAll(y.loop.backend, z.loop.kernel, Todo(y.stack)) {
      EitherWay(side);
      RearmElsewhere(y.loop.backend, y.loop.kernel, z.loop.kernel, Todo(y.stack), side);
    }
  }

  /** Of all steps exactly the harmless ones leave every waiter covered. */
  lemma StepCovers(y: System, a: Action)
    requires Inv(y) && Covered(y) && Enabled(y, a)
    ensures Covered(Apply(y, a)) <==> Harmless(y, a)
  {
    hide Tables, RearmAll, Clobbered, Restored;
    match a
    case SubmitWaiter(fd, writable, _, _, _) =>
      if Accepts(y.loop, fd, writable) {
        SubmitCovers(y, a);
      }
    case Detach(fd) => DetachCovers(y, fd);
    case RunOnce(events, now, keys) => RunOnceCovers(y, events, now, keys);
    case Rearm(arming) => RearmCovers(y, arming);
    case Deliver(release) => DeliverCovers(y, release);
    case _ =>
  }

  lemma TablesSlots(s: Loop, pending: set<nat>)
    requires Tables(s, pending)
    ensures SlotsAgree(s.ops, s.slots)
  {
  }

  ghost predicate AllHarmless(states: seq<System>, run: seq<Action>)
    requires IsRun(states, run)
  {
    forall i :: 0 <= i < |run| ==> Harmless(states[i], run[i])
  }

  lemma {:induction false} RunCovers(states: seq<System>, run: seq<Action>, backend: Backend, j: nat)
    requires FromStart(states, run, backend) && AllHarmless(states, run) && j <= |run|
    ensures Covered(states[j])
  {
    hide Inv, Apply, Enabled, Harmless;
    if j > 0 {
      RunCovers(states, run, backend, j - 1);
      ReachedInv(states, run, backend, j - 1);
      StepCovers(states[j - 1], run[j - 1]);
    }
  }

  /** If every step is harmless, then between batches every waiter's side of its
      descriptor is registered with the kernel, however many of the batch's own
      arm calls are refused. */
  lemma NoStrandedWaiter(states: seq<System>, run: seq<Action>, backend: Backend, j: nat, id: nat)
    requires FromStart(states, run, backend) && AllHarmless(states, run) && j <= |run|
    requires states[j].Quiet() && id in states[j].loop.ops && states[j].loop.ops[id].kind.Readiness?
    ensures var t := states[j].loop; (t.ops[id].fd, t.ops[id].writable) in t.kernel
  {
    RunCovers(states, run, backend, j);
    assert FromStart(states[..j + 1], run[..j], backend);
    NobodyForgotten(states[..j + 1], run[..j], backend, id);
    assert RearmAll(states[j].loop.backend, states[j].loop.kernel, []) == states[j].loop.kernel;
  }

  /** No registration is lost to a refusal: a waiter is armed or what it changed is
      put back, and so is what a finished operation gives up; under epoll the
      batch's own arm calls succeed too. */
  predicate NothingLost(backend: Backend, a: Action)
  {
    match a
    case SubmitWaiter(_, _, _, arming, release) => arming.Armed? || release.Armed?
    case Deliver(release) => release.Armed?
    case Rearm(arming) => backend.Kqueue? || arming.Armed?
    case _ => true
  }

  /** No code runs while a batch has descriptors left to re-arm, which under kqueue
      does not matter. */
  ghost predicate RearmsAlone(y: System)
  {
    y.loop.backend.Epoll? && |y.stack| > 2 ==> !y.stack[1].Rearming?
  }

  /** The stack changes at its top only. */
  lemma StackAfter(y: System, a: Action)
    requires WellStacked(y.stack) && RearmsAlone(y) && Enabled(y, a) && NothingLost(y.loop.backend, a)
    requires y.loop.backend.Epoll?
    ensures var t := Apply(y, a).stack; |t| > 2 ==> !t[1].Rearming?
  {
    hide AddWaiter, AddTimer, Collect, Finalize, ClearSlots, BrokenWaiters, RequestCancel, TryArm;
  }

  lemma LosslessIsHarmless(y: System, a: Action)
    requires WellStacked(y.stack) && RearmsAlone(y) && Enabled(y, a) && NothingLost(y.loop.backend, a)
    ensures Harmless(y, a)
  {
    hide RearmAll, Promised;
  }

  lemma {:induction false} LosslessRun(states: seq<System>, run: seq<Action>, backend: Backend, j: nat)
    requires FromStart(states, run, backend) && j <= |run| && forall a :: a in run ==> NothingLost(backend, a)
    ensures RearmsAlone(states[j]) && states[j].loop.backend == backend
    ensures j < |run| ==> Harmless(states[j], run[j])
    decreases j
  {
    hide Tables, Pending, Apply, Enabled, Harmless, NothingLost;
    if j > 0 {
      LosslessRun(states, run, backend, j - 1);
      ReachedInv(states, run, backend, j - 1);
      StepOnward(states[j - 1], run[j - 1]);
      assert run[j - 1] in run;
      if backend.Epoll? { StackAfter(states[j - 1], run[j - 1]); }
    }
    if j < |run| {
      assert run[j] in run;
      ReachedInv(states, run, backend, j);
      LosslessIsHarmless(states[j], run[j]);
    }
  }

  /** So in a run that loses none, between batches nobody waits unregistered. */
  lemma {:induction false} NoneLostNoneStranded(states: seq<System>, run: seq<Action>, backend: Backend, j: nat, id: nat)
    requires FromStart(states, run, backend) && j <= |run| && forall a :: a in run ==> NothingLost(backend, a)
    requires states[j].Quiet() && id in states[j].loop.ops && states[j].loop.ops[id].kind.Readiness?
    ensures var t := states[j].loop; (t.ops[id].fd, t.ops[id].writable) in t.kernel
  {
    hide Inv, Apply, Enabled, Harmless, NothingLost, RearmsAlone;
    forall i | 0 <= i < |run| ensures Harmless(states[i], run[i]) {
      LosslessRun(states, run, backend, i);
    }
    NoStrandedWaiter(states, run, backend, j, id);
  }

  /** The first step of a run that is not harmless leaves somebody uncovered: the
      kernel does not watch its side, or will not once the list has been armed. */
  lemma {:induction false} FirstHarmStrands(states: seq<System>, run: seq<Action>, backend: Backend, j: nat) returns (side: Side)
    requires FromStart(states, run, backend) && j < |run|
    requires (forall i :: 0 <= i < j ==> Harmless(states[i], run[i])) && !Harmless(states[j], run[j])
    ensures var z := states[j + 1];
      side in z.loop.slots && side !in RearmAll(z.loop.backend, z.loop.kernel, Todo(z.stack))
  {
    hide Inv, Apply, Enabled, Harmless;
    assert FromStart(states[..j + 1], run[..j], backend);
    RunCovers(states[..j + 1], run[..j], backend, j);
    ReachedInv(states, run, backend, j);
    StepCovers(states[j], run[j]);
    side :| side in states[j + 1].loop.slots &&
            side !in RearmAll(states[j + 1].loop.backend, states[j + 1].loop.kernel, Todo(states[j + 1].stack));
  }
}
