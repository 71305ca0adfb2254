/** Whole runs of the readiness loop.

A run interleaves the loop's critical sections with everything that may happen
around them: resumed code calls back into the loop in the middle of a batch, and
other threads ask for cancellations at any point. The stack says who is running:
user code, a batch re-arming descriptors, or somebody delivering outcomes.
*/
module PosixRuns {
  import opened Accounts
  import opened Octets
  import opened Timers
  import opened PosixLoop
  import opened PosixLedger

  datatype Frame =
    | User
    | Rearming(todo: seq<(int, Interest)>, resolved: seq<(nat, Outcome)>)
    | Delivering(owed: seq<(nat, Outcome)>, posted: bool)

  /** The last frame is the one that runs. */
  datatype System = System(loop: Loop, stack: seq<Frame>)
  {
    predicate Quiet()
    {
      stack == [User]
    }

    predicate UserRuns()
    {
      stack != [] && stack[|stack| - 1].User?
    }

    function Under(): (r: seq<Frame>)
      requires stack != []
    {
      stack[..|stack| - 1]
    }
  }

  datatype Action =
    | SubmitWaiter(fd: int, writable: bool, deadline: Option<int>, arming: Arming, release: Arming)
    | SubmitTimer(wakeAt: int, deadline: Option<int>)
    | AskCancel(id: nat)
    | Detach(fd: int)
    | RunOnce(events: seq<Event>, now: int, keys: seq<Key>)
    | Rearm(arming: Arming)
    | Rearmed
    | Deliver(release: Arming)
    | RunPosted
    | Delivered
    | Return
    | Shutdown(orphans: seq<nat>)

  function Start(backend: Backend): (y: System)
  {
    System(Created(backend), [User])
  }

  ghost predicate Enabled(y: System, a: Action)
  {
    && y.stack != []
    && var top := y.stack[|y.stack| - 1];
       match a
       case SubmitWaiter(_, _, _, _, _) => top.User?
       case SubmitTimer(_, _) => top.User?
       case AskCancel(_) => true
       case Detach(_) => top.User?
       case RunOnce(_, now, keys) =>
         y.Quiet() && !y.loop.shuttingDown && DueInOrder(y.loop.timers, now, keys)
       case Rearm(_) => top.Rearming? && top.todo != []
       case Rearmed => top.Rearming? && top.todo == []
       case Deliver(_) => top.Delivering? && top.owed != []
       case RunPosted => top.Delivering? && top.owed == [] && top.posted
       case Delivered => top.Delivering? && top.owed == []
       case Return => top.User? && |y.stack| > 1
       case Shutdown(orphans) =>
         y.Quiet() && !y.loop.shuttingDown && (forall id :: id in orphans <==> id in y.loop.ops)
  }

  /** A descriptor's registration is gone: take its waiters out and fail them. */
  function FailWaiters(y: System, fd: int, outcome: Outcome): (r: System)
  {
    if Watched(y.loop.slots, fd) then
      System(ClearSlots(y.loop, fd), y.stack + [Delivering(BrokenWaiters(y.loop, fd, outcome), false)])
    else y
  }

  ghost function Apply(y: System, a: Action): (r: System)
    requires Enabled(y, a)
  {
    var top := y.stack[|y.stack| - 1];
    match a
    case SubmitWaiter(fd, writable, deadline, arming, release) =>
      y.(loop := AddWaiter(y.loop, fd, writable, deadline, arming, release))
    case SubmitTimer(wakeAt, deadline) => y.(loop := AddTimer(y.loop, wakeAt, deadline))
    case AskCancel(id) => y.(loop := RequestCancel(y.loop, id))
    case Detach(fd) =>
      FailWaiters(y.(loop := y.loop.(kernel := Disarm(y.loop.kernel, fd))), fd, Cancelled)
    case RunOnce(events, now, keys) =>
      var b := Collect(y.loop, events, now, keys);
      System(b.loop, y.stack + [Rearming(b.rearm, b.resolved)])
    case Rearm(arming) =>
      var (fd, interest) := top.todo[0];
      var kernel := TryArm(y.loop.backend, y.loop.kernel, fd, interest, arming);
      var rest := System(y.loop.(kernel := kernel), y.Under() + [top.(todo := top.todo[1..])]);
      if arming.Armed? then rest else FailWaiters(rest, fd, Broken(arming.code))
    case Rearmed => y.(stack := y.Under() + [Delivering(top.resolved, true)])
    case Deliver(release) =>
      var (id, outcome) := top.owed[0];
      var rest := y.Under() + [top.(owed := top.owed[1..])];
      if id in y.loop.ops then System(Finalize(y.loop, id, outcome, release), rest + [User])
      else y.(stack := rest)
    case RunPosted => y.(stack := y.stack + [User])
    case Delivered => y.(stack := y.Under())
    case Return => y.(stack := y.Under())
    case Shutdown(orphans) =>
      System(y.loop.(shuttingDown := true), y.stack + [Delivering(AllCancelled(orphans), false)])
  }

  /** The states a run goes through, one action apart. */
  ghost predicate IsRun(states: seq<System>, run: seq<Action>)
  {
    && |states| == |run| + 1
    && forall i :: 0 <= i < |run| ==> Enabled(states[i], run[i]) && states[i + 1] == Apply(states[i], run[i])
  }

  // ── what is pending ─────────────────────────────────────────────────────────

  ghost function Ids(pairs: seq<(nat, Outcome)>): (r: set<nat>)
  {
    set p | p in pairs :: p.0
  }

  ghost function FrameIds(f: Frame): (r: set<nat>)
  {
    match f
    case User => {}
    case Rearming(_, resolved) => Ids(resolved)
    case Delivering(owed, _) => Ids(owed)
  }

  /** Everybody some frame still means to deliver to. */
  ghost function Pending(stack: seq<Frame>): (r: set<nat>)
  {
    if stack == [] then {} else Pending(stack[..|stack| - 1]) + FrameIds(stack[|stack| - 1])
  }

  lemma {:induction false} PendingPush(stack: seq<Frame>, f: Frame)
    ensures Pending(stack + [f]) == Pending(stack) + FrameIds(f)
  {
    assert (stack + [f])[..|stack|] == stack;
  }

  lemma PendingTop(y: System)
    requires y.stack != []
    ensures Pending(y.stack) == Pending(y.Under()) + FrameIds(y.stack[|y.stack| - 1])
  {
  }

  lemma IdsPop(pairs: seq<(nat, Outcome)>)
    requires pairs != []
    ensures Ids(pairs) == Ids(pairs[1..]) + {pairs[0].0}
  {
    assert pairs == [pairs[0]] + pairs[1..];
  }

  // ── the invariant ───────────────────────────────────────────────────────────

  ghost predicate CancelsKnown(cancels: seq<nat>, nextId: nat)
  {
    forall id :: id in cancels ==> 1 <= id <= nextId
  }

  ghost predicate Tables(s: Loop, pending: set<nat>)
  {
    && Accounted(s.ops.Keys, s.resumed, s.discarded, s.nextId)
    && SlotsAgree(s.ops, s.slots)
    && TimersAgree(s.ops, s.timers, s.serial)
    && Owed(s.ops, s.timers, pending)
    && CancelsKnown(s.cancels, s.nextId)
    && (s.shuttingDown ==> s.ops.Keys <= pending)
  }

  /** User code at the bottom; only the frame right above it re-arms. */
  ghost predicate WellStacked(stack: seq<Frame>)
  {
    && stack != [] && stack[0].User?
    && forall i :: 2 <= i < |stack| ==> !stack[i].Rearming?
  }

  ghost predicate Inv(y: System)
  {
    Tables(y.loop, Pending(y.stack)) && WellStacked(y.stack)
  }

  lemma StartInv(backend: Backend)
    ensures Inv(Start(backend))
  {
  }

  lemma MorePending(s: Loop, pending: set<nat>, more: set<nat>)
    requires Tables(s, pending) && pending <= more
    ensures Tables(s, more)
  {
    hide Accounted, SlotsAgree, TimersAgree, CancelsKnown, Spent;
  }

  lemma RegisterKeeps(s: Loop, fd: int, writable: bool, deadline: Option<int>, pending: set<nat>)
    requires Tables(s, pending) && fd >= 0 && !s.shuttingDown && (fd, writable) !in s.slots
    ensures Tables(Register(s, fd, writable, deadline), pending)
  {
    hide Accounted, SlotsAgree, TimersAgree, Owed;
    NextIsNew(s.ops.Keys, s.resumed, s.discarded, s.nextId);
    var id := s.nextId + 1;
    var r := Register(s, fd, writable, deadline);
    var op := r.ops[id];
    AccountNew(s.ops.Keys, s.resumed, s.discarded, s.nextId);
    assert r.ops.Keys == s.ops.Keys + {id};
    SlotsAfterInsert(s.ops, s.slots, id, op);
    TimersAfterInsert(s.ops, s.timers, s.serial, id, op, r.serial);
    OwedAfterInsert(s.ops, s.timers, pending, id, op);
  }

  lemma SlotsAfterSleep(s: Loop, wakeAt: int, deadline: Option<int>)
    requires SlotsAgree(s.ops, s.slots) && s.nextId + 1 !in s.ops
    ensures SlotsAgree(RegisterSleep(s, wakeAt, deadline).ops, s.slots)
  {
  }

  lemma RegisterSleepKeeps(s: Loop, wakeAt: int, deadline: Option<int>, pending: set<nat>)
    requires Tables(s, pending) && !s.shuttingDown
    ensures Tables(RegisterSleep(s, wakeAt, deadline), pending)
  {
    hide Accounted, SlotsAgree, TimersAgree, Owed;
    NextIsNew(s.ops.Keys, s.resumed, s.discarded, s.nextId);
    var id := s.nextId + 1;
    var r := RegisterSleep(s, wakeAt, deadline);
    var op := r.ops[id];
    AccountNew(s.ops.Keys, s.resumed, s.discarded, s.nextId);
    assert r.ops.Keys == s.ops.Keys + {id};
    SlotsAfterSleep(s, wakeAt, deadline);
    TimersAfterInsert(s.ops, s.timers, s.serial, id, op, r.serial);
    OwedAfterInsert(s.ops, s.timers, pending, id, op);
  }

  // ── leaving the table ───────────────────────────────────────────────────────

  lemma RemoveIsUnlink(s: Loop, id: nat, release: Arming)
    requires id in s.ops
    ensures Remove(s, id, release) == Unlink(s, id).(kernel := Remove(s, id, release).kernel)
    ensures Unlink(s, id).ops == s.ops - {id}
  {
  }

  lemma FinalizeKeeps(
      s: Loop, id: nat, outcome: Outcome, release: Arming, pending: set<nat>, fewer: set<nat>)
    requires Tables(s, pending) && id in s.ops && pending <= fewer + {id}
    ensures Tables(Finalize(s, id, outcome, release), fewer)
  {
    hide Accounted, SlotsAgree, TimersAgree, Owed;
    RemoveIsUnlink(s, id, release);
    hide Remove;
    AccountResumed(s.ops.Keys, s.resumed, s.discarded, s.nextId, id, outcome);
    assert (s.ops - {id}).Keys == s.ops.Keys - {id};
    SlotsAfterUnlink(s, id);
    TimersAfterUnlink(s, id);
    OwedAfterUnlink(s, id, pending, fewer);
  }

  lemma DiscardKeeps(s: Loop, id: nat, release: Arming, pending: set<nat>)
    requires Tables(s, pending) && id in s.ops && !s.shuttingDown
    ensures Tables(Discard(s, id, release), pending)
  {
    hide Accounted, SlotsAgree, TimersAgree, Owed;
    RemoveIsUnlink(s, id, release);
    hide Remove;
    AccountDiscarded(s.ops.Keys, s.resumed, s.discarded, s.nextId, id);
    assert (s.ops - {id}).Keys == s.ops.Keys - {id};
    SlotsAfterUnlink(s, id);
    TimersAfterUnlink(s, id);
    OwedAfterUnlink(s, id, pending, pending);
  }

  lemma AddWaiterKeeps(
      s: Loop, fd: int, writable: bool, deadline: Option<int>, arming: Arming, release: Arming,
      pending: set<nat>)
    requires Tables(s, pending)
    ensures Tables(AddWaiter(s, fd, writable, deadline, arming, release), pending)
  {
    hide Accounted, SlotsAgree, TimersAgree, Owed, TryArm, Discard;
    if fd >= 0 && !s.shuttingDown && (fd, writable) !in s.slots {
      RegisterKeeps(s, fd, writable, deadline, pending);
      var s1 := Register(s, fd, writable, deadline);
      var s2 := s1.(kernel := TryArm(s1.backend, s1.kernel, fd, InterestIn(s1.slots, fd), arming));
      if !arming.Armed? {
        DiscardKeeps(s2, s2.nextId, release, pending);
      }
    }
  }

  lemma AskCancelKeeps(s: Loop, id: nat, pending: set<nat>)
    requires Tables(s, pending)
    ensures Tables(RequestCancel(s, id), pending)
  {
    hide SlotsAgree, TimersAgree, Owed;
    assert id in s.ops.Keys ==> 1 <= id <= s.nextId;
  }

  // ── losing a slot ───────────────────────────────────────────────────────────

  /** Between `ops` and `after` only armed flags fell, and only for `ids`. */
  ghost predicate OnlyDisarmed(ops: map<nat, Operation>, after: map<nat, Operation>, ids: set<nat>)
  {
    && SameHandles(ops, after)
    && forall id :: id in ops && id !in ids ==> after[id] == ops[id]
  }

  lemma DisarmKeeps(s: Loop, t: Loop, ids: set<nat>, pending: set<nat>)
    requires Tables(s, pending) && OnlyDisarmed(s.ops, t.ops, ids) && SlotsAgree(t.ops, t.slots)
    requires t == s.(ops := t.ops, slots := t.slots, kernel := t.kernel)
    ensures Tables(t, pending + ids)
  {
    hide Accounted, SlotsAgree, TimersAgree;
    TimersAfterDisarm(s.ops, t.ops, s.timers, s.serial);
  }

  lemma ClearDisarms(s: Loop, fd: int, outcome: Outcome)
    requires Watched(s.slots, fd)
    ensures OnlyDisarmed(s.ops, ClearSlots(s, fd).ops, Ids(BrokenWaiters(s, fd, outcome)))
  {
    var broken := BrokenWaiters(s, fd, outcome);
    assert broken[0] in broken && broken[1] in broken;
  }

  lemma ClearKeeps(s: Loop, fd: int, outcome: Outcome, pending: set<nat>)
    requires Tables(s, pending) && Watched(s.slots, fd)
    ensures Tables(ClearSlots(s, fd), pending + Ids(BrokenWaiters(s, fd, outcome)))
  {
    hide Accounted, SlotsAgree, TimersAgree, Owed, OnlyDisarmed, Ids;
    NextIsNew(s.ops.Keys, s.resumed, s.discarded, s.nextId);
    SlotsAfterClear(s, fd);
    ClearDisarms(s, fd, outcome);
    DisarmKeeps(s, ClearSlots(s, fd), Ids(BrokenWaiters(s, fd, outcome)), pending);
  }

  lemma FailWaitersKeeps(y: System, fd: int, outcome: Outcome)
    requires Inv(y)
    ensures Inv(FailWaiters(y, fd, outcome))
  {
    hide Tables;
    if Watched(y.loop.slots, fd) {
      ClearKeeps(y.loop, fd, outcome, Pending(y.stack));
      PendingPush(y.stack, Delivering(BrokenWaiters(y.loop, fd, outcome), false));
    }
  }

  // ── collecting a batch ──────────────────────────────────────────────────────

  lemma IdsAppend(a: seq<(nat, Outcome)>, b: seq<(nat, Outcome)>)
    ensures Ids(a + b) == Ids(a) + Ids(b)
  {
    assert forall p :: p in a + b <==> p in a || p in b;
  }

  /** Partway through the events: whoever was claimed is on the list. */
  ghost predicate Claimed(s: Loop, b: Batch)
  {
    && OnlyDisarmed(s.ops, b.loop.ops, Ids(b.resolved))
    && SlotsAgree(b.loop.ops, b.loop.slots)
    && b.loop == s.(ops := b.loop.ops, slots := b.loop.slots, kernel := b.loop.kernel)
    && Ids(b.resolved) <= s.ops.Keys
  }

  lemma DisarmOneMore(ops: map<nat, Operation>, after: map<nat, Operation>, ids: set<nat>, id: nat)
    requires OnlyDisarmed(ops, after, ids)
    ensures OnlyDisarmed(ops, Disarmed(after, id), ids + {id})
  {
  }

  lemma ClaimKeeps(s: Loop, b: Batch, side: Side)
    requires Claimed(s, b)
    ensures Claimed(s, Claim(b, side))
  {
    if side in b.loop.slots {
      var id := b.loop.slots[side];
      assert id in b.loop.ops by { assert Holds(b.loop.ops[id], side); }
      assert b.loop.ops.Keys == s.ops.Keys;
      hide SlotsAgree, OnlyDisarmed;
      SlotsAfterClaim(b.loop.ops, b.loop.slots, side);
      DisarmOneMore(s.ops, b.loop.ops, Ids(b.resolved), id);
      IdsAppend(b.resolved, [(id, Success)]);
      assert Ids([(id, Success)]) == {id} by { assert [(id, Success)][0] == (id, Success); }
      hide Ids, Disarmed;
    }
  }

  lemma ClaimEventKeeps(s: Loop, b: Batch, e: Event)
    requires Claimed(s, b)
    ensures Claimed(s, ClaimEvent(b, e))
  {
    hide OnlyDisarmed, SlotsAgree, Ids, Claim;
    ClaimKeeps(s, b, (e.fd, false));
    var b1 := if e.Takes((e.fd, false)) then Claim(b, (e.fd, false)) else b;
    ClaimKeeps(s, b1, (e.fd, true));
  }

  lemma {:induction false} ClaimAllKeeps(s: Loop, b: Batch, events: seq<Event>)
    requires Claimed(s, b)
    ensures Claimed(s, ClaimAll(b, events))
  {
    hide Claimed, ClaimEvent;
    if events != [] {
      ClaimAllKeeps(s, b, events[..|events| - 1]);
      ClaimEventKeeps(s, ClaimAll(b, events[..|events| - 1]), events[|events| - 1]);
    }
  }

  lemma {:induction false} ExpiredMentions(timers: Queue, keys: seq<Key>, k: Key)
    requires (forall j :: j in keys ==> j in timers) && k in keys
    ensures (timers[k].operation, TimerOutcome(timers[k])) in Expired(timers, keys)
  {
    var n := |keys| - 1;
    if k != keys[n] {
      assert k in keys[..n];
      ExpiredMentions(timers, keys[..n], k);
    }
  }

  lemma {:induction false} ExpiryOwes(
      ops: map<nat, Operation>, timers: Queue, serial: nat, now: int, keys: seq<Key>, pending: set<nat>)
    requires TimersAgree(ops, timers, serial) && Owed(ops, timers, pending) && DueInOrder(timers, now, keys)
    ensures Owed(ops, NotDue(timers, now), pending + Ids(Expired(timers, keys)))
  {
    hide TimersAgree, Expired, InOrder;
    forall id | id in ops && Spent(ops[id], NotDue(timers, now)) && !Spent(ops[id], timers)
      ensures id in Ids(Expired(timers, keys))
    {
      var op := ops[id];
      var k := if op.wake.Some? && op.wake.value !in NotDue(timers, now) then op.wake.value else op.deadline.value;
      TimerNames(ops, timers, serial, id, k);
      ExpiredMentions(timers, keys, k);
    }
  }

  lemma CollectKeeps(s: Loop, events: seq<Event>, now: int, keys: seq<Key>)
    requires Tables(s, {}) && !s.shuttingDown && DueInOrder(s.timers, now, keys)
    ensures var b := Collect(s, events, now, keys); Tables(b.loop, Ids(b.resolved))
  {
    assert forall k :: k in keys ==> k in s.timers;
    hide Accounted, SlotsAgree, TimersAgree, Owed, DueInOrder, NotDue, Expired, AllCancelled;
    var fired := s.(kernel := FireAll(s.backend, s.kernel, events));
    var b0 := Batch(fired, [], []);
    ClaimAllKeeps(fired, b0, events);
    hide ClaimAll, Ids;
    var b1 := ClaimAll(b0, events);
    DisarmKeeps(fired, b1.loop, Ids(b1.resolved), {});
    assert {} + Ids(b1.resolved) == Ids(b1.resolved);
    TimersAfterExpiry(b1.loop.ops, s.timers, s.serial, now);
    ExpiryOwes(b1.loop.ops, s.timers, s.serial, now, keys, Ids(b1.resolved));
    IdsAppend(b1.resolved, Expired(s.timers, keys));
    IdsAppend(b1.resolved + Expired(s.timers, keys), AllCancelled(s.cancels));
    var t := b1.loop.(timers := NotDue(s.timers, now), cancels := []);
    assert Tables(t, Ids(b1.resolved) + Ids(Expired(s.timers, keys)));
    MorePending(t, Ids(b1.resolved) + Ids(Expired(s.timers, keys)), Ids(Collect(s, events, now, keys).resolved));
  }

  // ── every step keeps it ─────────────────────────────────────────────────────

  lemma RunOnceKeeps(y: System, events: seq<Event>, now: int, keys: seq<Key>)
    requires Inv(y) && Enabled(y, RunOnce(events, now, keys))
    ensures Inv(Apply(y, RunOnce(events, now, keys)))
  {
    assert Pending(y.stack) == {} by { assert y.stack[..0] == []; assert Pending([]) == {}; }
    CollectKeeps(y.loop, events, now, keys);
    var b := Collect(y.loop, events, now, keys);
    hide Tables, Collect;
    PendingPush(y.stack, Rearming(b.rearm, b.resolved));
  }

  lemma RearmKeeps(y: System, arming: Arming)
    requires Inv(y) && Enabled(y, Rearm(arming))
    ensures Inv(Apply(y, Rearm(arming)))
  {
    var top := y.stack[|y.stack| - 1];
    var (fd, interest) := top.todo[0];
    var kernel := TryArm(y.loop.backend, y.loop.kernel, fd, interest, arming);
    var less := top.(todo := top.todo[1..]);
    var rest := System(y.loop.(kernel := kernel), y.Under() + [less]);
    PendingTop(y);
    PendingPush(y.Under(), less);
    hide Accounted, SlotsAgree, TimersAgree, Owed, CancelsKnown, TryArm;
    assert Inv(rest);
    if !arming.Armed? {
      FailWaitersKeeps(rest, fd, Broken(arming.code));
    }
  }

  /** Taking one entry off the top frame unmentions at most its id. */
  lemma {:induction false} PendingLess(under: seq<Frame>, owed: seq<(nat, Outcome)>, posted: bool)
    requires owed != []
    ensures Pending(under + [Delivering(owed, posted)])
         == Pending(under + [Delivering(owed[1..], posted)]) + {owed[0].0}
    ensures Pending(under + [Delivering(owed[1..], posted)] + [User])
         == Pending(under + [Delivering(owed[1..], posted)])
  {
    PendingPush(under, Delivering(owed, posted));
    PendingPush(under, Delivering(owed[1..], posted));
    PendingPush(under + [Delivering(owed[1..], posted)], User);
    IdsPop(owed);
  }

  lemma StaleKeeps(s: Loop, id: nat, pending: set<nat>, fewer: set<nat>)
    requires Tables(s, pending) && id !in s.ops && pending <= fewer + {id}
    ensures Tables(s, fewer)
  {
    hide Accounted, SlotsAgree, TimersAgree, CancelsKnown, Spent;
  }

  lemma DeliverKeeps(y: System, release: Arming)
    requires Inv(y) && Enabled(y, Deliver(release))
    ensures Inv(Apply(y, Deliver(release)))
  {
    hide Tables, Pending, Finalize;
    var top := y.stack[|y.stack| - 1];
    var (id, outcome) := top.owed[0];
    var rest := y.Under() + [top.(owed := top.owed[1..])];
    assert y.stack == y.Under() + [Delivering(top.owed, top.posted)];
    PendingLess(y.Under(), top.owed, top.posted);
    if id in y.loop.ops {
      FinalizeKeeps(y.loop, id, outcome, release, Pending(y.stack), Pending(rest));
    } else {
      StaleKeeps(y.loop, id, Pending(y.stack), Pending(rest));
    }
  }

  lemma ShutdownKeeps(y: System, orphans: seq<nat>)
    requires Inv(y) && Enabled(y, Shutdown(orphans))
    ensures Inv(Apply(y, Shutdown(orphans)))
  {
    hide Accounted, SlotsAgree, TimersAgree, CancelsKnown;
    var f := Delivering(AllCancelled(orphans), false);
    PendingPush(y.stack, f);
    forall id | id in y.loop.ops ensures id in FrameIds(f) {
      var k :| 0 <= k < |orphans| && orphans[k] == id;
      assert AllCancelled(orphans)[k] in AllCancelled(orphans);
    }
  }

  /** Nobody is waiting in a frame that is done. */
  lemma PopKeeps(y: System)
    requires Inv(y) && |y.stack| > 1 && FrameIds(y.stack[|y.stack| - 1]) == {}
    ensures Inv(y.(stack := y.Under()))
  {
    hide Tables, FrameIds;
    PendingTop(y);
    assert Pending(y.Under()) == Pending(y.stack);
  }

  lemma PushUserKeeps(y: System)
    requires Inv(y)
    ensures Inv(y.(stack := y.stack + [User]))
  {
    hide Tables;
    PendingPush(y.stack, User);
    assert Pending(y.stack + [User]) == Pending(y.stack);
  }

  lemma RearmedKeeps(y: System)
    requires Inv(y) && Enabled(y, Rearmed)
    ensures Inv(Apply(y, Rearmed))
  {
    hide Tables;
    var top := y.stack[|y.stack| - 1];
    PendingTop(y);
    PendingPush(y.Under(), Delivering(top.resolved, true));
  }

  lemma StepKeeps(y: System, a: Action)
    requires Inv(y) && Enabled(y, a)
    ensures Inv(Apply(y, a))
  {
    hide Tables, WellStacked, Pending;
    match a
    case SubmitWaiter(fd, writable, deadline, arming, release) =>
      AddWaiterKeeps(y.loop, fd, writable, deadline, arming, release, Pending(y.stack));
    case SubmitTimer(wakeAt, deadline) =>
      if !y.loop.shuttingDown {
        RegisterSleepKeeps(y.loop, wakeAt, deadline, Pending(y.stack));
      }
    case AskCancel(id) => AskCancelKeeps(y.loop, id, Pending(y.stack));
    case Detach(fd) =>
      var quiet := y.(loop := y.loop.(kernel := Disarm(y.loop.kernel, fd)));
      KernelAside(y.loop, quiet.loop.kernel, Pending(y.stack));
      FailWaitersKeeps(quiet, fd, Cancelled);
    case RunOnce(events, now, keys) => RunOnceKeeps(y, events, now, keys);
    case Rearm(arming) => RearmKeeps(y, arming);
    case Deliver(release) => DeliverKeeps(y, release);
    case Shutdown(orphans) => ShutdownKeeps(y, orphans);
    case Rearmed => RearmedKeeps(y);
    case RunPosted => PushUserKeeps(y);
    case Delivered => DoneKeeps(y);
    case Return => PopKeeps(y);
  }

  lemma DoneKeeps(y: System)
    requires Inv(y) && Enabled(y, Delivered)
    ensures Inv(Apply(y, Delivered))
  {
    hide Tables;
    assert Ids([]) == {};
    PopKeeps(y);
  }

  lemma KernelAside(s: Loop, kernel: set<Side>, pending: set<nat>)
    requires Tables(s, pending)
    ensures Tables(s.(kernel := kernel), pending)
  {
  }

  lemma {:induction false} RunKeeps(states: seq<System>, run: seq<Action>)
    requires IsRun(states, run) && Inv(states[0])
    ensures Inv(states[|run|])
  {
    hide Inv, Apply, Enabled;
    if run != [] {
      var n := |run| - 1;
      RunKeeps(states[..n + 1], run[..n]);
      StepKeeps(states[n], run[n]);
    }
  }
}
