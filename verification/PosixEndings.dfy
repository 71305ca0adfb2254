/** Those whose wait is ended for them.

A descriptor that is detached, or that cannot be re-armed, takes its waiters with
it; so does a loop that shuts down. Each is resumed at once and with that reason,
whatever else the batch around it has in store.
*/
module PosixEndings {
  import opened Accounts
  import opened Octets
  import opened Timers
  import opened PosixLoop
  import opened PosixLedger
  import opened PosixRuns
  import opened PosixSafety
  import opened PosixArming
  import opened PosixBatch
  import opened PosixRequests

  // ── those whose wait was ended for them ─────────────────────────────────────

  function FramePairs(f: Frame): (r: seq<(nat, Outcome)>)
  {
    match f
    case User => []
    case Rearming(_, resolved) => resolved
    case Delivering(owed, _) => owed
  }

  /** While `id` is live the frame at `h` is about to deliver to it, and neither
      that frame nor any above it will deliver anything but `o`. */
  ghost predicate Sentenced(y: System, id: nat, o: Outcome, h: nat)
  {
    && (forall r :: (id, r) in y.loop.resumed ==> r == o)
    && (id in y.loop.ops ==>
          && h < |y.stack| && y.stack[h].Delivering?
          && id in Ids(y.stack[h].owed)
          && (y.loop.ops[id].armed ==> o == Cancelled)
          && (forall i, p :: h <= i < |y.stack| && p in FramePairs(y.stack[i]) && p.0 == id ==> p.1 == o))
  }

  /** A new frame on top that says nothing else of `id`. */
  lemma SentencedUnder(y: System, id: nat, o: Outcome, h: nat, f: Frame, t: Loop)
    requires Sentenced(y, id, o, h) && t.resumed == y.loop.resumed && h < |y.stack|
    requires id in t.ops ==> id in y.loop.ops && (t.ops[id].armed ==> o == Cancelled)
    requires forall p :: p in FramePairs(f) && p.0 == id ==> p.1 == o
    ensures Sentenced(System(t, y.stack + [f]), id, o, h)
  {
  }

  lemma SlotsBroken(s: Loop, fd: int, outcome: Outcome, id: nat)
    requires SlotsAgree(s.ops, s.slots) && id in s.ops && 0 !in s.ops
    ensures forall p :: p in BrokenWaiters(s, fd, outcome) && p.0 == id ==> p.1 == outcome && s.ops[id].armed
    ensures id in ClearSlots(s, fd).ops && (ClearSlots(s, fd).ops[id].armed ==> s.ops[id].armed)
    ensures ClearSlots(s, fd).resumed == s.resumed
  {
    var first, second := (fd, false), (fd, true);
    assert first in s.slots ==> Holds(s.ops[s.slots[first]], first);
    assert second in s.slots ==> Holds(s.ops[s.slots[second]], second);
  }

  lemma ClearedSlots(s: Loop, fd: int, id: nat)
    ensures id in ClearSlots(s, fd).ops <==> id in s.ops
    ensures ClearSlots(s, fd).resumed == s.resumed
  {
  }

  lemma SentencedDetach(y: System, fd: int, id: nat, o: Outcome, h: nat)
    requires Inv(y) && Sentenced(y, id, o, h) && Enabled(y, Detach(fd))
    ensures Sentenced(Apply(y, Detach(fd)), id, o, h)
  {
    assert 0 !in y.loop.ops && SlotsAgree(y.loop.ops, y.loop.slots) by {
      NextIsNew(y.loop.ops.Keys, y.loop.resumed, y.loop.discarded, y.loop.nextId);
    }
    hide Tables, Pending, SlotsAgree, ClearSlots, BrokenWaiters, Ids;
    var s := y.loop.(kernel := Disarm(y.loop.kernel, fd));
    if Watched(s.slots, fd) {
      ClearedSlots(s, fd, id);
      if id in y.loop.ops {
        SlotsBroken(s, fd, Cancelled, id);
        SentencedUnder(y, id, o, h, Delivering(BrokenWaiters(s, fd, Cancelled), false), ClearSlots(s, fd));
      }
      hide Sentenced;
    }
  }

  lemma DeliveredLoop(s: Loop, i: nat, r: Outcome, release: Arming, id: nat)
    requires i in s.ops
    ensures var t := Finalize(s, i, r, release);
      && t.resumed == s.resumed + [(i, r)]
      && (id in t.ops <==> id in s.ops && id != i)
      && (id in t.ops ==> t.ops[id] == s.ops[id])
  {
    RemoveIsUnlink(s, i, release);
    hide Remove;
  }

  /** One entry less at the top. */
  lemma SentencedPop(y: System, id: nat, o: Outcome, h: nat)
    requires Sentenced(y, id, o, h) && y.stack != [] && y.stack[|y.stack| - 1].Delivering?
    requires y.stack[|y.stack| - 1].owed != [] && y.stack[|y.stack| - 1].owed[0].0 != id
    ensures var top := y.stack[|y.stack| - 1];
      Sentenced(y.(stack := y.Under() + [top.(owed := top.owed[1..])]), id, o, h)
  {
    var n := |y.stack| - 1;
    var top := y.stack[n];
    IdsPop(top.owed);
    var z := y.(stack := y.Under() + [top.(owed := top.owed[1..])]);
    if id in y.loop.ops {
      forall k, p | h <= k < |z.stack| && p in FramePairs(z.stack[k]) && p.0 == id ensures p.1 == o {
        assert p in FramePairs(y.stack[k]);
      }
    }
    hide Ids;
  }

  lemma SentencedDeliver(y: System, release: Arming, id: nat, o: Outcome, h: nat)
    requires Sentenced(y, id, o, h) && Enabled(y, Deliver(release))
    ensures Sentenced(Apply(y, Deliver(release)), id, o, h)
  {
    var top := y.stack[|y.stack| - 1];
    var (i, r) := top.owed[0];
    assert top.owed[0] in FramePairs(top);
    var z := Apply(y, Deliver(release));
    if i in y.loop.ops { DeliveredLoop(y.loop, i, r, release, id); }
    hide Finalize, Ids;
    if i != id && id in y.loop.ops {
      SentencedPop(y, id, o, h);
      var rest := y.(stack := y.Under() + [top.(owed := top.owed[1..])]);
      if i in y.loop.ops {
        SentencedUnder(rest, id, o, h, User, z.loop.(resumed := rest.loop.resumed));
      }
    }
  }

  lemma SentencedStep(y: System, a: Action, id: nat, o: Outcome, h: nat)
    requires Inv(y) && Sentenced(y, id, o, h) && Enabled(y, a) && id <= y.loop.nextId && h >= 1
    ensures Sentenced(Apply(y, a), id, o, h)
  {
    hide Tables, Pending;
    match a
    case SubmitWaiter(fd, writable, deadline, arming, release) =>
      AddWaiterAside(y.loop, fd, writable, deadline, arming, release);
      if id in Apply(y, a).loop.ops { AddWaiterRecords(y.loop, fd, writable, deadline, arming, release, id); }
      hide AddWaiter, Ids;
    case Detach(fd) => SentencedDetach(y, fd, id, o, h);
    case Deliver(release) => SentencedDeliver(y, release, id, o, h);
    case RunOnce(events, now, keys) =>
      QuietTables(y);
      ListKnown(y.loop, events, now, keys);
      hide Collect, Ids;
    case Rearm(arming) => SentencedElsewhere(y, arming, id, o, h);
    case _ => hide Ids;
  }

  /** A batch that re-arms is the lowest frame but one. */
  lemma SentencedElsewhere(y: System, arming: Arming, id: nat, o: Outcome, h: nat)
    requires Inv(y) && Sentenced(y, id, o, h) && Enabled(y, Rearm(arming)) && h >= 1
    ensures Sentenced(Apply(y, Rearm(arming)), id, o, h)
  {
    hide Tables, Pending, TryArm, Ids;
    var n := |y.stack| - 1;
    assert id !in y.loop.ops by { assert n <= 1; }
  }

  lemma {:induction false} RunSentenced(
      states: seq<System>, run: seq<Action>, backend: Backend, i: nat, j: nat, id: nat, o: Outcome, h: nat)
    requires FromStart(states, run, backend) && i <= j <= |run| && Sentenced(states[i], id, o, h)
    requires id <= states[i].loop.nextId && h >= 1
    ensures Sentenced(states[j], id, o, h)
    decreases j
  {
    hide Inv, Apply, Enabled, Onward, Sentenced;
    if i < j {
      RunSentenced(states, run, backend, i, j - 1, id, o, h);
      ReachedInv(states, run, backend, j - 1);
      NextIdGrows(states, run, i, j - 1);
      SentencedStep(states[j - 1], run[j - 1], id, o, h);
    }
  }

  /** Whoever is sentenced has been resumed once the frame is gone, and only so. */
  lemma {:induction false} SentenceServed(
      states: seq<System>, run: seq<Action>, backend: Backend, i: nat, j: nat, id: nat, o: Outcome, h: nat)
    requires FromStart(states, run, backend) && i <= j <= |run| && Sentenced(states[i], id, o, h)
    requires id in states[i].loop.ops && h >= 1
    ensures forall r :: (id, r) in states[j].loop.resumed ==> r == o
    ensures |states[j].stack| <= h ==> (id, o) in states[j].loop.resumed
  {
    hide Apply, Enabled;
    ExactlyOnce(states, run, backend, i, i);
    assert 1 <= id <= states[i].loop.nextId;
    RunSentenced(states, run, backend, i, j, id, o, h);
    NextIdGrows(states, run, i, j);
    if |states[j].stack| <= h {
      GoneIsResumed(states, run, backend, i, j, id);
    }
  }

  /** Only a newcomer is ever thrown away. */
  lemma StepDiscards(y: System, a: Action, id: nat)
    requires Enabled(y, a) && id <= y.loop.nextId && id !in y.loop.discarded
    ensures id !in Apply(y, a).loop.discarded
  {
    match a
    case SubmitWaiter(fd, writable, deadline, arming, release) =>
      if Accepts(y.loop, fd, writable) && !arming.Armed? {
        NewcomerDiscarded(y.loop, fd, writable, deadline, arming, release);
      }
      hide Discard, TryArm, TimersFor;
    case RunOnce(events, now, keys) =>
      ClaimAllDiscards(Batch(y.loop.(kernel := FireAll(y.loop.backend, y.loop.kernel, events)), [], []), events);
      hide ClaimAll, FireAll, Expired, AllCancelled, NotDue;
    case Deliver(release) =>
      var (i, _) := y.stack[|y.stack| - 1].owed[0];
      if i in y.loop.ops {
        RemoveIsUnlink(y.loop, i, release);
        hide Remove;
      }
    case _ =>
  }

  lemma NewcomerDiscarded(s: Loop, fd: int, writable: bool, deadline: Option<int>, arming: Arming, release: Arming)
    requires Accepts(s, fd, writable) && !arming.Armed?
    ensures AddWaiter(s, fd, writable, deadline, arming, release).discarded == s.discarded + {s.nextId + 1}
  {
    hide TryArm, TimersFor, Remove;
  }

  lemma {:induction false} ClaimAllDiscards(b: Batch, events: seq<Event>)
    ensures ClaimAll(b, events).loop.discarded == b.loop.discarded
  {
    if events != [] {
      ClaimAllDiscards(b, events[..|events| - 1]);
    }
  }

  lemma {:induction false} RunDiscards(states: seq<System>, run: seq<Action>, i: nat, j: nat, id: nat)
    requires IsRun(states, run) && i <= j <= |run| && id <= states[i].loop.nextId && id !in states[i].loop.discarded
    ensures id !in states[j].loop.discarded
    decreases j
  {
    hide Apply, Enabled, Onward;
    if i < j {
      RunDiscards(states, run, i, j - 1, id);
      NextIdGrows(states, run, i, j - 1);
      StepDiscards(states[j - 1], run[j - 1], id);
    }
  }

  /** What leaves the table was resumed. */
  lemma {:induction false} GoneIsResumed(
      states: seq<System>, run: seq<Action>, backend: Backend, i: nat, j: nat, id: nat)
    requires FromStart(states, run, backend) && i <= j <= |run|
    requires id in states[i].loop.ops && id !in states[j].loop.ops
    ensures exists r :: (id, r) in states[j].loop.resumed
  {
    hide Apply, Enabled;
    ExactlyOnce(states, run, backend, i, i);
    ExactlyOnce(states, run, backend, i, j);
    var t := states[j].loop;
    NextIdGrows(states, run, i, j);
    RunDiscards(states, run, i, j, id);
    assert WasResumed(t.resumed, id);
    var k :| 0 <= k < |t.resumed| && t.resumed[k].0 == id;
    assert (id, t.resumed[k].1) in t.resumed;
  }

  /** `id` waits on the descriptor just before step `m`. */
  ghost predicate WaitsOn(s: Loop, fd: int, id: nat)
  {
    id in s.ops && exists w: bool :: (fd, w) in s.slots && s.slots[(fd, w)] == id
  }

  lemma SlotCleared(s: Loop, fd: int, o: Outcome, id: nat)
    requires WaitsOn(s, fd, id)
    ensures Watched(s.slots, fd) && id in Ids(BrokenWaiters(s, fd, o))
    ensures id in ClearSlots(s, fd).ops && !ClearSlots(s, fd).ops[id].armed && ClearSlots(s, fd).resumed == s.resumed
    ensures forall p :: p in BrokenWaiters(s, fd, o) ==> p.1 == o
  {
    var w: bool :| (fd, w) in s.slots && s.slots[(fd, w)] == id;
    assert w || (fd, w) == (fd, false);
    assert !w || (fd, w) == (fd, true);
    var broken := BrokenWaiters(s, fd, o);
    assert broken[0] in broken && broken[1] in broken;
  }

  lemma SentencePassed(s: Loop, stack: seq<Frame>, fd: int, o: Outcome, id: nat)
    requires WaitsOn(s, fd, id) && forall r :: (id, r) !in s.resumed
    ensures Watched(s.slots, fd) && Sentenced(FailWaiters(System(s, stack), fd, o), id, o, |stack|)
    ensures id in FailWaiters(System(s, stack), fd, o).loop.ops
  {
    SlotCleared(s, fd, o, id);
    hide ClearSlots, BrokenWaiters, Ids, WaitsOn, Watched;
  }

  /** A descriptor is detached: whoever waits on it is resumed as cancelled, before
      the detaching call returns. */
  lemma {:induction false} DetachedIsCancelled(
      states: seq<System>, run: seq<Action>, backend: Backend, m: nat, j: nat, id: nat)
    requires FromStart(states, run, backend) && m < j <= |run| && run[m].Detach? && WaitsOn(states[m].loop, run[m].fd, id)
    ensures forall r :: (id, r) in states[j].loop.resumed ==> r == Cancelled
    ensures |states[j].stack| <= |states[m].stack| ==> (id, Cancelled) in states[j].loop.resumed
  {
    var y := states[m];
    ReachedInv(states, run, backend, m);
    NotYetResumed(states, run, backend, m, id);
    NextIsNew(y.loop.ops.Keys, y.loop.resumed, y.loop.discarded, y.loop.nextId);
    hide Accounted, SlotsAgree, TimersAgree, Owed, Sentenced, FailWaiters;
    SentencePassed(y.loop.(kernel := Disarm(y.loop.kernel, run[m].fd)), y.stack, run[m].fd, Cancelled, id);
    SentenceServed(states, run, backend, m + 1, j, id, Cancelled, |y.stack|);
  }

  /** A descriptor cannot be re-armed: whoever waits on it is resumed with the
      error, before the batch goes on. */
  lemma {:induction false} RefusedIsBroken(
      states: seq<System>, run: seq<Action>, backend: Backend, m: nat, j: nat, id: nat)
    requires FromStart(states, run, backend) && m < j <= |run| && run[m].Rearm? && run[m].arming.Refused?
    requires WaitsOn(states[m].loop, states[m].stack[|states[m].stack| - 1].todo[0].0, id)
    ensures forall r :: (id, r) in states[j].loop.resumed ==> r == Broken(run[m].arming.code)
    ensures |states[j].stack| <= |states[m].stack| ==> (id, Broken(run[m].arming.code)) in states[j].loop.resumed
  {
    var y := states[m];
    ReachedInv(states, run, backend, m);
    NotYetResumed(states, run, backend, m, id);
    NextIsNew(y.loop.ops.Keys, y.loop.resumed, y.loop.discarded, y.loop.nextId);
    hide Accounted, SlotsAgree, TimersAgree, Owed, Sentenced, FailWaiters, TryArm;
    var top := y.stack[|y.stack| - 1];
    var (fd, interest) := top.todo[0];
    var kernel := TryArm(y.loop.backend, y.loop.kernel, fd, interest, run[m].arming);
    var o := Broken(run[m].arming.code);
    SentencePassed(y.loop.(kernel := kernel), y.Under() + [top.(todo := top.todo[1..])], fd, o, id);
    SentenceServed(states, run, backend, m + 1, j, id, o, |y.stack|);
  }

  /** The loop shuts down: whoever is left is resumed as cancelled. */
  lemma {:induction false} OrphanIsCancelled(
      states: seq<System>, run: seq<Action>, backend: Backend, m: nat, j: nat, id: nat)
    requires FromStart(states, run, backend) && m < j <= |run| && run[m].Shutdown? && id in states[m].loop.ops
    ensures forall r :: (id, r) in states[j].loop.resumed ==> r == Cancelled
    ensures states[j].Quiet() ==> (id, Cancelled) in states[j].loop.resumed
  {
    NotYetResumed(states, run, backend, m, id);
    var y, z, list := states[m], states[m + 1], AllCancelled(run[m].orphans);
    var k :| 0 <= k < |run[m].orphans| && run[m].orphans[k] == id;
    assert list[k] in list && id in Ids(list);
    assert z.stack == [User, Delivering(list, false)];
    assert Sentenced(z, id, Cancelled, 1);
    hide Sentenced;
    SentenceServed(states, run, backend, m + 1, j, id, Cancelled, 1);
  }
}
