/** Who gets what out of one batch.

A batch lists completions, then due timers in order, then cancellations, and
delivers the list by id: the first mention of an operation decides. The verdict
below says so without the list: readiness wins, then the clock, then the cancel.
*/
module PosixBatch {
  import opened Accounts
  import opened Octets
  import opened Timers
  import opened PosixLoop
  import opened PosixLedger
  import opened PosixRuns
  import opened PosixSafety

  // ── the verdict ─────────────────────────────────────────────────────────────

  ghost predicate Taken(events: seq<Event>, side: Side)
  {
    exists i :: 0 <= i < |events| && events[i].Takes(side)
  }

  ghost predicate Ready(op: Operation, events: seq<Event>)
  {
    op.kind.Readiness? && Taken(events, (op.fd, op.writable))
  }

  predicate Due(handle: Option<Key>, now: int)
  {
    handle.Some? && handle.value.deadline <= now
  }

  /** A sleep wins an exact tie with its own deadline; an earlier deadline beats a
      later wake-up even when both are due. */
  function ClockVerdict(op: Operation, now: int): (o: Option<Outcome>)
  {
    if Due(op.wake, now) && !(Due(op.deadline, now) && op.deadline.value.deadline < op.wake.value.deadline)
    then Some(Success)
    else if Due(op.deadline, now) then Some(TimedOut)
    else None
  }

  ghost function Verdict(op: Operation, events: seq<Event>, now: int, cancelled: bool): (o: Option<Outcome>)
  {
    if Ready(op, events) then Some(Success)
    else if ClockVerdict(op, now).Some? then ClockVerdict(op, now)
    else if cancelled then Some(Cancelled)
    else None
  }

  // ── completions ─────────────────────────────────────────────────────────────

  ghost predicate AllSuccess(pairs: seq<(nat, Outcome)>)
  {
    forall p :: p in pairs ==> p.1 == Success
  }

  ghost function Holders(slots: map<Side, nat>, sides: set<Side>): (r: set<nat>)
  {
    set side | side in slots && side in sides :: slots[side]
  }

  /** Partway: exactly `taken` lost their waiters, who are on the list. */
  ghost predicate Took(slots: map<Side, nat>, taken: set<Side>, b: Batch)
  {
    && b.loop.slots == slots - taken
    && AllSuccess(b.resolved)
    && Ids(b.resolved) == Holders(slots, taken)
  }

  lemma ClaimTakes(slots: map<Side, nat>, taken: set<Side>, b: Batch, side: Side)
    requires Took(slots, taken, b)
    ensures Took(slots, taken + {side}, Claim(b, side))
  {
    if side in b.loop.slots {
      var id := slots[side];
      IdsAppend(b.resolved, [(id, Success)]);
      assert Ids([(id, Success)]) == {id} by { assert [(id, Success)][0] == (id, Success); }
      assert Holders(slots, taken + {side}) == Holders(slots, taken) + {id};
    } else {
      assert Holders(slots, taken + {side}) == Holders(slots, taken);
    }
  }

  ghost function TakenSides(e: Event): (r: set<Side>)
  {
    (if e.Takes((e.fd, false)) then {(e.fd, false)} else {}) + (if e.Takes((e.fd, true)) then {(e.fd, true)} else {})
  }

  lemma TookWider(slots: map<Side, nat>, taken: set<Side>, b: Batch, sides: set<Side>)
    requires Took(slots, taken, b) && forall side :: side in sides ==> side !in b.loop.slots
    ensures Took(slots, taken + sides, b)
  {
    assert forall side :: side in slots && side in sides ==> side in taken;
    assert slots - (taken + sides) == slots - taken;
    assert Holders(slots, taken + sides) == Holders(slots, taken);
  }

  lemma ClaimEventTakes(slots: map<Side, nat>, taken: set<Side>, b: Batch, e: Event)
    requires Took(slots, taken, b)
    ensures Took(slots, taken + TakenSides(e), ClaimEvent(b, e))
  {
    var first, second := (e.fd, false), (e.fd, true);
    if !Watched(b.loop.slots, e.fd) {
      TookWider(slots, taken, b, TakenSides(e));
    } else {
      var b1 := if e.Takes(first) then Claim(b, first) else b;
      var taken1 := if e.Takes(first) then taken + {first} else taken;
      ClaimTakes(slots, taken, b, first);
      ClaimTakes(slots, taken1, b1, second);
      var taken2 := if e.Takes(second) then taken1 + {second} else taken1;
      assert taken2 == taken + TakenSides(e);
      hide Claim, TakenSides, Holders;
    }
  }

  lemma TakenMore(events: seq<Event>, e: Event, side: Side)
    ensures Taken(events + [e], side) <==> Taken(events, side) || e.Takes(side)
  {
    if e.Takes(side) {
      assert (events + [e])[|events|].Takes(side);
    }
    if Taken(events, side) {
      var i :| 0 <= i < |events| && events[i].Takes(side);
      assert (events + [e])[i].Takes(side);
    }
  }

  ghost function AllTaken(events: seq<Event>): (r: set<Side>)
  {
    if events == [] then {} else AllTaken(events[..|events| - 1]) + TakenSides(events[|events| - 1])
  }

  lemma {:induction false} AllTakenMeans(events: seq<Event>, side: Side)
    ensures side in AllTaken(events) <==> Taken(events, side)
  {
    if events != [] {
      var n := |events| - 1;
      AllTakenMeans(events[..n], side);
      TakenMore(events[..n], events[n], side);
      assert events[..n] + [events[n]] == events;
      assert side == (side.0, true) || side == (side.0, false) by {
        if side.1 { assert side == (side.0, true); } else { assert side == (side.0, false); }
      }
    }
  }

  lemma {:induction false} ClaimAllTakes(b: Batch, events: seq<Event>)
    requires b.resolved == []
    ensures Took(b.loop.slots, AllTaken(events), ClaimAll(b, events))
  {
    hide ClaimEvent, TakenSides;
    if events == [] {
      assert b.loop.slots - {} == b.loop.slots;
    } else {
      hide Took;
      var n := |events| - 1;
      ClaimAllTakes(b, events[..n]);
      ClaimEventTakes(b.loop.slots, AllTaken(events[..n]), ClaimAll(b, events[..n]), events[n]);
    }
  }

  lemma {:induction false} FirstMentionOf(pairs: seq<(nat, Outcome)>, id: nat)
    requires AllSuccess(pairs)
    ensures FirstMention(pairs, id) == if id in Ids(pairs) then Some(Success) else None
  {
    var i := FirstIndex(pairs, id);
    if i < |pairs| {
      FirstMentionIs(pairs, id, i);
      assert pairs[i] in pairs;
    } else {
      NeverMentioned(pairs, id);
    }
  }

  /** A waiter with its slot is claimed exactly when its side was reported. */
  lemma {:induction false} ClaimsFirst(s: Loop, events: seq<Event>, id: nat)
    requires SlotsAgree(s.ops, s.slots) && id in s.ops && (s.ops[id].kind.Readiness? ==> s.ops[id].armed)
    ensures FirstMention(ClaimAll(Batch(s, [], []), events).resolved, id)
         == if Ready(s.ops[id], events) then Some(Success) else None
  {
    var b := ClaimAll(Batch(s, [], []), events);
    ClaimAllTakes(Batch(s, [], []), events);
    FirstMentionOf(b.resolved, id);
    var op := s.ops[id];
    var side := (op.fd, op.writable);
    AllTakenMeans(events, side);
    hide AllTaken, ClaimAll;
    assert op.kind.Readiness? ==> side in s.slots && s.slots[side] == id;
    if id in Holders(s.slots, AllTaken(events)) {
      var where: Side :| where in s.slots && where in AllTaken(events) && s.slots[where] == id;
      assert Holds(op, where) && where == (where.0, where.1) == side;
    }
  }

  // ── the clock ───────────────────────────────────────────────────────────────

  lemma {:induction false} ExpiredAt(timers: Queue, keys: seq<Key>, i: nat)
    requires (forall k :: k in keys ==> k in timers) && i < |keys|
    ensures |Expired(timers, keys)| == |keys|
    ensures Expired(timers, keys)[i] == (timers[keys[i]].operation, TimerOutcome(timers[keys[i]]))
  {
    var n := |keys| - 1;
    if n > 0 {
      ExpiredAt(timers, keys[..n], if i < n then i else 0);
    } else {
      assert keys[..n] == [];
    }
  }

  /** A due timer of `id` does not come before the first mention of `id`. */
  lemma NotBefore(timers: Queue, keys: seq<Key>, id: nat, i: nat, k: Key) returns (j: nat)
    requires forall m :: m in keys ==> m in timers
    requires forall m :: 0 <= m < i && m < |keys| ==> timers[keys[m]].operation != id
    requires k in keys && timers[k].operation == id
    ensures i <= j < |keys| && keys[j] == k
  {
    j :| 0 <= j < |keys| && keys[j] == k;
  }

  /** The first of an operation's due timers is the one the verdict follows. */
  lemma ClockDecides(op: Operation, timers: Queue, now: int, keys: seq<Key>, id: nat, i: nat)
    requires DueInOrder(timers, now, keys) && WakesFirst(op) && !Spent(op, timers)
    requires Due(op.wake, now) ==> timers[op.wake.value] == Target(id, false)
    requires Due(op.deadline, now) ==> timers[op.deadline.value] == Target(id, true)
    requires i <= |keys| && forall m :: 0 <= m < i ==> timers[keys[m]].operation != id
    requires i < |keys| ==> timers[keys[i]].operation == id && HandleOf(op, timers[keys[i]]) == Some(keys[i])
    ensures ClockVerdict(op, now) == if i < |keys| then Some(TimerOutcome(timers[keys[i]])) else None
  {
    if Due(op.wake, now) {
      var j := NotBefore(timers, keys, id, i, op.wake.value);
    }
    if Due(op.deadline, now) {
      var j := NotBefore(timers, keys, id, i, op.deadline.value);
    }
    assert i < |keys| ==> keys[i] in keys;
  }

  lemma {:induction false} ClockFirst(ops: map<nat, Operation>, timers: Queue, serial: nat, now: int, keys: seq<Key>, id: nat)
    requires TimersAgree(ops, timers, serial) && DueInOrder(timers, now, keys)
    requires id in ops && !Spent(ops[id], timers)
    ensures FirstMention(Expired(timers, keys), id) == ClockVerdict(ops[id], now)
  {
    var list := Expired(timers, keys);
    var op := ops[id];
    ExpiredLength(timers, keys);
    forall i | 0 <= i < |keys|
      ensures list[i] == (timers[keys[i]].operation, TimerOutcome(timers[keys[i]]))
    {
      ExpiredAt(timers, keys, i);
    }
    var i := FirstIndex(list, id);
    if Due(op.wake, now) { TimerNames(ops, timers, serial, id, op.wake.value); }
    if Due(op.deadline, now) { TimerNames(ops, timers, serial, id, op.deadline.value); }
    assert WakesFirst(op);
    assert i < |keys| ==> keys[i] in keys;
    hide Expired, HandlesUnshared, DueInOrder, ClockVerdict;
    ClockDecides(op, timers, now, keys, id, i);
    if i == |list| {
      NeverMentioned(list, id);
    } else {
      FirstMentionIs(list, id, i);
    }
  }

  lemma {:induction false} ExpiredLength(timers: Queue, keys: seq<Key>)
    requires forall k :: k in keys ==> k in timers
    ensures |Expired(timers, keys)| == |keys|
  {
    if keys != [] {
      ExpiredAt(timers, keys, 0);
    }
  }

  // ── the whole list ──────────────────────────────────────────────────────────

  lemma {:induction false} CancelsFirst(cancels: seq<nat>, id: nat)
    ensures FirstMention(AllCancelled(cancels), id) == if id in cancels then Some(Cancelled) else None
  {
    var list := AllCancelled(cancels);
    var i := FirstIndex(list, id);
    if i < |list| {
      FirstMentionIs(list, id, i);
      assert cancels[i] == id;
    } else {
      NeverMentioned(list, id);
      assert forall j :: 0 <= j < |cancels| ==> list[j].0 == cancels[j];
    }
  }

  /** The first mention of an operation in a batch's list is its verdict. */
  lemma {:induction false} ListSaysVerdict(s: Loop, events: seq<Event>, now: int, keys: seq<Key>, id: nat)
    requires Tables(s, {}) && id in s.ops && DueInOrder(s.timers, now, keys)
    ensures FirstMention(Collect(s, events, now, keys).resolved, id)
         == Verdict(s.ops[id], events, now, id in s.cancels)
  {
    assert !Spent(s.ops[id], s.timers);
    var fired := s.(kernel := FireAll(s.backend, s.kernel, events));
    var claims := ClaimAll(Batch(fired, [], []), events).resolved;
    ClaimsFirst(fired, events, id);
    assert forall k :: k in keys ==> k in s.timers;
    ClockFirst(s.ops, s.timers, s.serial, now, keys, id);
    CancelsFirst(s.cancels, id);
    FirstMentionAppend(claims, Expired(s.timers, keys), id);
    FirstMentionAppend(claims + Expired(s.timers, keys), AllCancelled(s.cancels), id);
    hide FirstMention, ClaimAll, Expired, AllCancelled, Accounted, SlotsAgree, TimersAgree, ClockVerdict, Ready;
  }

  // ── delivering it ───────────────────────────────────────────────────────────

  /** The deliveries a list comes to: the first mention of each live id. */
  ghost function Deliveries(live: set<nat>, pairs: seq<(nat, Outcome)>): (r: seq<(nat, Outcome)>)
  {
    if pairs == [] then []
    else
      var n := |pairs| - 1;
      var before := Deliveries(live, pairs[..n]);
      if pairs[n].0 in live && pairs[n].0 !in Ids(pairs[..n]) then before + [pairs[n]] else before
  }

  /** Inside a batch that detaches nothing and whose re-arms succeed. */
  predicate Plain(a: Action)
  {
    !a.Detach? && !a.RunOnce? && !a.Shutdown? && (a.Rearm? ==> a.arming.Armed?)
  }

  ghost predicate AtEntry(stack: seq<Frame>, list: seq<(nat, Outcome)>, k: nat)
  {
    || (k == 0 && |stack| == 2 && stack[0].User? && stack[1].Rearming? && stack[1].resolved == list)
    || (k <= |list| && stack == [User, Delivering(list[k..], true)])
    || (k <= |list| && stack == [User, Delivering(list[k..], true), User])
    || (k == |list| && stack == [User])
  }

  /** Partway: the first `k` entries of the list have had their effect on `s`. */
  ghost predicate Progress(s: Loop, list: seq<(nat, Outcome)>, k: nat, y: System)
  {
    && k <= |list|
    && AtEntry(y.stack, list, k)
    && y.loop.nextId >= s.nextId
    && y.loop.resumed == s.resumed + Deliveries(s.ops.Keys, list[..k])
    && (forall id :: id <= s.nextId ==> (id in y.loop.ops <==> id in s.ops && id !in Ids(list[..k])))
  }

  lemma {:induction false} DeliverMore(live: set<nat>, list: seq<(nat, Outcome)>, k: nat)
    requires k < |list|
    ensures Deliveries(live, list[..k + 1])
         == Deliveries(live, list[..k]) + if list[k].0 in live && list[k].0 !in Ids(list[..k]) then [list[k]] else []
    ensures Ids(list[..k + 1]) == Ids(list[..k]) + {list[k].0}
  {
    assert list[..k + 1][..k] == list[..k];
    assert list[..k + 1] == list[..k] + [list[k]];
    IdsAppend(list[..k], [list[k]]);
    assert Ids([list[k]]) == {list[k].0} by { assert [list[k]][0] == list[k]; }
  }

  lemma {:induction false} DeliveriesFirst(live: set<nat>, pairs: seq<(nat, Outcome)>, id: nat, o: Outcome)
    ensures (id, o) in Deliveries(live, pairs) <==> id in live && FirstMention(pairs, id) == Some(o)
  {
    if pairs != [] {
      var n := |pairs| - 1;
      DeliveriesFirst(live, pairs[..n], id, o);
      assert pairs == pairs[..n] + [pairs[n]];
      FirstMentionAppend(pairs[..n], [pairs[n]], id);
      MentionedIs(pairs[..n], id);
      assert FirstMention([pairs[n]], id) == if pairs[n].0 == id then Some(pairs[n].1) else None;
      hide FirstMention, Ids;
    }
  }

  lemma {:induction false} MentionedIs(pairs: seq<(nat, Outcome)>, id: nat)
    ensures FirstMention(pairs, id).Some? <==> id in Ids(pairs)
  {
    var i := FirstIndex(pairs, id);
    if i < |pairs| {
      FirstMentionIs(pairs, id, i);
      assert pairs[i] in pairs;
    } else {
      NeverMentioned(pairs, id);
    }
  }

  ghost predicate Known(list: seq<(nat, Outcome)>, nextId: nat)
  {
    forall p :: p in list ==> p.0 <= nextId
  }

  lemma AddWaiterAside(s: Loop, fd: int, writable: bool, deadline: Option<int>, arming: Arming, release: Arming)
    ensures var t := AddWaiter(s, fd, writable, deadline, arming, release);
      && t.resumed == s.resumed && t.nextId >= s.nextId
      && forall id :: id <= s.nextId ==> (id in t.ops <==> id in s.ops)
  {
    hide TryArm, TimersFor, InterestIn;
    if fd >= 0 && !s.shuttingDown && (fd, writable) !in s.slots && !arming.Armed? {
      var s1 := Register(s, fd, writable, deadline);
      var s2 := s1.(kernel := TryArm(s1.backend, s1.kernel, fd, InterestIn(s1.slots, fd), arming));
      RemoveIsUnlink(s2, s2.nextId, release);
      hide Remove;
    }
  }

  lemma DeliverAdvances(s: Loop, list: seq<(nat, Outcome)>, k: nat, y: System, release: Arming)
    requires Progress(s, list, k, y) && Known(list, s.nextId) && Enabled(y, Deliver(release))
    ensures k < |list| && Progress(s, list, k + 1, Apply(y, Deliver(release)))
  {
    assert y.stack == [User, Delivering(list[k..], true)] && k < |list|;
    var (id, outcome) := list[k];
    assert list[k] in list;
    assert list[k..][1..] == list[k + 1..];
    assert y.Under() == [User];
    DeliverMore(s.ops.Keys, list, k);
    if id in y.loop.ops {
      RemoveIsUnlink(y.loop, id, release);
      hide Remove, Unlink;
    }
    hide Deliveries, Ids;
  }

  lemma PlainAdvances(s: Loop, list: seq<(nat, Outcome)>, k: nat, y: System, a: Action) returns (k1: nat)
    requires Progress(s, list, k, y) && Known(list, s.nextId) && Enabled(y, a) && Plain(a)
    ensures Progress(s, list, k1, Apply(y, a))
  {
    hide Deliveries, Ids;
    k1 := k;
    match a
    case SubmitWaiter(fd, writable, deadline, arming, release) =>
      AddWaiterAside(y.loop, fd, writable, deadline, arming, release);
      hide AddWaiter;
    case Deliver(release) =>
      DeliverAdvances(s, list, k, y, release);
      k1 := k + 1;
    case Rearm(arming) =>
      hide TryArm;
      assert y.Under() == [User];
    case Rearmed =>
      assert y.Under() == [User] && list[0..] == list;
    case _ =>
      StackCases(list, k, y, a);
  }

  lemma StackCases(list: seq<(nat, Outcome)>, k: nat, y: System, a: Action)
    requires k <= |list| && AtEntry(y.stack, list, k) && Enabled(y, a)
    requires a.Return? || a.Delivered? || a.RunPosted? || a.SubmitTimer? || a.AskCancel?
    ensures AtEntry(Apply(y, a).stack, list, k)
  {
    if a.Return? {
      assert [User, Delivering(list[k..], true), User][..2] == [User, Delivering(list[k..], true)];
    } else if a.Delivered? {
      assert [User, Delivering(list[k..], true)][..1] == [User];
    }
  }

  lemma {:induction false} BatchProgress(
      s: Loop, list: seq<(nat, Outcome)>, states: seq<System>, run: seq<Action>) returns (k: nat)
    requires IsRun(states, run) && Progress(s, list, 0, states[0]) && Known(list, s.nextId)
    requires forall a :: a in run ==> Plain(a)
    ensures Progress(s, list, k, states[|run|])
  {
    hide Progress, Enabled, Apply;
    k := 0;
    if run != [] {
      var n := |run| - 1;
      k := BatchProgress(s, list, states[..n + 1], run[..n]);
      k := PlainAdvances(s, list, k, states[n], run[n]);
    }
  }

  lemma IdsKnown(live: set<nat>, resumed: seq<(nat, Outcome)>, discarded: set<nat>, nextId: nat)
    requires Accounted(live, resumed, discarded, nextId)
    ensures forall id :: id in live ==> id <= nextId
  {
  }

  lemma {:induction false} ExpiredKnown(timers: Queue, keys: seq<Key>, nextId: nat)
    requires forall k :: k in keys ==> k in timers && timers[k].operation <= nextId
    ensures Known(Expired(timers, keys), nextId)
  {
    if keys != [] {
      ExpiredKnown(timers, keys[..|keys| - 1], nextId);
    }
  }

  lemma CancelledKnown(cancels: seq<nat>, nextId: nat)
    requires CancelsKnown(cancels, nextId)
    ensures Known(AllCancelled(cancels), nextId)
  {
    forall p | p in AllCancelled(cancels) ensures p.0 <= nextId {
      var i :| 0 <= i < |cancels| && AllCancelled(cancels)[i] == p;
      assert cancels[i] in cancels;
    }
  }

  lemma {:induction false} ClaimsKnown(s: Loop, events: seq<Event>, nextId: nat)
    requires SlotsAgree(s.ops, s.slots) && forall id :: id in s.ops ==> id <= nextId
    ensures var b := ClaimAll(Batch(s, [], []), events);
      && Known(b.resolved, nextId)
      && b.loop.ops.Keys == s.ops.Keys && b.loop.resumed == s.resumed && b.loop.nextId == s.nextId
  {
    hide ClaimAll;
    assert Ids([]) == {};
    assert Claimed(s, Batch(s, [], []));
    ClaimAllKeeps(s, Batch(s, [], []), events);
    hide SlotsAgree;
    var claims := ClaimAll(Batch(s, [], []), events).resolved;
    assert forall p :: p in claims ==> p.0 in Ids(claims);
  }

  lemma ListKnown(s: Loop, events: seq<Event>, now: int, keys: seq<Key>)
    requires Tables(s, {}) && DueInOrder(s.timers, now, keys)
    ensures var b := Collect(s, events, now, keys);
      && Known(b.resolved, s.nextId)
      && b.loop.ops.Keys == s.ops.Keys && b.loop.resumed == s.resumed && b.loop.nextId == s.nextId
  {
    hide Accounted, SlotsAgree, Owed, ClaimAll, Expired, AllCancelled, HandlesUnshared, InOrder, NotDue, FireAll;
    IdsKnown(s.ops.Keys, s.resumed, s.discarded, s.nextId);
    assert forall k :: k in keys ==> k in s.timers && s.timers[k].operation in s.ops.Keys;
    ExpiredKnown(s.timers, keys, s.nextId);
    CancelledKnown(s.cancels, s.nextId);
    ClaimsKnown(s.(kernel := FireAll(s.backend, s.kernel, events)), events, s.nextId);
  }

  lemma ProgressStarts(y: System, events: seq<Event>, now: int, keys: seq<Key>)
    requires Inv(y) && Enabled(y, RunOnce(events, now, keys))
    ensures var list := Collect(y.loop, events, now, keys).resolved;
      Known(list, y.loop.nextId) && Progress(y.loop, list, 0, Apply(y, RunOnce(events, now, keys)))
  {
    hide Collect, Tables, InOrder;
    QuietTables(y);
    ListKnown(y.loop, events, now, keys);
    hide Inv, DueInOrder, Known;
    var list := Collect(y.loop, events, now, keys).resolved;
    assert list[..0] == [];
    assert Ids([]) == {};
    assert Deliveries(y.loop.ops.Keys, []) == [];
  }

  lemma QuietTables(y: System)
    requires Inv(y) && y.Quiet()
    ensures Tables(y.loop, {})
  {
    hide Tables;
    assert y.stack[..0] == [];
    assert Pending(y.stack) == Pending([]) + FrameIds(User) == {};
  }

  lemma {:induction false} ProgressEnds(s: Loop, list: seq<(nat, Outcome)>, k: nat, y: System, id: nat)
    requires Progress(s, list, k, y) && y.Quiet() && id in s.ops && id <= s.nextId
    ensures s.resumed <= y.loop.resumed
    ensures FirstMention(list, id).None? <==> id in y.loop.ops
    ensures forall o :: (id, o) in y.loop.resumed[|s.resumed|..] <==> FirstMention(list, id) == Some(o)
  {
    assert k == |list| && list[..k] == list;
    MentionedIs(list, id);
    hide FirstMention, Ids;
    assert y.loop.resumed[|s.resumed|..] == Deliveries(s.ops.Keys, list);
    forall o ensures (id, o) in y.loop.resumed[|s.resumed|..] <==> FirstMention(list, id) == Some(o) {
      DeliveriesFirst(s.ops.Keys, list, id, o);
    }
  }

  lemma BatchFrom(
      y: System, events: seq<Event>, now: int, keys: seq<Key>,
      states: seq<System>, run: seq<Action>, id: nat)
    requires Inv(y) && Enabled(y, RunOnce(events, now, keys)) && id in y.loop.ops
    requires IsRun(states, run) && states[0] == Apply(y, RunOnce(events, now, keys))
    requires (forall a :: a in run ==> Plain(a)) && states[|run|].Quiet()
    ensures var t := states[|run|].loop;
      var v := Verdict(y.loop.ops[id], events, now, id in y.loop.cancels);
      && y.loop.resumed <= t.resumed
      && (v.None? <==> id in t.ops)
      && (forall o :: (id, o) in t.resumed[|y.loop.resumed|..] <==> v == Some(o))
  {
    hide Collect, Verdict, Tables, FirstMention, Progress, Apply;
    var s := y.loop;
    QuietTables(y);
    assert id <= s.nextId by { TablesIds(s, {}); }
    ProgressStarts(y, events, now, keys);
    ListSaysVerdict(s, events, now, keys, id);
    var list := Collect(s, events, now, keys).resolved;
    var k := BatchProgress(s, list, states, run);
    ProgressEnds(s, list, k, states[|run|], id);
  }

  lemma TablesIds(s: Loop, pending: set<nat>)
    requires Tables(s, pending)
    ensures forall id :: id in s.ops ==> id <= s.nextId
  {
    IdsKnown(s.ops.Keys, s.resumed, s.discarded, s.nextId);
  }

  /** In every run, from a batch's start at `i` to a quiet point `j`, with nothing
      detached and re-arms succeeding in between: each operation then in the table
      gets its verdict and nothing else. That is success if its readiness fired,
      else what its clock says, else cancelled if that was asked; with no verdict
      it stays in the table. */
  lemma BatchOutcome(states: seq<System>, run: seq<Action>, backend: Backend, i: nat, j: nat, id: nat)
    requires FromStart(states, run, backend) && i < j <= |run|
    requires run[i].RunOnce? && id in states[i].loop.ops && states[j].Quiet()
    requires forall k :: i < k < j ==> Plain(run[k])
    ensures var s, t := states[i].loop, states[j].loop;
      var v := Verdict(s.ops[id], run[i].events, run[i].now, id in s.cancels);
      && s.resumed <= t.resumed
      && (v.None? <==> id in t.ops)
      && (forall o :: (id, o) in t.resumed[|s.resumed|..] <==> v == Some(o))
  {
    hide Inv, Apply, Enabled, Verdict, Plain;
    ReachedInv(states, run, backend, i);
    var part, steps := states[i + 1..j + 1], run[i + 1..j];
    assert IsRun(part, steps) by {
      assert forall k :: 0 <= k < |steps| ==> part[k] == states[i + 1 + k] && steps[k] == run[i + 1 + k];
    }
    assert part[|steps|] == states[j];
    BatchFrom(states[i], run[i].events, run[i].now, run[i].keys, part, steps, id);
  }
}
