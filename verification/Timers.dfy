/** Deadline-ordered timers with cancellable entries. */
module Timers {
  import opened Octets

  datatype Key = Key(deadline: int, serial: nat)

  /** Which operation a timer belongs to, and whether firing cuts it short. */
  datatype Target = Target(operation: nat, isDeadline: bool)

  type Queue = map<Key, Target>

  predicate Before(a: Key, b: Key)
  {
    a.deadline < b.deadline || (a.deadline == b.deadline && a.serial < b.serial)
  }

  ghost predicate InOrder(keys: seq<Key>)
  {
    forall i, j :: 0 <= i < j < |keys| ==> Before(keys[i], keys[j])
  }

  /** `keys` are the timers due at `now`, in the order they came due. */
  ghost predicate DueInOrder(timers: Queue, now: int, keys: seq<Key>)
  {
    InOrder(keys) && forall k :: k in keys <==> k in timers && k.deadline <= now
  }

  /** What is left once everything due has been taken out. */
  function NotDue(timers: Queue, now: int): (r: Queue)
  {
    map k | k in timers && k.deadline > now :: timers[k]
  }

  ghost predicate IsFirst(timers: Queue, k: Key)
  {
    k in timers && forall j :: j in timers && j != k ==> Before(k, j)
  }

  lemma {:induction false} FirstExists(keys: set<Key>) returns (k: Key)
    requires keys != {}
    ensures k in keys && forall j :: j in keys && j != k ==> Before(k, j)
    decreases |keys|
  {
    var any :| any in keys;
    var others := keys - {any};
    if others == {} {
      k := any;
      assert keys == {any};
    } else {
      var best := FirstExists(others);
      assert any != best;
      assert Before(any, best) || Before(best, any) by { assert Key(best.deadline, best.serial) == best; }
      k := if Before(any, best) then any else best;
      forall j | j in keys && j != k ensures Before(k, j) {
        assert j == any || j == best || Before(best, j);
      }
    }
  }

  // ── timers of one operation ─────────────────────────────────────────────────

  /** The handle a timer gets, if one is asked for, and the serials that uses. */
  function HandleFor(at: Option<int>, serial: nat): (k: Option<Key>)
  {
    if at.Some? then Some(Key(at.value, serial)) else None
  }

  function Serials(at: Option<int>): (n: nat)
  {
    if at.Some? then 1 else 0
  }

  /** The handle of a timer set for `at`, if one was asked for. */
  predicate SetFor(handle: Option<Key>, at: Option<int>)
  {
    match at
    case None => handle.None?
    case Some(t) => handle.Some? && handle.value.deadline == t
  }

  /** The queue entries that go with an operation's handles. */
  function TimersFor(id: nat, wake: Option<Key>, deadline: Option<Key>): (q: Queue)
  {
    (if wake.Some? then map[wake.value := Target(id, false)] else map[])
    + (if deadline.Some? then map[deadline.value := Target(id, true)] else map[])
  }

  function CancelTimer(timers: Queue, handle: Option<Key>): (r: Queue)
  {
    if handle.Some? then timers - {handle.value} else timers
  }

  /** The queue as the loop owns it. */
  class TimerQueue {
    var timers: Queue
    var serial: nat

    constructor ()
      ensures timers == map[] && serial == 0
    {
      timers, serial := map[], 0;
    }

    /** Serials count from one, so that no handle looks unset. */
    method Add(deadline: int, target: Target) returns (handle: Key)
      modifies this
      ensures handle == Key(deadline, old(serial) + 1) && serial == old(serial) + 1
      ensures timers == old(timers)[handle := target]
    {
      serial := serial + 1;
      handle := Key(deadline, serial);
      timers := timers[handle := target];
    }

    /** Queue the timers an operation asks for, the wake-up before the deadline. */
    method AddFor(id: nat, wakeAt: Option<int>, deadline: Option<int>) returns (wake: Option<Key>, cut: Option<Key>)
      modifies this
      ensures wake == HandleFor(wakeAt, old(serial) + 1)
      ensures cut == HandleFor(deadline, old(serial) + Serials(wakeAt) + 1)
      ensures serial == old(serial) + Serials(wakeAt) + Serials(deadline)
      ensures timers == old(timers) + TimersFor(id, wake, cut)
    {
      wake, cut := None, None;
      if wakeAt.Some? {
        var key := Add(wakeAt.value, Target(id, false));
        wake := Some(key);
      }
      if deadline.Some? {
        var key := Add(deadline.value, Target(id, true));
        cut := Some(key);
      }
    }

    /** Cancelling twice, or nothing, changes nothing. */
    method Cancel(handle: Option<Key>)
      modifies this`timers
      ensures timers == CancelTimer(old(timers), handle)
    {
      if handle.Some? {
        timers := timers - {handle.value};
      }
    }

    /** The entry the ordered map keeps in front. */
    method First() returns (k: Key)
      requires timers != map[]
      ensures IsFirst(timers, k)
    {
      ghost var first := FirstExists(timers.Keys);
      k :| k in timers && forall j :: j in timers && j != k ==> Before(k, j);
    }

    /** Take out the front entry if it is due. */
    method TakeDue(now: int) returns (k: Option<Key>, target: Target)
      modifies this`timers
      ensures k.Some? ==> IsFirst(old(timers), k.value) && k.value.deadline <= now && target == old(timers)[k.value]
      ensures timers == if k.Some? then old(timers) - {k.value} else old(timers)
      ensures k.None? ==> forall j :: j in timers ==> j.deadline > now
    {
      k, target := None, Target(0, false);
      if timers == map[] {
        return;
      }
      var first := First();
      if first.deadline > now {
        return;
      }
      k, target := Some(first), timers[first];
      timers := timers - {first};
    }

    /** Take out every timer due at `now`, front first. */
    method ExtractExpired(now: int) returns (keys: seq<Key>, expired: seq<Target>)
      modifies this`timers
      ensures DueInOrder(old(timers), now, keys)
      ensures timers == NotDue(old(timers), now)
      ensures |expired| == |keys| && forall i :: 0 <= i < |keys| ==> expired[i] == old(timers)[keys[i]]
    {
      hide Extracted, IsFirst;
      keys, expired := [], [];
      var k, target := TakeDue(now);
      NothingExtracted(old(timers), now);
      ghost var left := old(timers);
      while k.Some?
        invariant Extracted(old(timers), left, now, keys)
        invariant k.Some? ==> IsFirst(left, k.value) && k.value.deadline <= now && k.value in left && target == left[k.value]
        invariant timers == if k.Some? then left - {k.value} else left
        invariant k.None? ==> forall j :: j in timers ==> j.deadline > now
        invariant |expired| == |keys| && forall i :: 0 <= i < |keys| ==> keys[i] in old(timers) && expired[i] == old(timers)[keys[i]]
        decreases |left|
      {
        ExtractOne(old(timers), left, now, keys, k.value);
        ExtractedFrom(old(timers), left, now, keys, k.value);
        left := timers;
        keys, expired := keys + [k.value], expired + [target];
        k, target := TakeDue(now);
        FirstIsThere(left, k);
      }
      AllExtracted(old(timers), left, now, keys);
    }
  }

  lemma FirstIsThere(timers: Queue, k: Option<Key>)
    requires k.Some? ==> IsFirst(timers, k.value)
    ensures k.Some? ==> k.value in timers
  {
  }

  lemma ExtractedFrom(all: Queue, left: Queue, now: int, keys: seq<Key>, k: Key)
    requires Extracted(all, left, now, keys) && k in left
    ensures k in all && all[k] == left[k]
  {
  }

  /** Partway: `keys` came out of `all` in front of everything still in `left`. */
  ghost predicate Extracted(all: Queue, left: Queue, now: int, keys: seq<Key>)
  {
    && InOrder(keys)
    && (forall k :: k in keys ==> k in all && k !in left && k.deadline <= now)
    && (forall k :: k in all ==> k in keys || k in left)
    && (forall k :: k in left ==> k in all && left[k] == all[k])
    && (forall j, k :: j in keys && k in left ==> Before(j, k))
  }

  lemma NothingExtracted(all: Queue, now: int)
    ensures Extracted(all, all, now, [])
  {
  }

  lemma ExtractOne(all: Queue, left: Queue, now: int, keys: seq<Key>, k: Key)
    requires Extracted(all, left, now, keys) && IsFirst(left, k) && k.deadline <= now
    ensures Extracted(all, left - {k}, now, keys + [k])
    ensures |left - {k}| < |left|
  {
    hide Before;
    var rest := left - {k};
    assert left.Keys == rest.Keys + {k};
    forall i, j | 0 <= i < j < |keys + [k]| ensures Before((keys + [k])[i], (keys + [k])[j]) {
      if j == |keys| {
        assert keys[i] in keys;
      }
    }
  }

  lemma AllExtracted(all: Queue, left: Queue, now: int, keys: seq<Key>)
    requires Extracted(all, left, now, keys) && forall k :: k in left ==> k.deadline > now
    ensures DueInOrder(all, now, keys) && left == NotDue(all, now)
  {
  }
}
