/** Operation ids, accounted for: both backends hand out ids from one counter and
resolve each of them once. */
module Accounts {
  import opened Octets

  datatype Outcome = Success | TimedOut | Cancelled | Broken(code: int)

  ghost predicate WasResumed(resumed: seq<(nat, Outcome)>, id: nat)
  {
    exists k :: 0 <= k < |resumed| && resumed[k].0 == id
  }

  ghost predicate NoneTwice(resumed: seq<(nat, Outcome)>)
  {
    forall j, k :: 0 <= j < k < |resumed| ==> resumed[j].0 != resumed[k].0
  }

  /** Every id handed out is live, resumed or discarded: one of the three, once. */
  ghost predicate Accounted(
      live: set<nat>, resumed: seq<(nat, Outcome)>, discarded: set<nat>, nextId: nat)
  {
    && NoneTwice(resumed)
    && live !! discarded
    && (forall k :: 0 <= k < |resumed| ==> resumed[k].0 !in live && resumed[k].0 !in discarded)
    && (forall id: nat :: id in live || id in discarded || WasResumed(resumed, id) <==> 1 <= id <= nextId)
  }

  lemma NextIsNew(live: set<nat>, resumed: seq<(nat, Outcome)>, discarded: set<nat>, nextId: nat)
    requires Accounted(live, resumed, discarded, nextId)
    ensures nextId + 1 !in live && 0 !in live
  {
  }

  lemma AccountNew(live: set<nat>, resumed: seq<(nat, Outcome)>, discarded: set<nat>, nextId: nat)
    requires Accounted(live, resumed, discarded, nextId)
    ensures Accounted(live + {nextId + 1}, resumed, discarded, nextId + 1)
  {
    assert !WasResumed(resumed, nextId + 1);
  }

  lemma AccountResumed(
      live: set<nat>, resumed: seq<(nat, Outcome)>, discarded: set<nat>, nextId: nat,
      id: nat, outcome: Outcome)
    requires Accounted(live, resumed, discarded, nextId) && id in live
    ensures Accounted(live - {id}, resumed + [(id, outcome)], discarded, nextId)
  {
    var after := resumed + [(id, outcome)];
    assert after[|resumed|].0 == id;
    forall i: nat ensures WasResumed(after, i) <==> WasResumed(resumed, i) || i == id {
      if WasResumed(resumed, i) {
        var k :| 0 <= k < |resumed| && resumed[k].0 == i;
        assert after[k].0 == i;
      }
    }
  }

  lemma AccountDiscarded(
      live: set<nat>, resumed: seq<(nat, Outcome)>, discarded: set<nat>, nextId: nat, id: nat)
    requires Accounted(live, resumed, discarded, nextId) && id in live
    ensures Accounted(live - {id}, resumed, discarded + {id}, nextId)
  {
  }

  // ── what a sleep comes to ───────────────────────────────────────────────────

  predicate Past(at: Option<int>, now: int)
  {
    at.Some? && at.value <= now
  }

  /** Whichever time comes first, the wake-up on a tie, then the cancellation. */
  function SleepOutcome(wakeAt: int, deadline: Option<int>, now: int, asked: bool): (o: Option<Outcome>)
  {
    if Past(deadline, now) && deadline.value < wakeAt then Some(TimedOut)
    else if wakeAt <= now then Some(Success)
    else if asked then Some(Cancelled)
    else None
  }

  // ── first mention ───────────────────────────────────────────────────────────

  function FirstMention(pairs: seq<(nat, Outcome)>, id: nat): (o: Option<Outcome>)
  {
    if pairs == [] then None
    else if pairs[0].0 == id then Some(pairs[0].1)
    else FirstMention(pairs[1..], id)
  }

  lemma {:induction false} FirstMentionAppend(a: seq<(nat, Outcome)>, b: seq<(nat, Outcome)>, id: nat)
    ensures FirstMention(a + b, id) == if FirstMention(a, id).Some? then FirstMention(a, id) else FirstMention(b, id)
  {
    if a == [] {
      assert a + b == b;
    } else {
      assert (a + b)[1..] == a[1..] + b;
      FirstMentionAppend(a[1..], b, id);
    }
  }

  lemma {:induction false} FirstMentionIs(pairs: seq<(nat, Outcome)>, id: nat, i: nat)
    requires i < |pairs| && pairs[i].0 == id && forall j :: 0 <= j < i ==> pairs[j].0 != id
    ensures FirstMention(pairs, id) == Some(pairs[i].1)
  {
    if i > 0 {
      FirstMentionIs(pairs[1..], id, i - 1);
    }
  }

  lemma {:induction false} NeverMentioned(pairs: seq<(nat, Outcome)>, id: nat)
    requires forall j :: 0 <= j < |pairs| ==> pairs[j].0 != id
    ensures FirstMention(pairs, id) == None
  {
    if pairs != [] {
      NeverMentioned(pairs[1..], id);
    }
  }

  /** The earliest index that mentions `id`. */
  lemma {:induction false} FirstIndex(pairs: seq<(nat, Outcome)>, id: nat) returns (i: nat)
    ensures i <= |pairs| && forall j :: 0 <= j < i ==> pairs[j].0 != id
    ensures i < |pairs| ==> pairs[i].0 == id
  {
    i := 0;
    while i < |pairs| && pairs[i].0 != id
      invariant i <= |pairs| && forall j :: 0 <= j < i ==> pairs[j].0 != id
    {
      i := i + 1;
    }
  }
}
