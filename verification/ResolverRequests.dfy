/** What each caller of the resolver did, and what it got for it.

The flags of a job are read back to the steps that set them, so that admission,
asking, publishing and the reply can be said in terms of who did what before.
*/
module ResolverRequests {
  import opened Octets
  import opened Endpoints
  import opened Resolver
  import opened ResolverSafety

  // ── who set a flag ──────────────────────────────────────────────────────────

  /** The closing thread tells `j` at this step. */
  ghost predicate Tells(s: State, a: Action, j: nat)
  {
    a.Mark? && s.closer.Closing? && s.closer.todo != [] && s.closer.todo[0] == j
  }

  /** A worker brings the answer `r` for `j` at this step. */
  ghost predicate Brings(s: State, a: Action, j: nat, r: Answer)
  {
    a.Publish? && a.worker in s.workers && s.workers[a.worker] == Publishing(j, r)
  }

  lemma StepFlags(s: State, a: Action, j: nat)
    requires Placed(s) && Enabled(s, a) && j in s.jobs
    ensures j in Apply(s, a).jobs
    ensures var job, after := s.jobs[j], Apply(s, a).jobs[j];
      && (after.cancelled <==> job.cancelled || a == Cancel(j))
      && (after.abandoned <==> job.abandoned || a == Return(j))
      && (after.shutdown <==> job.shutdown || Tells(s, a, j))
      && (forall reason :: after.stage == Woken(reason) <==> (job.stage == Woken(reason) && a != Return(j)) || a == Wake(j, reason))
  {
    KnownIds(s);
    hide Placed, Pruned, Cleaned, Verdict;
  }

  lemma PublishResult(s: State, w: nat, j: nat, r: Answer)
    requires Answers(s) && Enabled(s, Publish(w)) && j in s.jobs
    ensures j in Apply(s, Publish(w)).jobs
    ensures Apply(s, Publish(w)).jobs[j].result == Some(r) <==>
      || (s.jobs[j].result == Some(r))
      || (Brings(s, Publish(w), j, r) && !s.jobs[j].abandoned && !s.jobs[j].shutdown)
  {
    assert s.jobs[s.workers[w].job].result.None?;
    hide Answers;
  }

  lemma OtherResult(s: State, a: Action, j: nat)
    requires Enabled(s, a) && !a.Publish? && j in s.jobs && s.next + 1 !in s.jobs
    ensures j in Apply(s, a).jobs && Apply(s, a).jobs[j].result == s.jobs[j].result
  {
    hide Pruned, Cleaned, Verdict;
  }

  /** A result is there exactly if there was one, or a worker brings one to a caller
      that is still there, before the resolver closes on it. */
  lemma StepResult(s: State, a: Action, j: nat, r: Answer)
    requires Inv(s) && Enabled(s, a) && j in s.jobs
    ensures j in Apply(s, a).jobs
    ensures Apply(s, a).jobs[j].result == Some(r) <==>
      || (s.jobs[j].result == Some(r))
      || (Brings(s, a, j, r) && !s.jobs[j].abandoned && !s.jobs[j].shutdown)
  {
    assert s.next + 1 !in s.jobs by { KnownIds(s); }
    hide Placed, Signals, Answers, Replies, Apply, Enabled;
    if a.Publish? {
      PublishResult(s, a.worker, j, r);
    } else {
      OtherResult(s, a, j);
    }
  }

  ghost predicate Did(run: seq<Action>, i: nat, a: Action)
    requires i <= |run|
  {
    exists k :: 0 <= k < i && run[k] == a
  }

  /** The resolver closed on `j` before point `i`. */
  ghost predicate WasTold(states: seq<State>, run: seq<Action>, i: nat, j: nat)
    requires i <= |run| < |states|
  {
    exists k :: 0 <= k < i && Tells(states[k], run[k], j)
  }

  /** Nothing happened yet to a job that does not exist. */
  lemma NotYet(s: State, a: Action, j: nat)
    requires Placed(s) && Signals(s) && Enabled(s, a) && j !in s.jobs
    ensures a != Cancel(j) && a != Return(j) && !Tells(s, a, j) && (forall reason :: a != Wake(j, reason))
    ensures j in Apply(s, a).jobs ==> Apply(s, a).jobs[j] == NEW
  {
    hide Placed, Signals, Pruned, Cleaned, Verdict;
  }

  /** The flags of a job say who did what before. */
  lemma {:induction false} FlagsSay(states: seq<State>, run: seq<Action>, capacity: nat, maxResults: nat, i: nat, j: nat)
    requires IsRun(states, run, capacity, maxResults) && i <= |run|
    ensures j in states[i].jobs ==>
      var job := states[i].jobs[j];
      && (job.cancelled <==> Did(run, i, Cancel(j)))
      && (job.abandoned <==> Did(run, i, Return(j)))
      && (job.shutdown <==> WasTold(states, run, i, j))
      && (forall reason :: job.stage == Woken(reason) ==> Did(run, i, Wake(j, reason)))
    ensures j !in states[i].jobs ==> !Did(run, i, Cancel(j)) && !Did(run, i, Return(j)) && !WasTold(states, run, i, j)
  {
    hide Inv, Apply, Enabled, Tells;
    if i > 0 {
      FlagsSay(states, run, capacity, maxResults, i - 1, j);
      RunKeeps(states, run, capacity, maxResults, i - 1);
      if j in states[i - 1].jobs {
        StepKept(states[i - 1], run[i - 1], j);
      } else {
        StepMade(states[i - 1], run[i - 1], j);
      }
      DidMore(run, i - 1, Cancel(j));
      DidMore(run, i - 1, Return(j));
      ToldMore(states, run, i - 1, j);
      forall reason ensures Did(run, i, Wake(j, reason)) <==> Did(run, i - 1, Wake(j, reason)) || run[i - 1] == Wake(j, reason) {
        DidMore(run, i - 1, Wake(j, reason));
      }
      hide Did, WasTold;
    }
  }

  lemma StepKept(s: State, a: Action, j: nat)
    requires Inv(s) && Enabled(s, a) && j in s.jobs
    ensures j in Apply(s, a).jobs
    ensures var job, after := s.jobs[j], Apply(s, a).jobs[j];
      && (after.cancelled <==> job.cancelled || a == Cancel(j))
      && (after.abandoned <==> job.abandoned || a == Return(j))
      && (after.shutdown <==> job.shutdown || Tells(s, a, j))
      && (forall reason :: after.stage == Woken(reason) <==> (job.stage == Woken(reason) && a != Return(j)) || a == Wake(j, reason))
  {
    hide Placed, Signals, Answers, Replies, Apply, Enabled;
    StepFlags(s, a, j);
  }

  lemma StepMade(s: State, a: Action, j: nat)
    requires Inv(s) && Enabled(s, a) && j !in s.jobs
    ensures a != Cancel(j) && a != Return(j) && !Tells(s, a, j) && (forall reason :: a != Wake(j, reason))
    ensures j in Apply(s, a).jobs ==> Apply(s, a).jobs[j] == NEW
  {
    hide Placed, Signals, Answers, Replies, Apply, Enabled;
    NotYet(s, a, j);
  }

  lemma DidMore(run: seq<Action>, i: nat, a: Action)
    requires i < |run|
    ensures Did(run, i + 1, a) <==> Did(run, i, a) || run[i] == a
  {
  }

  lemma ToldMore(states: seq<State>, run: seq<Action>, i: nat, j: nat)
    requires i < |run| < |states|
    ensures WasTold(states, run, i + 1, j) <==> WasTold(states, run, i, j) || Tells(states[i], run[i], j)
  {
    hide Tells;
  }

  // ── results and replies ─────────────────────────────────────────────────────

  /** A worker brought `r` for `j` while its caller was there and the resolver had
      not closed on it. */
  ghost predicate Published(states: seq<State>, run: seq<Action>, i: nat, j: nat, r: Answer)
    requires i <= |run| < |states|
  {
    exists k :: 0 <= k < i && Brings(states[k], run[k], j, r) && !Did(run, k, Return(j)) && !WasTold(states, run, k, j)
  }

  lemma PublishedMore(states: seq<State>, run: seq<Action>, i: nat, j: nat, r: Answer)
    requires i < |run| < |states|
    ensures Published(states, run, i + 1, j, r) <==>
      || Published(states, run, i, j, r)
      || (Brings(states[i], run[i], j, r) && !Did(run, i, Return(j)) && !WasTold(states, run, i, j))
  {
    hide Brings, Did, WasTold;
  }

  lemma {:induction false} ResultSays(
      states: seq<State>, run: seq<Action>, capacity: nat, maxResults: nat, i: nat, j: nat, r: Answer)
    requires IsRun(states, run, capacity, maxResults) && i <= |run|
    ensures (j in states[i].jobs && states[i].jobs[j].result == Some(r)) <==> Published(states, run, i, j, r)
  {
    hide Inv, Apply, Enabled, Did, WasTold;
    if i > 0 {
      var n := i - 1;
      ResultSays(states, run, capacity, maxResults, n, j, r);
      RunKeeps(states, run, capacity, maxResults, n);
      FlagsSay(states, run, capacity, maxResults, n, j);
      PublishedMore(states, run, n, j, r);
      hide Published;
      if j in states[n].jobs {
        StepResult(states[n], run[n], j, r);
      } else {
        StepMade(states[n], run[n], j);
        BringsKnown(states[n], run[n], j, r);
      }
    }
  }

  lemma BringsKnown(s: State, a: Action, j: nat, r: Answer)
    requires Enabled(s, a)
    ensures Brings(s, a, j, r) ==> j in s.jobs
  {
  }

  /** What a caller is told when it returns: the result brought to it in time; if
      there is none, that it was cancelled if anybody cancelled it; if nobody did,
      that it timed out if its deadline woke it; and otherwise that it was
      cancelled. It is told so for good. */
  lemma {:induction false} ReplyByRank(
      states: seq<State>, run: seq<Action>, capacity: nat, maxResults: nat, m: nat, k: nat, j: nat)
    requires IsRun(states, run, capacity, maxResults) && m < k <= |run| && run[m] == Return(j)
    ensures j in states[k].jobs && states[k].jobs[j].stage.Returned?
    ensures var reply := states[k].jobs[j].stage.reply;
      && (forall r :: Published(states, run, m, j, r) ==> reply == Result(r))
      && ((forall r :: !Published(states, run, m, j, r)) ==>
            if Did(run, m, Cancel(j)) then reply == Cancelled
            else if states[m].jobs[j].stage == Woken(Deadline) then reply == TimedOut && Did(run, m, Wake(j, Deadline))
            else reply == Cancelled)
  {
    hide Inv, Published, Did, WasTold;
    FlagsSay(states, run, capacity, maxResults, m, j);
    forall r ensures states[m].jobs[j].result == Some(r) <==> Published(states, run, m, j, r) {
      ResultSays(states, run, capacity, maxResults, m, j, r);
    }
    ReplyNow(states[m], j);
    hide Apply, Enabled;
    RunOnward(states, run, capacity, maxResults, m + 1, k, j);
  }

  lemma ReplyNow(s: State, j: nat)
    requires Enabled(s, Return(j))
    ensures var job := s.jobs[j]; var t := Apply(s, Return(j));
      && j in t.jobs && t.jobs[j].stage.Returned?
      && t.jobs[j].stage.reply ==
           if job.result.Some? then Result(job.result.value)
           else if job.cancelled then Cancelled
           else if job.stage == Woken(Deadline) then TimedOut
           else Cancelled
  {
  }

  // ── admission ───────────────────────────────────────────────────────────────

  ghost predicate HasClosed(run: seq<Action>, i: nat)
    requires i <= |run|
  {
    exists k :: 0 <= k < i && run[k].Close?
  }

  lemma {:induction false} ClosingSays(states: seq<State>, run: seq<Action>, capacity: nat, maxResults: nat, i: nat)
    requires IsRun(states, run, capacity, maxResults) && i <= |run|
    ensures states[i].closing <==> HasClosed(run, i)
    ensures states[i].capacity == capacity && states[i].maxResults == maxResults
  {
    if i > 0 {
      ClosingSays(states, run, capacity, maxResults, i - 1);
      StepCloses(states[i - 1], run[i - 1]);
      hide Apply, Enabled;
      assert HasClosed(run, i) <==> HasClosed(run, i - 1) || run[i - 1].Close?;
    }
  }

  lemma StepCloses(s: State, a: Action)
    requires Enabled(s, a)
    ensures var t := Apply(s, a);
      t.capacity == s.capacity && t.maxResults == s.maxResults && (t.closing <==> s.closing || a.Close?)
  {
    hide Pruned, Cleaned, Verdict;
  }

  /** The queued jobs somebody still waits for. */
  ghost function Wanted(run: seq<Action>, i: nat, queue: seq<nat>): (r: set<nat>)
    requires i <= |run|
  {
    set x | x in queue && !Did(run, i, Cancel(x)) && !Did(run, i, Return(x))
  }

  ghost function Members(q: seq<nat>): (r: set<nat>)
  {
    set x | x in q
  }

  lemma {:induction false} UnrepeatedSize(q: seq<nat>)
    requires Unrepeated(q)
    ensures |Members(q)| == |q|
  {
    if q == [] {
      assert Members(q) == {};
    } else {
      var n := |q| - 1;
      assert q == q[..n] + [q[n]];
      UnrepeatedSize(q[..n]);
      assert Members(q) == Members(q[..n]) + {q[n]};
      assert q[n] !in Members(q[..n]);
    }
  }

  lemma PrunedIsWanted(
      states: seq<State>, run: seq<Action>, capacity: nat, maxResults: nat, m: nat)
    requires IsRun(states, run, capacity, maxResults) && m <= |run|
    ensures |Pruned(states[m].queue, states[m].jobs)| == |Wanted(run, m, states[m].queue)|
  {
    hide Did, WasTold, Pruned, Apply, Enabled;
    var s := states[m];
    RunKeeps(states, run, capacity, maxResults, m);
    assert Unrepeated(s.queue) && forall x :: x in s.queue ==> x in s.jobs by { hide Signals, Answers, Replies, Unrepeated; }
    PrunedMeans(s.queue, s.jobs);
    var kept := Pruned(s.queue, s.jobs);
    UnrepeatedSize(kept);
    forall x | x in s.queue
      ensures s.jobs[x].cancelled == Did(run, m, Cancel(x)) && s.jobs[x].abandoned == Did(run, m, Return(x))
    {
      FlagsSay(states, run, capacity, maxResults, m, x);
    }
    assert Members(kept) == Wanted(run, m, s.queue);
  }

  /** A caller is turned away once the resolver closes, or if as many queued jobs as
      there may be are still wanted by their callers; otherwise it is queued last. */
  lemma {:induction false} AdmissionDecides(
      states: seq<State>, run: seq<Action>, capacity: nat, maxResults: nat, m: nat, j: nat)
    requires IsRun(states, run, capacity, maxResults) && m < |run| && run[m] == Enqueue(j)
    ensures var s, t := states[m], states[m + 1];
      && j in t.jobs
      && t.jobs[j].stage ==
           (if HasClosed(run, m) then Returned(Cancelled)
            else if |Wanted(run, m, s.queue)| >= capacity then Returned(QueueFull)
            else Waiting)
      && (t.jobs[j].stage == Waiting ==> t.queue != [] && t.queue[|t.queue| - 1] == j)
      && (t.jobs[j].stage != Waiting ==> j !in t.queue)
  {
    hide HasClosed, Wanted, Pruned;
    ClosingSays(states, run, capacity, maxResults, m);
    PrunedIsWanted(states, run, capacity, maxResults, m);
    RunKeeps(states, run, capacity, maxResults, m);
    assert j !in states[m].queue by { BuildingIsOut(states[m], j); }
    hide Inv;
  }

  // ── workers ─────────────────────────────────────────────────────────────────

  /** The backend is asked for a job exactly if nobody cancelled it, its caller has
      not returned and the resolver has not closed on it. */
  lemma {:induction false} AskedExactly(
      states: seq<State>, run: seq<Action>, capacity: nat, maxResults: nat, m: nat, w: nat)
    requires IsRun(states, run, capacity, maxResults) && m < |run| && run[m] == Look(w)
    ensures var j := states[m].workers[w].job;
      && w in states[m + 1].workers
      && states[m + 1].workers[w] ==
           if Did(run, m, Cancel(j)) || Did(run, m, Return(j)) || WasTold(states, run, m, j) then Signalling(j) else Asking(j)
  {
    hide Did, WasTold;
    FlagsSay(states, run, capacity, maxResults, m, states[m].workers[w].job);
  }

  /** What a worker brings is what the backend answered it, cleaned. */
  lemma {:induction false} BroughtIsAnswered(
      states: seq<State>, run: seq<Action>, capacity: nat, maxResults: nat, i: nat, w: nat, j: nat, r: Answer) returns (q: nat)
    requires IsRun(states, run, capacity, maxResults) && i <= |run|
    requires w in states[i].workers && states[i].workers[w] == Publishing(j, r)
    ensures q < i && run[q].Answered? && run[q].worker == w && w in states[q].workers && states[q].workers[w] == Asking(j)
    ensures r == Cleaned(run[q].answer, maxResults)
  {
    hide Apply, Enabled, Cleaned;
    assert i > 0;
    var n := i - 1;
    StepBrings(states[n], run[n], w, j, r);
    ClosingSays(states, run, capacity, maxResults, n);
    if w in states[n].workers && states[n].workers[w] == Publishing(j, r) {
      q := BroughtIsAnswered(states, run, capacity, maxResults, n, w, j, r);
    } else {
      q := n;
    }
  }

  lemma StepBrings(s: State, a: Action, w: nat, j: nat, r: Answer)
    requires Enabled(s, a) && w in Apply(s, a).workers && Apply(s, a).workers[w] == Publishing(j, r)
    ensures || (w in s.workers && s.workers[w] == Publishing(j, r))
            || (a.Answered? && a.worker == w && w in s.workers && s.workers[w] == Asking(j) && r == Cleaned(a.answer, s.maxResults))
  {
    hide Pruned, Cleaned, Verdict;
  }

  // ── first come, first served ────────────────────────────────────────────────

  ghost predicate Ahead(queue: seq<nat>, a: nat, b: nat)
  {
    exists x, y :: 0 <= x < y < |queue| && queue[x] == a && queue[y] == b
  }

  /** While both are queued the one stays ahead of the other. */
  ghost predicate InTurn(s: State, a: nat, b: nat)
  {
    a in s.queue && b in s.queue ==> Ahead(s.queue, a, b)
  }

  /** What is kept of a list and one more in front. */
  lemma AheadLater(kept: seq<nat>, rest: seq<nat>, a: nat, b: nat, first: nat)
    requires Ahead(rest, a, b) && (kept == rest || kept == [first] + rest)
    ensures Ahead(kept, a, b)
  {
    var u, v :| 0 <= u < v < |rest| && rest[u] == a && rest[v] == b;
    var shift := |kept| - |rest|;
    assert kept[u + shift] == a && kept[v + shift] == b;
  }

  lemma {:induction false} PrunedInOrder(queue: seq<nat>, jobs: map<nat, Job>, a: nat, b: nat)
    requires Ahead(queue, a, b) && Unrepeated(queue) && a in Pruned(queue, jobs) && b in Pruned(queue, jobs)
    ensures Ahead(Pruned(queue, jobs), a, b)
  {
    var x, y :| 0 <= x < y < |queue| && queue[x] == a && queue[y] == b;
    var tail := queue[1..];
    var rest, kept := Pruned(tail, jobs), Pruned(queue, jobs);
    assert kept == rest || kept == [queue[0]] + rest;
    assert tail[y - 1] == b;
    if x == 0 {
      assert a !in tail by { assert forall i :: 0 <= i < |tail| ==> tail[i] == queue[i + 1]; }
      assert kept == [a] + rest && b in rest;
      var k :| 0 <= k < |rest| && rest[k] == b;
      assert kept[0] == a && kept[k + 1] == b;
    } else {
      assert tail[x - 1] == a;
      assert a in rest && b in rest;
      hide Pruned;
      PrunedInOrder(tail, jobs, a, b);
      AheadLater(kept, rest, a, b, queue[0]);
    }
  }

  lemma StepInTurn(s: State, act: Action, a: nat, b: nat)
    requires Placed(s) && Enabled(s, act) && InTurn(s, a, b) && IsEnqueued(s.jobs, a) && IsEnqueued(s.jobs, b)
    ensures InTurn(Apply(s, act), a, b)
  {
    var t := Apply(s, act);
    if a in t.queue && b in t.queue {
      if act.Enqueue? {
        BuildingIsOut(s, act.job);
        assert act.job != a && act.job != b;
        EnqueueInTurn(s, act.job, a, b);
      } else if act.Take? {
        var x, y :| 0 <= x < y < |s.queue| && s.queue[x] == a && s.queue[y] == b;
        assert x != 0;
        assert t.queue[x - 1] == a && t.queue[y - 1] == b;
      }
      hide Placed, Pruned, Cleaned, Verdict;
    }
  }

  lemma EnqueueInTurn(s: State, j: nat, a: nat, b: nat)
    requires QueueKept(s.queue, s.capacity, s.jobs) && j in s.jobs && j != a && j != b && InTurn(s, a, b)
    requires a in DoEnqueue(s, j).queue && b in DoEnqueue(s, j).queue
    ensures Ahead(DoEnqueue(s, j).queue, a, b)
  {
    if !s.closing {
      var kept := Pruned(s.queue, s.jobs);
      PrunedInOrder(s.queue, s.jobs, a, b);
      var u, v :| 0 <= u < v < |kept| && kept[u] == a && kept[v] == b;
      assert (kept + [j])[u] == a && (kept + [j])[v] == b;
    }
  }

  lemma {:induction false} RunInTurn(
      states: seq<State>, run: seq<Action>, capacity: nat, maxResults: nat, i: nat, k: nat, a: nat, b: nat)
    requires IsRun(states, run, capacity, maxResults) && i <= k <= |run| && Ahead(states[i].queue, a, b)
    ensures InTurn(states[k], a, b) && IsEnqueued(states[k].jobs, a) && IsEnqueued(states[k].jobs, b)
    decreases k
  {
    hide Apply, Enabled, InTurn;
    if i < k {
      RunInTurn(states, run, capacity, maxResults, i, k - 1, a, b);
      RunKeeps(states, run, capacity, maxResults, k - 1);
      hide Signals, Answers, Replies;
      StepInTurn(states[k - 1], run[k - 1], a, b);
      StaysEnqueued(states[k - 1], run[k - 1], a);
      StaysEnqueued(states[k - 1], run[k - 1], b);
    } else {
      RunKeeps(states, run, capacity, maxResults, k);
      hide Signals, Answers, Replies, WorkersKept, JobsKnown;
      AheadIsInTurn(states[k], a, b);
    }
  }

  lemma AheadIsInTurn(s: State, a: nat, b: nat)
    requires Ahead(s.queue, a, b)
    ensures InTurn(s, a, b) && a in s.queue && b in s.queue
  {
  }

  lemma StaysEnqueued(s: State, act: Action, j: nat)
    requires Placed(s) && Enabled(s, act) && IsEnqueued(s.jobs, j)
    ensures IsEnqueued(Apply(s, act).jobs, j)
  {
    KnownIds(s);
    hide Placed, Pruned, Cleaned, Verdict;
  }

  /** Workers take jobs in the order they were queued: whoever was ahead of a job
      that is taken has left the queue before it. */
  lemma {:induction false} FirstComeFirstServed(
      states: seq<State>, run: seq<Action>, capacity: nat, maxResults: nat, i: nat, k: nat, a: nat, b: nat)
    requires IsRun(states, run, capacity, maxResults) && i <= k < |run| && Ahead(states[i].queue, a, b)
    requires run[k].Take? && states[k + 1].workers[run[k].worker] == Took(b)
    ensures a !in states[k].queue && b in states[k].queue && b !in states[k + 1].queue
  {
    RunInTurn(states, run, capacity, maxResults, i, k, a, b);
    RunKeeps(states, run, capacity, maxResults, k);
    hide Signals, Answers, Replies, WorkersKept, JobsKnown;
    var queue := states[k].queue;
    assert queue[0] == b;
    assert !Ahead(queue, a, b);
  }
}
