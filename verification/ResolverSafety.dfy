/** What holds of the resolver under every interleaving. */
module ResolverSafety {
  import opened Octets
  import opened Endpoints
  import opened Resolver

  // ── where jobs are ──────────────────────────────────────────────────────────

  ghost predicate Unrepeated(q: seq<nat>)
  {
    forall i, k :: 0 <= i < k < |q| ==> q[i] != q[k]
  }

  ghost predicate JobsKnown(jobs: map<nat, Job>, next: nat, cancelling: set<nat>)
  {
    && (forall j :: j in jobs ==> 1 <= j <= next && (jobs[j].stage.Building? ==> !jobs[j].enqueued))
    && cancelling <= jobs.Keys
  }

  ghost predicate IsEnqueued(jobs: map<nat, Job>, j: nat)
  {
    j in jobs && jobs[j].enqueued
  }

  ghost predicate QueueKept(queue: seq<nat>, capacity: nat, jobs: map<nat, Job>)
  {
    |queue| <= capacity && Unrepeated(queue) && forall j :: j in queue ==> IsEnqueued(jobs, j)
  }

  ghost function HeldJobs(workers: map<nat, Worker>): (r: set<nat>)
  {
    set w | w in workers :: workers[w].job
  }

  /** The active list is who the workers hold, one each, none of them queued. */
  ghost predicate WorkersKept(workers: map<nat, Worker>, active: set<nat>, queue: seq<nat>, jobs: map<nat, Job>)
  {
    && active == HeldJobs(workers)
    && (forall w :: w in workers ==> IsEnqueued(jobs, workers[w].job) && workers[w].job !in queue)
    && (forall v, w :: v in workers && w in workers && v != w ==> workers[v].job != workers[w].job)
  }

  ghost predicate Placed(s: State)
  {
    && JobsKnown(s.jobs, s.next, s.cancelling)
    && QueueKept(s.queue, s.capacity, s.jobs)
    && WorkersKept(s.workers, s.active, s.queue, s.jobs)
  }

  /** A job may change in place as long as it stays enqueued. */
  lemma EditPlaced(s: State, j: nat, job: Job)
    requires Placed(s) && j in s.jobs && job.enqueued == s.jobs[j].enqueued && (job.stage.Building? ==> !job.enqueued)
    ensures Placed(Updated(s, j, job))
  {
    hide Unrepeated, HeldJobs;
  }

  /** A worker may move on as long as it keeps its job. */
  lemma MovePlaced(s: State, w: nat, worker: Worker)
    requires Placed(s) && w in s.workers && worker.job == s.workers[w].job
    ensures Placed(s.(workers := s.workers[w := worker]))
  {
    hide Unrepeated, IsEnqueued;
    assert HeldJobs(s.workers[w := worker]) == HeldJobs(s.workers) by {
      assert forall v :: v in s.workers ==> s.workers[w := worker][v].job == s.workers[v].job;
      assert s.workers[w := worker].Keys == s.workers.Keys;
      SameHeld(s.workers, s.workers[w := worker]);
    }
  }

  lemma SameHeld(a: map<nat, Worker>, b: map<nat, Worker>)
    requires a.Keys == b.Keys && forall w :: w in a ==> a[w].job == b[w].job
    ensures HeldJobs(a) == HeldJobs(b)
  {
    forall j ensures j in HeldJobs(a) <==> j in HeldJobs(b) {
      if j in HeldJobs(a) {
        var w :| w in a && a[w].job == j;
        assert w in b && b[w].job == j;
      }
      if j in HeldJobs(b) {
        var w :| w in b && b[w].job == j;
        assert w in a && a[w].job == j;
      }
    }
  }

  lemma {:induction false} PrunedMeans(queue: seq<nat>, jobs: map<nat, Job>)
    requires Unrepeated(queue)
    ensures Unrepeated(Pruned(queue, jobs))
    ensures forall j :: j in Pruned(queue, jobs) <==> j in queue && !(j in jobs && (jobs[j].abandoned || jobs[j].cancelled))
  {
    if queue != [] {
      PrunedMeans(queue[1..], jobs);
      assert queue[0] !in queue[1..];
      assert forall j :: j in queue <==> j == queue[0] || j in queue[1..];
    }
  }

  lemma PrunePlaced(s: State)
    requires Placed(s)
    ensures Placed(s.(queue := Pruned(s.queue, s.jobs)))
  {
    PrunedMeans(s.queue, s.jobs);
    hide Pruned, Unrepeated, HeldJobs, IsEnqueued;
  }

  lemma PushPlaced(s: State, j: nat)
    requires Placed(s) && j in s.jobs && s.jobs[j].stage.Building? && |s.queue| < s.capacity
    ensures Placed(Updated(s, j, s.jobs[j].(stage := Waiting, enqueued := true)).(queue := s.queue + [j]))
  {
    assert j !in s.queue;
    assert forall w :: w in s.workers ==> s.workers[w].job != j;
    hide HeldJobs;
  }

  lemma EnqueuePlaced(s: State, j: nat)
    requires Placed(s) && j in s.jobs && s.jobs[j].stage.Building?
    ensures Placed(DoEnqueue(s, j))
  {
    hide Placed, Pruned;
    PrunePlaced(s);
    var pruned := s.(queue := Pruned(s.queue, s.jobs));
    var job := s.jobs[j];
    assert !job.enqueued by { BuildingIsOut(s, j); }
    if s.closing {
      EditPlaced(s, j, job.(stage := Returned(Cancelled)));
    } else if |pruned.queue| >= s.capacity {
      EditPlaced(pruned, j, job.(stage := Returned(QueueFull)));
    } else {
      PushPlaced(pruned, j);
    }
  }

  lemma BuildingIsOut(s: State, j: nat)
    requires Placed(s) && j in s.jobs && s.jobs[j].stage.Building?
    ensures !s.jobs[j].enqueued
  {
  }

  lemma TakePlaced(s: State, w: nat)
    requires Placed(s) && Enabled(s, Take(w))
    ensures Placed(Apply(s, Take(w)))
  {
    var j := s.queue[0];
    var workers := s.workers[w := Took(j)];
    assert j !in s.queue[1..];
    assert forall k :: k in s.queue <==> k == j || k in s.queue[1..];
    assert HeldJobs(workers) == HeldJobs(s.workers) + {j} by {
      assert workers[w].job == j;
      forall k | k in HeldJobs(s.workers) ensures k in HeldJobs(workers) {
        var v :| v in s.workers && s.workers[v].job == k;
        assert workers[v].job == k;
      }
    }
    hide HeldJobs, IsEnqueued;
  }

  lemma LeavePlaced(s: State, w: nat)
    requires Placed(s) && Enabled(s, Leave(w))
    ensures Placed(Apply(s, Leave(w)))
  {
    var workers := s.workers - {w};
    var j := s.workers[w].job;
    assert HeldJobs(workers) == HeldJobs(s.workers) - {j} by {
      forall k | k in HeldJobs(s.workers) && k != j ensures k in HeldJobs(workers) {
        var v :| v in s.workers && s.workers[v].job == k;
        assert v in workers && workers[v].job == k;
      }
    }
    hide HeldJobs, IsEnqueued, Unrepeated;
  }

  lemma CreatePlaced(s: State)
    requires Placed(s)
    ensures Placed(Apply(s, Create))
  {
    hide HeldJobs, Unrepeated;
  }

  lemma StepPlaced(s: State, a: Action)
    requires Placed(s) && Enabled(s, a)
    ensures Placed(Apply(s, a))
  {
    hide Placed, Pruned, Cleaned, DoEnqueue, Verdict;
    match a
    case Create => CreatePlaced(s);
    case Cancel(j) =>
      NotBuilding(s, j);
      EditPlaced(s, j, s.jobs[j].(cancelled := true));
      CancellingPlaced(Updated(s, j, s.jobs[j].(cancelled := true)), s.cancelling + {j});
    case CancelSignal(j) =>
      NotBuilding(s, j);
      EditPlaced(s, j, s.jobs[j].(signalled := true));
      CancellingPlaced(Updated(s, j, s.jobs[j].(signalled := true)), s.cancelling - {j});
    case Enqueue(j) => EnqueuePlaced(s, j);
    case Wake(j, reason) => EditPlaced(s, j, s.jobs[j].(stage := Woken(reason)));
    case Return(j) => EditPlaced(s, j, DoReturn(s, j).jobs[j]);
    case Take(w) => TakePlaced(s, w);
    case Look(w) => MovePlaced(s, w, Apply(s, a).workers[w]);
    case Answered(w, _) => MovePlaced(s, w, Apply(s, a).workers[w]);
    case Publish(w) =>
      NotBuilding(s, s.workers[w].job);
      EditPlaced(s, s.workers[w].job, Apply(s, a).jobs[s.workers[w].job]);
      MovePlaced(Updated(s, s.workers[w].job, Apply(s, a).jobs[s.workers[w].job]), w, Signalling(s.workers[w].job));
    case Notify(w) =>
      NotBuilding(s, s.workers[w].job);
      EditPlaced(s, s.workers[w].job, s.jobs[s.workers[w].job].(signalled := true));
      MovePlaced(Updated(s, s.workers[w].job, s.jobs[s.workers[w].job].(signalled := true)), w, Leaving(s.workers[w].job));
    case Leave(w) => LeavePlaced(s, w);
    case Close(order) => AsidePlaced(s, Apply(s, a));
    case Mark =>
      NotBuilding(s, s.closer.todo[0]);
      EditPlaced(s, s.closer.todo[0], s.jobs[s.closer.todo[0]].(shutdown := true));
      AsidePlaced(Updated(s, s.closer.todo[0], s.jobs[s.closer.todo[0]].(shutdown := true)), Apply(s, a));
    case CloseSignal =>
      NotBuilding(s, s.closer.marked.value);
      EditPlaced(s, s.closer.marked.value, s.jobs[s.closer.marked.value].(signalled := true));
      AsidePlaced(Updated(s, s.closer.marked.value, s.jobs[s.closer.marked.value].(signalled := true)), Apply(s, a));
    case Closed => ClosedPlaced(s);
  }

  lemma NotBuilding(s: State, j: nat)
    requires Placed(s) && j in s.jobs
    ensures s.jobs[j].stage.Building? ==> !s.jobs[j].enqueued
  {
  }

  lemma CancellingPlaced(s: State, cancelling: set<nat>)
    requires Placed(s) && cancelling <= s.jobs.Keys + s.cancelling
    ensures Placed(s.(cancelling := cancelling))
  {
    hide QueueKept, WorkersKept;
  }

  lemma AsidePlaced(s: State, t: State)
    requires Placed(s) && t == s.(closing := t.closing, closer := t.closer)
    ensures Placed(t)
  {
    hide JobsKnown, QueueKept, WorkersKept;
  }

  lemma ClosedPlaced(s: State)
    requires Placed(s)
    ensures Placed(s.(queue := [], closer := Away))
  {
    hide JobsKnown, HeldJobs, IsEnqueued;
  }

  // ── nobody waits unheeded ───────────────────────────────────────────────────

  /** Queued, with a worker, signalled, about to be signalled, or given up. */
  ghost predicate Tended(s: State, j: nat)
    requires j in s.jobs
  {
    j in s.queue || j in s.active || s.jobs[j].signalled || j in s.cancelling || s.jobs[j].abandoned
  }

  ghost predicate CloserDue(s: State, j: nat)
    requires j in s.jobs
  {
    s.closer.Closing? && (j in s.closer.todo || s.closer.marked == Some(j))
  }

  ghost predicate Signals(s: State)
  {
    && (forall j :: j in s.jobs && s.jobs[j].cancelled ==> s.jobs[j].signalled || j in s.cancelling)
    && (forall j :: j in s.jobs && s.jobs[j].enqueued ==> Tended(s, j))
    && (forall w :: w in s.workers && s.workers[w].Leaving? && s.workers[w].job in s.jobs ==> s.jobs[s.workers[w].job].signalled)
    && (forall j :: j in s.queue && j in s.jobs && s.closer.Closing? ==> CloserDue(s, j) || s.jobs[j].signalled)
    && (s.closing && s.closer.Away? ==> s.queue == [])
    && (s.closer.Closing? ==> s.closing)
  }

  lemma EnqueueSignals(s: State, j: nat)
    requires Placed(s) && Signals(s) && Enabled(s, Enqueue(j))
    ensures Signals(DoEnqueue(s, j))
  {
    PrunedMeans(s.queue, s.jobs);
    hide Pruned, Unrepeated, WorkersKept, JobsKnown;
  }

  lemma TakeSignals(s: State, w: nat)
    requires Placed(s) && Signals(s) && Enabled(s, Take(w))
    ensures Signals(Apply(s, Take(w)))
  {
    assert forall k :: k in s.queue <==> k == s.queue[0] || k in s.queue[1..];
    hide Unrepeated, WorkersKept, JobsKnown;
  }

  lemma LeaveSignals(s: State, w: nat)
    requires Placed(s) && Signals(s) && Enabled(s, Leave(w))
    ensures Signals(Apply(s, Leave(w)))
  {
    assert s.workers[w].job in s.jobs;
    hide Unrepeated, HeldJobs, JobsKnown;
  }

  lemma MarkSignals(s: State)
    requires Placed(s) && Signals(s) && Enabled(s, Mark)
    ensures Signals(Apply(s, Mark))
  {
    assert forall k :: k in s.closer.todo <==> k == s.closer.todo[0] || k in s.closer.todo[1..];
    hide Placed;
  }

  lemma ClosedSignals(s: State)
    requires Placed(s) && Signals(s) && Enabled(s, Closed)
    ensures Signals(Apply(s, Closed))
  {
    assert forall j :: j in s.queue ==> j in s.jobs && s.jobs[j].signalled by {
      assert forall j :: j in s.queue ==> IsEnqueued(s.jobs, j);
    }
    hide Placed;
  }

  /** A job may be signalled, cancelled, woken or returned from. */
  lemma EditSignals(s: State, j: nat, job: Job, cancelling: set<nat>)
    requires Signals(s) && j in s.jobs && job.enqueued == s.jobs[j].enqueued
    requires (s.jobs[j].signalled ==> job.signalled) && (s.jobs[j].abandoned ==> job.abandoned)
    requires job.cancelled ==> job.signalled || j in cancelling
    requires s.cancelling - {j} <= cancelling && (j in s.cancelling && j !in cancelling ==> job.signalled)
    ensures Signals(Updated(s, j, job).(cancelling := cancelling))
  {
    var t := Updated(s, j, job).(cancelling := cancelling);
    forall k | k in t.jobs && t.jobs[k].enqueued ensures Tended(t, k) {
      assert Tended(s, k);
    }
    forall k | k in t.queue && k in t.jobs && t.closer.Closing? ensures CloserDue(t, k) || t.jobs[k].signalled {
      assert CloserDue(s, k) || s.jobs[k].signalled;
    }
  }

  lemma MoveSignals(s: State, w: nat, worker: Worker)
    requires Signals(s) && w in s.workers && worker.job == s.workers[w].job
    requires worker.Leaving? && worker.job in s.jobs ==> s.jobs[worker.job].signalled
    ensures Signals(s.(workers := s.workers[w := worker]))
  {
    var t := s.(workers := s.workers[w := worker]);
    assert forall k :: k in s.jobs ==> (Tended(t, k) <==> Tended(s, k)) && (CloserDue(t, k) <==> CloserDue(s, k));
    hide Tended, CloserDue;
  }

  lemma CloseSignals(s: State, order: seq<nat>)
    requires Signals(s) && Enabled(s, Close(order))
    ensures Signals(Apply(s, Close(order)))
  {
    var t := Apply(s, Close(order));
    assert forall k :: k in s.jobs ==> (Tended(t, k) <==> Tended(s, k));
    hide Tended;
  }

  lemma ClosePassesOn(s: State)
    requires Signals(s) && s.closer.Closing? && s.closer.marked.Some? && s.closer.marked.value in s.jobs
    requires s.jobs[s.closer.marked.value].signalled
    ensures Signals(s.(closer := Closing(s.closer.todo, None)))
  {
    var t := s.(closer := Closing(s.closer.todo, None));
    assert forall k :: k in s.jobs ==> (Tended(t, k) <==> Tended(s, k));
    hide Tended;
  }

  lemma StepSignals(s: State, a: Action)
    requires Placed(s) && Signals(s) && Enabled(s, a)
    ensures Signals(Apply(s, a))
  {
    CancelledIsHeard(s);
    hide Placed, Signals, Pruned, Cleaned, DoEnqueue, Verdict;
    match a
    case Create => CreateSignals(s);
    case Cancel(j) => EditSignals(s, j, s.jobs[j].(cancelled := true), s.cancelling + {j});
    case CancelSignal(j) => EditSignals(s, j, s.jobs[j].(signalled := true), s.cancelling - {j});
    case Enqueue(j) => EnqueueSignals(s, j);
    case Wake(j, reason) => EditSignals(s, j, s.jobs[j].(stage := Woken(reason)), s.cancelling);
    case Return(j) => EditSignals(s, j, DoReturn(s, j).jobs[j], s.cancelling);
    case Take(w) => TakeSignals(s, w);
    case Look(w) => MoveSignals(s, w, Apply(s, a).workers[w]);
    case Answered(w, _) => MoveSignals(s, w, Apply(s, a).workers[w]);
    case Publish(w) =>
      var j := s.workers[w].job;
      EditSignals(s, j, Apply(s, a).jobs[j], s.cancelling);
      MoveSignals(Updated(s, j, Apply(s, a).jobs[j]), w, Signalling(j));
    case Notify(w) =>
      var j := s.workers[w].job;
      EditSignals(s, j, s.jobs[j].(signalled := true), s.cancelling);
      MoveSignals(Updated(s, j, s.jobs[j].(signalled := true)), w, Leaving(j));
    case Leave(w) => LeaveSignals(s, w);
    case Close(order) => CloseSignals(s, order);
    case Mark => MarkSignals(s);
    case CloseSignal =>
      var j := s.closer.marked.value;
      EditSignals(s, j, s.jobs[j].(signalled := true), s.cancelling);
      ClosePassesOn(Updated(s, j, s.jobs[j].(signalled := true)));
    case Closed => ClosedSignals(s);
  }

  lemma CancelledIsHeard(s: State)
    requires Signals(s)
    ensures forall j :: j in s.jobs && s.jobs[j].cancelled ==> s.jobs[j].signalled || j in s.cancelling
  {
  }

  lemma CreateSignals(s: State)
    requires Placed(s) && Signals(s)
    ensures Signals(Apply(s, Create))
  {
    assert s.next + 1 !in s.jobs;
    assert forall w :: w in s.workers ==> s.workers[w].job in s.jobs by {
      assert forall w :: w in s.workers ==> IsEnqueued(s.jobs, s.workers[w].job);
    }
    assert forall j :: j in s.queue ==> j in s.jobs by { assert forall j :: j in s.queue ==> IsEnqueued(s.jobs, j); }
    hide Placed;
  }

  // ── results ─────────────────────────────────────────────────────────────────

  predicate MayPublish(w: Worker)
  {
    w.Took? || w.Asking? || w.Publishing?
  }

  /** Published answers are presentable, and nobody about to publish finds one. */
  ghost predicate Answers(s: State)
  {
    && (forall j :: j in s.jobs && s.jobs[j].result.Some? ==> s.jobs[j].enqueued && Presentable(s.jobs[j].result.value, s.maxResults))
    && (forall j :: j in s.queue && j in s.jobs ==> s.jobs[j].result.None?)
    && (forall w :: w in s.workers && MayPublish(s.workers[w]) && s.workers[w].job in s.jobs ==> s.jobs[s.workers[w].job].result.None?)
    && (forall w :: w in s.workers && s.workers[w].Publishing? ==> Presentable(s.workers[w].answer, s.maxResults))
  }

  /** A job without a result may change, and join a queue that otherwise shrinks. */
  lemma AdmitAnswers(s: State, t: State, j: nat)
    requires Answers(s) && j in s.jobs && j in t.jobs && s.jobs[j].result.None? && t.jobs[j].result.None?
    requires t == s.(jobs := s.jobs[j := t.jobs[j]], queue := t.queue)
    requires forall k :: k in t.queue ==> k in s.queue || k == j
    ensures Answers(t)
  {
    hide Presentable;
  }

  lemma EnqueueAnswers(s: State, j: nat)
    requires Placed(s) && Answers(s) && Enabled(s, Enqueue(j))
    ensures Answers(DoEnqueue(s, j))
  {
    BuildingIsOut(s, j);
    assert s.jobs[j].result.None?;
    hide Placed, Answers, Pruned;
    AdmitAnswers(s, DoEnqueue(s, j), j);
  }

  lemma PublishAnswers(s: State, w: nat)
    requires Placed(s) && Answers(s) && Enabled(s, Publish(w))
    ensures Answers(DoPublish(s, w))
  {
    hide Presentable, Unrepeated, HeldJobs, JobsKnown;
  }

  lemma TakeAnswers(s: State, w: nat)
    requires Placed(s) && Answers(s) && Enabled(s, Take(w))
    ensures Answers(Apply(s, Take(w)))
  {
    assert forall k :: k in s.queue <==> k == s.queue[0] || k in s.queue[1..];
    hide Placed, Presentable;
  }

  lemma EditAnswers(s: State, t: State, j: nat)
    requires Answers(s) && j in s.jobs && j in t.jobs
    requires t == s.(jobs := s.jobs[j := t.jobs[j]], cancelling := t.cancelling, closer := t.closer, closing := t.closing)
    requires t.jobs[j].result == s.jobs[j].result && t.jobs[j].enqueued == s.jobs[j].enqueued
    ensures Answers(t)
  {
    hide Presentable;
  }

  lemma MoveAnswers(s: State, w: nat, worker: Worker)
    requires Answers(s) && w in s.workers && worker.job == s.workers[w].job
    requires (MayPublish(worker) ==> MayPublish(s.workers[w])) && (worker.Publishing? ==> Presentable(worker.answer, s.maxResults))
    ensures Answers(s.(workers := s.workers[w := worker]))
  {
    hide Presentable;
  }

  lemma LeaveAnswers(s: State, w: nat)
    requires Answers(s) && Enabled(s, Leave(w))
    ensures Answers(Apply(s, Leave(w)))
  {
    hide Presentable;
  }

  lemma StepAnswers(s: State, a: Action)
    requires Placed(s) && Answers(s) && Enabled(s, a)
    ensures Answers(Apply(s, a))
  {
    hide Placed, Answers, Presentable, Pruned, Cleaned, DoEnqueue, DoPublish, Verdict;
    match a
    case Create => CreateAnswers(s);
    case Cancel(j) => EditAnswers(s, Apply(s, a), j);
    case CancelSignal(j) => EditAnswers(s, Apply(s, a), j);
    case Enqueue(j) => EnqueueAnswers(s, j);
    case Wake(j, _) => EditAnswers(s, Apply(s, a), j);
    case Return(j) => EditAnswers(s, Apply(s, a), j);
    case Take(w) => TakeAnswers(s, w);
    case Look(w) => MoveAnswers(s, w, Apply(s, a).workers[w]);
    case Answered(w, answer) =>
      CleanedMeans(answer, s.maxResults);
      MoveAnswers(s, w, Apply(s, a).workers[w]);
    case Publish(w) => PublishAnswers(s, w);
    case Notify(w) =>
      var j := s.workers[w].job;
      EditAnswers(s, Updated(s, j, s.jobs[j].(signalled := true)), j);
      MoveAnswers(Updated(s, j, s.jobs[j].(signalled := true)), w, Leaving(j));
    case Leave(w) => LeaveAnswers(s, w);
    case Close(_) => AsideAnswers(s, Apply(s, a));
    case Mark => EditAnswers(s, Apply(s, a), s.closer.todo[0]);
    case CloseSignal => EditAnswers(s, Apply(s, a), s.closer.marked.value);
    case Closed => AsideAnswers(s, Apply(s, a));
  }

  lemma AsideAnswers(s: State, t: State)
    requires Answers(s) && t == s.(closing := t.closing, closer := t.closer, queue := t.queue)
    requires t.queue == s.queue || t.queue == []
    ensures Answers(t)
  {
    hide Presentable;
  }

  lemma CreateAnswers(s: State)
    requires Placed(s) && Answers(s)
    ensures Answers(Apply(s, Create))
  {
    assert s.next + 1 !in s.jobs;
    hide Placed, Presentable;
  }

  // ── replies ─────────────────────────────────────────────────────────────────

  /** A caller that waited got its result if there is one; one that was turned away
      got none. Only a caller that returned has abandoned its job. */
  predicate Replied(job: Job)
  {
    && (job.abandoned ==> job.stage.Returned?)
    && (job.stage.Returned? && job.enqueued ==>
          && job.abandoned && job.reason.Some?
          && (job.result.Some? ==> job.stage.reply == Result(job.result.value))
          && (job.result.None? ==>
                job.stage.reply == Cancelled || (job.stage.reply == TimedOut && job.reason == Some(Deadline))))
    && (job.stage.Returned? && !job.enqueued ==> job.stage.reply == Cancelled || job.stage.reply == QueueFull)
    && (job.stage.Waiting? || job.stage.Woken? ==> job.enqueued)
  }

  ghost predicate Replies(s: State)
  {
    forall j :: j in s.jobs ==> Replied(s.jobs[j])
  }

  /** Most actions leave a job's caller and its result alone. */
  lemma StageKept(s: State, a: Action, j: nat)
    requires Enabled(s, a) && !(a.Create? || a.Enqueue? || a.Wake? || a.Return?) && j in Apply(s, a).jobs
    ensures var t := Apply(s, a);
      && j in s.jobs && t.jobs[j].stage == s.jobs[j].stage && t.jobs[j].enqueued == s.jobs[j].enqueued
      && t.jobs[j].abandoned == s.jobs[j].abandoned && t.jobs[j].reason == s.jobs[j].reason
      && (!a.Publish? ==> t.jobs[j].result == s.jobs[j].result)
  {
    hide Cleaned;
  }

  /** What an action does to one job's record. */
  lemma JobReplies(s: State, a: Action, j: nat)
    requires Placed(s) && Replies(s) && Enabled(s, a) && j in Apply(s, a).jobs
    ensures Replied(Apply(s, a).jobs[j])
  {
    if a.Enqueue? {
      BuildingIsOut(s, a.job);
    }
    assert j in s.jobs ==> Replied(s.jobs[j]);
    hide Placed, Replies, Pruned;
    if !(a.Create? || a.Enqueue? || a.Wake? || a.Return? || a.Publish?) {
      StageKept(s, a, j);
      hide Apply;
    }
  }

  lemma StepReplies(s: State, a: Action)
    requires Placed(s) && Replies(s) && Enabled(s, a)
    ensures Replies(Apply(s, a))
  {
    forall j | j in Apply(s, a).jobs ensures Replied(Apply(s, a).jobs[j]) {
      JobReplies(s, a, j);
    }
  }

  // ── every run ───────────────────────────────────────────────────────────────

  ghost predicate Inv(s: State)
  {
    Placed(s) && Signals(s) && Answers(s) && Replies(s)
  }

  lemma StepKeeps(s: State, a: Action)
    requires Inv(s) && Enabled(s, a)
    ensures Inv(Apply(s, a))
  {
    hide Placed, Signals, Answers, Replies, Apply, Enabled;
    StepPlaced(s, a);
    StepSignals(s, a);
    StepAnswers(s, a);
    StepReplies(s, a);
  }

  lemma StartInv(capacity: nat, maxResults: nat)
    ensures Inv(Start(capacity, maxResults))
  {
    assert HeldJobs(map[]) == {};
  }

  lemma {:induction false} RunKeeps(states: seq<State>, run: seq<Action>, capacity: nat, maxResults: nat, i: nat)
    requires IsRun(states, run, capacity, maxResults) && i <= |run|
    ensures Inv(states[i])
  {
    hide Inv, Apply, Enabled;
    if i == 0 {
      StartInv(capacity, maxResults);
    } else {
      RunKeeps(states, run, capacity, maxResults, i - 1);
      StepKeeps(states[i - 1], run[i - 1]);
    }
  }

  // ── history ─────────────────────────────────────────────────────────────────

  /** A published result stays; a caller that returned keeps what it was told, and
      nothing is published for it any more. */
  ghost predicate JobOnward(a: Job, b: Job)
  {
    && (a.result.Some? ==> b.result == a.result)
    && (a.stage.Returned? ==> b.stage == a.stage)
    && (a.stage.Returned? && a.enqueued ==> b.result == a.result && b.enqueued)
  }

  lemma StepOnward(s: State, a: Action, j: nat)
    requires Inv(s) && Enabled(s, a) && j in s.jobs
    ensures j in Apply(s, a).jobs && JobOnward(s.jobs[j], Apply(s, a).jobs[j])
  {
    assert Replied(s.jobs[j]);
    assert s.next + 1 !in s.jobs by { KnownIds(s); }
    if a.Publish? {
      assert s.jobs[s.workers[a.worker].job].result.None?;
    }
    hide Inv, Pruned, Verdict;
    if !(a.Create? || a.Enqueue? || a.Wake? || a.Return? || a.Publish?) {
      assert j in Apply(s, a).jobs;
      StageKept(s, a, j);
      hide Apply;
    }
  }

  lemma KnownIds(s: State)
    requires Placed(s)
    ensures s.next + 1 !in s.jobs
  {
  }

  lemma {:induction false} RunOnward(
      states: seq<State>, run: seq<Action>, capacity: nat, maxResults: nat, i: nat, k: nat, j: nat)
    requires IsRun(states, run, capacity, maxResults) && i <= k <= |run| && j in states[i].jobs
    ensures j in states[k].jobs && JobOnward(states[i].jobs[j], states[k].jobs[j])
    decreases k
  {
    hide Inv, Apply, Enabled;
    if i < k {
      RunOnward(states, run, capacity, maxResults, i, k - 1, j);
      RunKeeps(states, run, capacity, maxResults, k - 1);
      StepOnward(states[k - 1], run[k - 1], j);
    }
  }

  ghost predicate HasReply(s: State, j: nat)
  {
    j in s.jobs && s.jobs[j].stage.Returned? && s.jobs[j].enqueued
  }

  /** Only returning gives a waiting caller its reply, and it is the verdict then. */
  lemma ReplyIsVerdict(s: State, a: Action, j: nat)
    requires Inv(s) && Enabled(s, a) && !HasReply(s, j) && HasReply(Apply(s, a), j)
    ensures a == Return(j) && Apply(s, a).jobs[j].stage.reply == Verdict(Apply(s, a).jobs[j])
  {
    assert forall i :: i in s.jobs && s.jobs[i].stage.Building? ==> !s.jobs[i].enqueued;
    hide Inv, Pruned;
    if !(a.Create? || a.Enqueue? || a.Wake? || a.Return?) {
      StageKept(s, a, j);
      hide Apply;
    }
  }

  lemma {:induction false} ReplyGivenAt(
      states: seq<State>, run: seq<Action>, capacity: nat, maxResults: nat, k: nat, j: nat) returns (i: nat)
    requires IsRun(states, run, capacity, maxResults) && k <= |run| && HasReply(states[k], j)
    ensures i < k && run[i] == Return(j) && j in states[i + 1].jobs
    ensures states[k].jobs[j].stage == Returned(Verdict(states[i + 1].jobs[j]))
  {
    hide Inv, Apply, Enabled, Verdict;
    RunKeeps(states, run, capacity, maxResults, if k == 0 then 0 else k - 1);
    assert k > 0;
    if HasReply(states[k - 1], j) {
      i := ReplyGivenAt(states, run, capacity, maxResults, k - 1, j);
      StepOnward(states[k - 1], run[k - 1], j);
    } else {
      i := k - 1;
      ReplyIsVerdict(states[i], run[i], j);
    }
  }

  // ── theorems ────────────────────────────────────────────────────────────────

  /** The queue never exceeds its capacity, and every job enqueued is queued, with a
      worker, signalled or about to be, or given up. */
  lemma QueueBoundedAndTended(states: seq<State>, run: seq<Action>, capacity: nat, maxResults: nat, i: nat)
    requires IsRun(states, run, capacity, maxResults) && i <= |run|
    ensures var s := states[i];
      && |s.queue| <= s.capacity
      && (forall j :: j in s.jobs && s.jobs[j].enqueued ==> Tended(s, j))
      && (s.closing && s.closer.Away? ==> s.queue == [])
  {
    RunKeeps(states, run, capacity, maxResults, i);
    hide Answers, Replies, Tended;
  }

  /** A result is published at most once and never after its caller returned; it is
      presentable. What the caller was told follows result, cancellation, deadline,
      shutdown, in that order, as they stood when it looked; a cancellation that
      comes later changes nothing. */
  lemma PublishedOnceDeliveredByRank(
      states: seq<State>, run: seq<Action>, capacity: nat, maxResults: nat, i: nat, k: nat, j: nat)
    requires IsRun(states, run, capacity, maxResults) && i <= k <= |run| && j in states[i].jobs
    ensures j in states[k].jobs && JobOnward(states[i].jobs[j], states[k].jobs[j])
    ensures var job := states[k].jobs[j];
      && (job.result.Some? ==> Presentable(job.result.value, states[k].maxResults))
      && (job.stage.Returned? && job.enqueued ==>
            exists m: nat :: m < k && run[m] == Return(j) && j in states[m + 1].jobs
                             && job.stage.reply == Verdict(states[m + 1].jobs[j]))
      && (job.stage.Returned? && job.enqueued && job.result.Some? ==> job.stage.reply == Result(job.result.value))
      && (job.stage.Returned? && !job.enqueued ==> job.stage.reply == Cancelled || job.stage.reply == QueueFull)
  {
    RunOnward(states, run, capacity, maxResults, i, k, j);
    RunKeeps(states, run, capacity, maxResults, k);
    assert Replied(states[k].jobs[j]);
    if HasReply(states[k], j) {
      var m := ReplyGivenAt(states, run, capacity, maxResults, k, j);
    }
    hide Placed, Signals, Presentable, Apply, Verdict;
  }
}
