/** The stretches of the resolver that run under the queue's lock. */
module ResolverImpl {
  import opened Octets
  import opened Resolver

  lemma {:induction false} PrunedAppend(a: seq<nat>, b: seq<nat>, jobs: map<nat, Job>)
    ensures Pruned(a + b, jobs) == Pruned(a, jobs) + Pruned(b, jobs)
  {
    if a == [] {
      assert a + b == b;
    } else {
      assert (a + b)[1..] == a[1..] + b;
      PrunedAppend(a[1..], b, jobs);
    }
  }

  function Erased(list: seq<nat>, x: nat): (r: seq<nat>)
    ensures forall y :: y in r <==> y in list && y != x
  {
    if list == [] then []
    else if list[0] == x then Erased(list[1..], x) else [list[0]] + Erased(list[1..], x)
  }

  lemma {:induction false} ErasedAppend(a: seq<nat>, b: seq<nat>, x: nat)
    ensures Erased(a + b, x) == Erased(a, x) + Erased(b, x)
  {
    if a == [] {
      assert a + b == b;
    } else {
      assert (a + b)[1..] == a[1..] + b;
      ErasedAppend(a[1..], b, x);
    }
  }

  /** Those told are marked and signalled; the others are as before. */
  ghost predicate Told(before: map<nat, Job>, now: map<nat, Job>, told: seq<nat>)
  {
    && now.Keys == before.Keys
    && forall j :: j in now ==>
         now[j] == if j in told then before[j].(shutdown := true, signalled := true) else before[j]
  }

  lemma TellOne(before: map<nat, Job>, now: map<nat, Job>, told: seq<nat>, j: nat)
    requires Told(before, now, told) && j in now
    ensures Told(before, now[j := now[j].(shutdown := true, signalled := true)], told + [j])
  {
  }

  /** What the queue's lock protects. The workers' whereabouts, the cancellations
      under way and the closing thread's progress are the protocol's. */
  class SharedState {
    const capacity: nat
    const maxResults: nat
    var jobs: map<nat, Job>
    var queue: seq<nat>
    var active: seq<nat>
    var closing: bool
    ghost var next: nat
    ghost var workers: map<nat, Worker>
    ghost var cancelling: set<nat>
    ghost var closer: Closer

    constructor (capacity: nat, maxResults: nat)
      ensures View() == Start(capacity, maxResults)
    {
      this.capacity, this.maxResults := capacity, maxResults;
      jobs, queue, active, closing := map[], [], [], false;
      next, workers, cancelling, closer := 0, map[], {}, Away;
      new;
      assert (set j | j in active) == {};
    }

    ghost function View(): (s: State)
      reads this
    {
      State(capacity, maxResults, jobs, next, queue, (set j | j in active), workers, cancelling, closing, closer)
    }

    /** Drop the jobs nobody waits for. */
    method Prune()
      modifies this`queue
      ensures queue == Pruned(old(queue), jobs)
    {
      var kept := [];
      for i := 0 to |queue|
        invariant queue == old(queue) && kept == Pruned(queue[..i], jobs)
      {
        var j := queue[i];
        assert queue[..i + 1] == queue[..i] + [j];
        PrunedAppend(queue[..i], [j], jobs);
        assert [j][1..] == [];
        if !(j in jobs && (jobs[j].abandoned || jobs[j].cancelled)) {
          kept := kept + [j];
        }
      }
      assert queue[..|queue|] == queue;
      queue := kept;
    }

    /** Admit a job, or turn its caller away. */
    method Enqueue(j: nat) returns (reply: Option<Reply>)
      requires Enabled(View(), Action.Enqueue(j))
      modifies this`jobs, this`queue
      ensures View() == Apply(old(View()), Action.Enqueue(j))
      ensures reply == if jobs[j].stage.Waiting? then None else Some(jobs[j].stage.reply)
    {
      hide Pruned;
      if closing {
        jobs := jobs[j := jobs[j].(stage := Returned(Cancelled))];
        return Some(Cancelled);
      }
      Prune();
      if |queue| >= capacity {
        jobs := jobs[j := jobs[j].(stage := Returned(QueueFull))];
        return Some(QueueFull);
      }
      jobs := jobs[j := jobs[j].(stage := Waiting, enqueued := true)];
      queue := queue + [j];
      reply := None;
    }

    /** A worker takes the front job. */
    method TakeFront(ghost worker: nat) returns (j: nat)
      requires Enabled(View(), Take(worker))
      modifies this`queue, this`active, this`workers
      ensures View() == Apply(old(View()), Take(worker)) && j == old(queue)[0]
    {
      j := queue[0];
      queue := queue[1..];
      active := active + [j];
      workers := workers[worker := Took(j)];
      assert (set k | k in active) == (set k | k in old(active)) + {j};
    }

    /** A worker is done with its job. */
    method Finish(ghost worker: nat, j: nat)
      requires Enabled(View(), Leave(worker)) && workers[worker].job == j
      modifies this`active, this`workers
      ensures View() == Apply(old(View()), Leave(worker))
    {
      var kept := [];
      for i := 0 to |active|
        invariant active == old(active) && workers == old(workers) && kept == Erased(active[..i], j)
      {
        assert active[..i + 1] == active[..i] + [active[i]];
        ErasedAppend(active[..i], [active[i]], j);
        assert [active[i]][1..] == [];
        if active[i] != j {
          kept := kept + [active[i]];
        }
      }
      assert active[..|active|] == active;
      active, workers := kept, workers - {worker};
      assert (set k | k in active) == (set k | k in old(active)) - {j};
    }

    /** Close: nobody is admitted any more; `order` are the jobs to tell. */
    method BeginClose() returns (order: seq<nat>)
      requires closer.Away?
      modifies this`closing, this`closer
      ensures order == queue + active && Enabled(old(View()), Close(order))
      ensures View() == Apply(old(View()), Close(order))
    {
      closing := true;
      order := queue + active;
      closer := Closing(order, None);
    }

    /** Tell the next job under its own lock. */
    method MarkJob(j: nat)
      requires Enabled(View(), Mark) && closer.todo[0] == j
      modifies this`jobs, this`closer
      ensures View() == Apply(old(View()), Mark)
    {
      jobs := jobs[j := jobs[j].(shutdown := true)];
      closer := Closing(closer.todo[1..], Some(j));
    }

    /** And signal it, that lock released. */
    method SignalJob(j: nat)
      requires Enabled(View(), CloseSignal) && closer.marked == Some(j)
      modifies this`jobs, this`closer
      ensures View() == Apply(old(View()), CloseSignal)
    {
      jobs := jobs[j := jobs[j].(signalled := true)];
      closer := Closing(closer.todo, None);
    }

    method EndClose()
      requires Enabled(View(), Closed)
      modifies this`queue, this`closer
      ensures View() == Apply(old(View()), Closed)
    {
      queue, closer := [], Away;
    }

    /** Both, with nobody in between. */
    method CloseJob(j: nat)
      requires j in jobs && closer.Closing? && closer.marked.None? && closer.todo != [] && closer.todo[0] == j
      modifies this`jobs, this`closer
      ensures jobs == old(jobs)[j := old(jobs)[j].(shutdown := true, signalled := true)]
      ensures closer == Closing(old(closer).todo[1..], None)
    {
      MarkJob(j);
      SignalJob(j);
    }

    /** The closing thread alone: everybody queued or active ends up told and
        signalled, nobody else is touched, and the queue is empty. */
    method CloseAll()
      requires closer.Away? && forall j :: j in queue || j in active ==> j in jobs
      modifies this`jobs, this`queue, this`closing, this`closer
      ensures closing && closer.Away? && queue == [] && Told(old(jobs), jobs, old(queue) + active)
    {
      hide Told;
      var order := BeginClose();
      TellAll(order);
      EndClose();
    }

    method TellAll(order: seq<nat>)
      requires closer == Closing(order, None) && forall j :: j in order ==> j in jobs
      modifies this`jobs, this`closer
      ensures closer == Closing([], None) && Told(old(jobs), jobs, order)
    {
      assert Told(old(jobs), jobs, order[..0]);
      for i := 0 to |order|
        invariant closer == Closing(order[i..], None)
        invariant jobs.Keys == old(jobs).Keys && Told(old(jobs), jobs, order[..i])
      {
        hide Told;
        TellOne(old(jobs), jobs, order[..i], order[i]);
        assert order[..i + 1] == order[..i] + [order[i]];
        CloseJob(order[i]);
      }
      assert order[..|order|] == order;
    }
  }
}
