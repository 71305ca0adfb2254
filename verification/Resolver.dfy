/** The resolver's job protocol.

Callers enqueue jobs and wait; workers take them, ask a backend and publish;
users cancel, at any time, deadlines pass and the resolver closes. Each step below is one
stretch under one lock, so that all of them interleave freely; while the resolver
closes it holds the queue's lock and the steps that need it are held up.
*/
module Resolver {
  import opened Octets
  import opened Endpoints

  /** What a caller is given. */
  datatype Reply = Result(answer: Answer) | Cancelled | TimedOut | QueueFull

  datatype Reason = Signal | Deadline | LoopGone

  /** The caller's side of a job. */
  datatype Stage = Building | Waiting | Woken(reason: Reason) | Returned(reply: Reply)

  datatype Job = Job(
    cancelled: bool,
    abandoned: bool,
    shutdown: bool,
    result: Option<Answer>,
    signalled: bool,
    enqueued: bool,
    reason: Option<Reason>,
    stage: Stage)

  /** A worker between two locks. */
  datatype Worker =
    | Took(job: nat) | Asking(job: nat) | Publishing(job: nat, answer: Answer) | Signalling(job: nat) | Leaving(job: nat)

  /** The closing thread, holding the queue's lock: jobs to mark, and one marked
      but not signalled yet. */
  datatype Closer = Away | Closing(todo: seq<nat>, marked: Option<nat>)

  datatype State = State(
    capacity: nat,
    maxResults: nat,
    jobs: map<nat, Job>,
    next: nat,
    queue: seq<nat>,
    active: set<nat>,
    workers: map<nat, Worker>,
    cancelling: set<nat>,
    closing: bool,
    closer: Closer)

  datatype Action =
    | Create
    | Cancel(job: nat)
    | CancelSignal(job: nat)
    | Enqueue(job: nat)
    | Wake(job: nat, reason: Reason)
    | Return(job: nat)
    | Take(worker: nat)
    | Look(worker: nat)
    | Answered(worker: nat, answer: Answer)
    | Publish(worker: nat)
    | Notify(worker: nat)
    | Leave(worker: nat)
    | Close(order: seq<nat>)
    | Mark
    | CloseSignal
    | Closed

  const NEW: Job := Job(false, false, false, None, false, false, None, Building)

  function Start(capacity: nat, maxResults: nat): (s: State)
  {
    State(capacity, maxResults, map[], 0, [], {}, map[], {}, false, Away)
  }

  ghost predicate Enabled(s: State, a: Action)
  {
    match a
    case Create => true
    case Cancel(j) => j in s.jobs
    case CancelSignal(j) => j in s.cancelling && j in s.jobs
    case Enqueue(j) => s.closer.Away? && j in s.jobs && s.jobs[j].stage.Building?
    case Wake(j, reason) => j in s.jobs && s.jobs[j].stage.Waiting? && (reason.Signal? ==> s.jobs[j].signalled)
    case Return(j) => j in s.jobs && s.jobs[j].stage.Woken?
    case Take(w) => s.closer.Away? && !s.closing && w !in s.workers && s.queue != []
    case Look(w) => w in s.workers && s.workers[w].Took? && s.workers[w].job in s.jobs
    case Answered(w, _) => w in s.workers && s.workers[w].Asking?
    case Publish(w) => w in s.workers && s.workers[w].Publishing? && s.workers[w].job in s.jobs
    case Notify(w) => w in s.workers && s.workers[w].Signalling? && s.workers[w].job in s.jobs
    case Leave(w) => s.closer.Away? && w in s.workers && s.workers[w].Leaving?
    case Close(order) =>
      s.closer.Away? && (forall j :: j in order <==> j in s.queue || j in s.active)
    case Mark => s.closer.Closing? && s.closer.marked.None? && s.closer.todo != [] && s.closer.todo[0] in s.jobs
    case CloseSignal => s.closer.Closing? && s.closer.marked.Some? && s.closer.marked.value in s.jobs
    case Closed => s.closer.Closing? && s.closer.marked.None? && s.closer.todo == []
  }

  /** Jobs whose callers are gone or have cancelled take no place in the queue. */
  function Pruned(queue: seq<nat>, jobs: map<nat, Job>): (r: seq<nat>)
    ensures |r| <= |queue| && forall j :: j in r ==> j in queue
  {
    if queue == [] then []
    else
      var rest := Pruned(queue[1..], jobs);
      if queue[0] in jobs && (jobs[queue[0]].abandoned || jobs[queue[0]].cancelled) then rest else [queue[0]] + rest
  }

  /** A result outranks a cancellation, that a deadline, that a shutdown. */
  function Verdict(job: Job): (r: Reply)
  {
    if job.result.Some? then Result(job.result.value)
    else if job.cancelled then Cancelled
    else if job.reason == Some(Deadline) then TimedOut
    else Cancelled
  }

  function Updated(s: State, j: nat, job: Job): (r: State)
  {
    s.(jobs := s.jobs[j := job])
  }

  function DoEnqueue(s: State, j: nat): (r: State)
    requires j in s.jobs
  {
    var job := s.jobs[j];
    var queue := Pruned(s.queue, s.jobs);
    if s.closing then Updated(s, j, job.(stage := Returned(Cancelled)))
    else if |queue| >= s.capacity then Updated(s, j, job.(stage := Returned(QueueFull))).(queue := queue)
    else Updated(s, j, job.(stage := Waiting, enqueued := true)).(queue := queue + [j])
  }

  function DoReturn(s: State, j: nat): (r: State)
    requires j in s.jobs && s.jobs[j].stage.Woken?
  {
    var job := s.jobs[j].(abandoned := true, reason := Some(s.jobs[j].stage.reason));
    Updated(s, j, job.(stage := Returned(Verdict(job))))
  }

  function DoPublish(s: State, w: nat): (r: State)
    requires w in s.workers && s.workers[w].Publishing? && s.workers[w].job in s.jobs
  {
    var j := s.workers[w].job;
    var job := s.jobs[j];
    var after := if !job.abandoned && !job.shutdown then job.(result := Some(s.workers[w].answer)) else job;
    Updated(s, j, after).(workers := s.workers[w := Signalling(j)])
  }

  ghost function Apply(s: State, a: Action): (r: State)
    requires Enabled(s, a)
  {
    match a
    case Create => s.(next := s.next + 1, jobs := s.jobs[s.next + 1 := NEW])
    case Cancel(j) => Updated(s, j, s.jobs[j].(cancelled := true)).(cancelling := s.cancelling + {j})
    case CancelSignal(j) => Updated(s, j, s.jobs[j].(signalled := true)).(cancelling := s.cancelling - {j})
    case Enqueue(j) => DoEnqueue(s, j)
    case Wake(j, reason) => Updated(s, j, s.jobs[j].(stage := Woken(reason)))
    case Return(j) => DoReturn(s, j)
    case Take(w) =>
      s.(queue := s.queue[1..], active := s.active + {s.queue[0]}, workers := s.workers[w := Took(s.queue[0])])
    case Look(w) =>
      var j := s.workers[w].job;
      var skip := s.jobs[j].abandoned || s.jobs[j].cancelled || s.jobs[j].shutdown;
      s.(workers := s.workers[w := if skip then Signalling(j) else Asking(j)])
    case Answered(w, answer) =>
      s.(workers := s.workers[w := Publishing(s.workers[w].job, Cleaned(answer, s.maxResults))])
    case Publish(w) => DoPublish(s, w)
    case Notify(w) =>
      var j := s.workers[w].job;
      Updated(s, j, s.jobs[j].(signalled := true)).(workers := s.workers[w := Leaving(j)])
    case Leave(w) => s.(active := s.active - {s.workers[w].job}, workers := s.workers - {w})
    case Close(order) => s.(closing := true, closer := Closing(order, None))
    case Mark =>
      var j := s.closer.todo[0];
      Updated(s, j, s.jobs[j].(shutdown := true)).(closer := Closing(s.closer.todo[1..], Some(j)))
    case CloseSignal =>
      var j := s.closer.marked.value;
      Updated(s, j, s.jobs[j].(signalled := true)).(closer := Closing(s.closer.todo, None))
    case Closed => s.(queue := [], closer := Away)
  }

  ghost predicate IsRun(states: seq<State>, run: seq<Action>, capacity: nat, maxResults: nat)
  {
    && |states| == |run| + 1
    && states[0] == Start(capacity, maxResults)
    && forall i :: 0 <= i < |run| ==> Enabled(states[i], run[i]) && states[i + 1] == Apply(states[i], run[i])
  }
}
