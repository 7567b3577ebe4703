/** The bounded thread pool: one dispatcher, at most `maxThreads` workers, bounded channels between them. */
module ThreadPool {
  import opened Results
  import CoDel
  import opened Traces

  type RequestId = nat

  /** What a worker thread is doing between two awaits. */
  datatype Phase = Waiting | Executing(request: RequestId) | Reporting

  /** A worker and the content of its work channel, whose capacity is one. */
  datatype Worker = Worker(inbox: seq<RequestId>, phase: Phase)

  /** Where the dispatcher stands in its loop. */
  datatype Dispatcher =
    | Draining
    | Reserving
    | AwaitingDone
    | AwaitingWork(reserved: nat)
    | Dispatching(chosen: nat, request: RequestId)
    | ShutDown

  datatype Answer = Completed | Expired

  datatype Reply = Reply(request: RequestId, answer: Answer)

  /**
   `available` is the stack of idle workers and `done` the content of the completion channel, whose
   capacity is `maxThreads`. `accepted` counts accepted requests, `executed` lists the jobs started
   and `replies` what went out on the one-shot channels.
   */
  datatype Pool = Pool(
    maxThreads: nat,
    workers: seq<Worker>,
    available: seq<nat>,
    done: seq<nat>,
    dispatcher: Dispatcher,
    queue: CoDel.Queue<RequestId>,
    accepted: nat,
    executed: seq<RequestId>,
    replies: seq<Reply>)

  datatype Step =
    | Submit(push: CoDel.PushClock)
    | DrainOne
    | DrainEnd
    | Reserve
    | ReceiveDone
    | NextRequest(pop: CoDel.PopClock)
    | SendWork
    | TakeWork(w: nat)
    | FinishJob(w: nat)
    | ReportDone(w: nat)

  predicate Enabled(s: Pool, step: Step) {
    match step
    case Submit(_) => true
    case DrainOne => s.dispatcher.Draining? && s.done != []
    case DrainEnd => s.dispatcher.Draining? && s.done == []
    case Reserve => s.dispatcher.Reserving?
    case ReceiveDone => s.dispatcher.AwaitingDone? && s.done != []
    case NextRequest(_) => s.dispatcher.AwaitingWork? && s.queue.buffer != []
    case SendWork => s.dispatcher.Dispatching? && s.dispatcher.chosen < |s.workers|
    case TakeWork(w) => w < |s.workers| && s.workers[w].phase.Waiting? && s.workers[w].inbox != []
    case FinishJob(w) => w < |s.workers| && s.workers[w].phase.Executing?
    case ReportDone(w) => w < |s.workers| && s.workers[w].phase.Reporting?
  }

  function Apply(s: Pool, step: Step): Pool
    requires Enabled(s, step)
  {
    match step
    case Submit(c) =>
      (match CoDel.AfterPush(s.queue, s.accepted, c)
       case Failure(_) => s
       case Success(q) => s.(queue := q, accepted := s.accepted + 1))
    case DrainOne =>
      s.(available := s.available + [s.done[0]], done := s.done[1..])
    case DrainEnd =>
      s.(dispatcher := Reserving)
    case Reserve =>
      if s.available != [] then
        var n := |s.available| - 1;
        s.(available := s.available[..n], dispatcher := AwaitingWork(s.available[n]))
      else if |s.workers| < s.maxThreads then
        s.(workers := s.workers + [Worker([], Waiting)], dispatcher := AwaitingWork(|s.workers|))
      else
        s.(dispatcher := AwaitingDone)
    case ReceiveDone =>
      s.(done := s.done[1..], dispatcher := AwaitingWork(s.done[0]))
    case NextRequest(c) =>
      var request := CoDel.Served(s.queue, c).item;
      var s' := s.(queue := CoDel.AfterPop(s.queue, c));
      if CoDel.PopResult(s.queue, c).value.expired then
        s'.(replies := s.replies + [Reply(request, Expired)])
      else
        s'.(dispatcher := Dispatching(s.dispatcher.reserved, request))
    case SendWork =>
      var w := s.dispatcher.chosen;
      if s.workers[w].inbox != [] then s.(dispatcher := ShutDown)
      else s.(workers := s.workers[w := s.workers[w].(inbox := [s.dispatcher.request])], dispatcher := Draining)
    case TakeWork(w) =>
      var request := s.workers[w].inbox[0];
      s.(workers := s.workers[w := Worker(s.workers[w].inbox[1..], Executing(request))],
         executed := s.executed + [request])
    case FinishJob(w) =>
      s.(workers := s.workers[w := s.workers[w].(phase := Reporting)],
         replies := s.replies + [Reply(s.workers[w].phase.request, Completed)])
    case ReportDone(w) =>
      s.(workers := s.workers[w := s.workers[w].(phase := Waiting)],
         done := if |s.done| < s.maxThreads then s.done + [w] else s.done)
  }

  function Start(maxThreads: nat, queue: CoDel.Queue<RequestId>): Pool
    requires queue.buffer == []
  {
    Pool(maxThreads, [], [], [], Draining, queue, 0, [], [])
  }

  // ----- Every worker is in exactly one place -----

  predicate Busy(worker: Worker) {
    worker.inbox != [] || !worker.phase.Waiting?
  }

  predicate Holds(d: Dispatcher, w: nat) {
    (d.AwaitingWork? && d.reserved == w) || (d.Dispatching? && d.chosen == w)
  }

  function Places(s: Pool, w: nat): nat {
    multiset(s.available)[w] + multiset(s.done)[w]
    + (if Holds(s.dispatcher, w) then 1 else 0)
    + (if w < |s.workers| && Busy(s.workers[w]) then 1 else 0)
  }

  ghost predicate OnePlaceEach(s: Pool) {
    forall w: nat :: Places(s, w) == if w < |s.workers| then 1 else 0
  }

  predicate SoundWorker(worker: Worker) {
    |worker.inbox| <= 1 && (worker.inbox != [] ==> worker.phase.Waiting?)
  }

  ghost predicate WorkersInv(s: Pool) {
    && 0 < s.maxThreads
    && |s.workers| <= s.maxThreads
    && !s.dispatcher.ShutDown?
    && (s.dispatcher.AwaitingDone? ==> s.available == [] && |s.workers| == s.maxThreads)
    && (forall w :: 0 <= w < |s.workers| ==> SoundWorker(s.workers[w]))
    && OnePlaceEach(s)
  }

  /** A channel that names each worker at most once, and not `absent`, has room for one more. */
  lemma {:induction false} DistinctLeavesRoom(names: seq<nat>, workers: set<nat>)
    requires forall w: nat :: multiset(names)[w] <= if w in workers then 1 else 0
    ensures |names| <= |workers|
    decreases |names|
  {
    if names != [] {
      var n := |names| - 1;
      var last := names[n];
      assert names == names[..n] + [last];
      assert multiset(names)[last] == multiset(names[..n])[last] + 1;
      assert multiset(names)[last] <= if last in workers then 1 else 0;
      forall w: nat
        ensures multiset(names[..n])[w] <= if w in workers - {last} then 1 else 0
      {
        assert multiset(names)[w] <= if w in workers then 1 else 0;
      }
      DistinctLeavesRoom(names[..n], workers - {last});
    }
  }

  function Below(n: nat): (r: set<nat>)
    ensures |r| == n && forall w: nat :: w in r <==> w < n
  {
    if n == 0 then {} else Below(n - 1) + {n - 1}
  }

  /** The completion channel is never full when a worker reports. */
  lemma DoneHasRoom(s: Pool, w: nat)
    requires WorkersInv(s) && w < |s.workers| && s.workers[w].phase.Reporting?
    ensures |s.done| < s.maxThreads
  {
    forall x: nat
      ensures multiset(s.done)[x] <= if x in Below(|s.workers|) - {w} then 1 else 0
    {
      assert Places(s, x) == if x < |s.workers| then 1 else 0;
    }
    DistinctLeavesRoom(s.done, Below(|s.workers|) - {w});
  }

  /** The work channel of the chosen worker is empty when the dispatcher sends. */
  lemma InboxHasRoom(s: Pool)
    requires WorkersInv(s) && s.dispatcher.Dispatching?
    ensures s.dispatcher.chosen < |s.workers| && s.workers[s.dispatcher.chosen] == Worker([], Waiting)
  {
    assert Places(s, s.dispatcher.chosen) == 1;
  }

  /** Waiting for a completion only happens while some worker is busy or has already reported. */
  lemma BlockedOnlyWhileWorkersRun(s: Pool)
    requires WorkersInv(s) && s.dispatcher.AwaitingDone?
    ensures s.done != [] || exists w :: 0 <= w < |s.workers| && Busy(s.workers[w])
  {
    assert Places(s, 0) == 1;
    assert s.done == [] ==> multiset(s.done)[0] == 0;
    assert Busy(s.workers[0]) || s.done != [];
  }

  lemma QueueStepKeepsWorkers(s: Pool, step: Step)
    requires WorkersInv(s) && Enabled(s, step)
    requires step.Submit? || step.DrainEnd? || step.NextRequest?
    ensures WorkersInv(Apply(s, step))
  {
    var s' := Apply(s, step);
    forall w: nat
      ensures Places(s', w) == if w < |s'.workers| then 1 else 0
    {
      assert Places(s, w) == if w < |s.workers| then 1 else 0;
    }
  }

  lemma DoneStepKeepsWorkers(s: Pool, step: Step)
    requires WorkersInv(s) && Enabled(s, step)
    requires step.DrainOne? || step.ReceiveDone?
    ensures WorkersInv(Apply(s, step))
  {
    var s' := Apply(s, step);
    assert s.done == [s.done[0]] + s'.done;
    forall w: nat
      ensures Places(s', w) == if w < |s'.workers| then 1 else 0
    {
      assert Places(s, w) == if w < |s.workers| then 1 else 0;
    }
  }

  lemma ReserveKeepsWorkers(s: Pool)
    requires WorkersInv(s) && s.dispatcher.Reserving?
    ensures WorkersInv(Apply(s, Reserve))
  {
    var s' := Apply(s, Reserve);
    if s.available != [] {
      assert s.available == s'.available + [s'.dispatcher.reserved];
    }
    forall w: nat
      ensures Places(s', w) == if w < |s'.workers| then 1 else 0
    {
      assert Places(s, w) == if w < |s.workers| then 1 else 0;
    }
  }

  lemma SendKeepsWorkers(s: Pool)
    requires WorkersInv(s) && Enabled(s, SendWork)
    ensures WorkersInv(Apply(s, SendWork))
  {
    InboxHasRoom(s);
    var s' := Apply(s, SendWork);
    forall w: nat
      ensures Places(s', w) == if w < |s'.workers| then 1 else 0
    {
      assert Places(s, w) == if w < |s.workers| then 1 else 0;
    }
  }

  lemma ReportKeepsWorkers(s: Pool, reporter: nat)
    requires WorkersInv(s) && Enabled(s, ReportDone(reporter))
    ensures WorkersInv(Apply(s, ReportDone(reporter)))
  {
    DoneHasRoom(s, reporter);
    assert SoundWorker(s.workers[reporter]);
    var s' := Apply(s, ReportDone(reporter));
    forall w: nat
      ensures Places(s', w) == if w < |s'.workers| then 1 else 0
    {
      assert Places(s, w) == if w < |s.workers| then 1 else 0;
    }
  }

  lemma JobStepKeepsWorkers(s: Pool, step: Step)
    requires WorkersInv(s) && Enabled(s, step)
    requires step.TakeWork? || step.FinishJob?
    ensures WorkersInv(Apply(s, step))
  {
    var s' := Apply(s, step);
    assert SoundWorker(s.workers[step.w]);
    forall w: nat
      ensures Places(s', w) == if w < |s'.workers| then 1 else 0
    {
      assert Places(s, w) == if w < |s.workers| then 1 else 0;
    }
  }

  lemma StepKeepsWorkers(s: Pool, step: Step)
    requires WorkersInv(s) && Enabled(s, step)
    ensures WorkersInv(Apply(s, step))
  {
    match step
    case Submit(_) => QueueStepKeepsWorkers(s, step);
    case DrainEnd => QueueStepKeepsWorkers(s, step);
    case NextRequest(_) => QueueStepKeepsWorkers(s, step);
    case DrainOne => DoneStepKeepsWorkers(s, step);
    case ReceiveDone => DoneStepKeepsWorkers(s, step);
    case Reserve => ReserveKeepsWorkers(s);
    case SendWork => SendKeepsWorkers(s);
    case ReportDone(w) => ReportKeepsWorkers(s, w);
    case _ => JobStepKeepsWorkers(s, step);
  }

  // ----- Every request is in exactly one place -----

  function One(b: bool): nat {
    if b then 1 else 0
  }

  function Queued(entries: seq<CoDel.Entry<RequestId>>, r: RequestId): nat {
    if entries == [] then 0 else One(entries[0].item == r) + Queued(entries[1..], r)
  }

  function Running(workers: seq<Worker>, r: RequestId): nat {
    if workers == [] then 0 else One(workers[0].phase == Executing(r)) + Running(workers[1..], r)
  }

  function Boxed(workers: seq<Worker>, r: RequestId): nat {
    if workers == [] then 0 else One(workers[0].inbox == [r]) + Boxed(workers[1..], r)
  }

  function Started(executed: seq<RequestId>, r: RequestId): nat {
    if executed == [] then 0 else One(executed[0] == r) + Started(executed[1..], r)
  }

  function Answered(replies: seq<Reply>, r: RequestId, answer: Answer): nat {
    if replies == [] then 0 else One(replies[0] == Reply(r, answer)) + Answered(replies[1..], r, answer)
  }

  /** Queued, held by the dispatcher, with a worker, or answered. */
  function Whereabouts(s: Pool, r: RequestId): nat {
    Queued(s.queue.buffer, r) + One(s.dispatcher.Dispatching? && s.dispatcher.request == r)
    + Boxed(s.workers, r) + Running(s.workers, r)
    + Answered(s.replies, r, Completed) + Answered(s.replies, r, Expired)
  }

  ghost predicate RequestsInv(s: Pool) {
    forall r: nat ::
      && Whereabouts(s, r) == One(r < s.accepted)
      && Started(s.executed, r) == Running(s.workers, r) + Answered(s.replies, r, Completed)
  }

  ghost predicate Inv(s: Pool) {
    WorkersInv(s) && RequestsInv(s)
  }

  lemma {:induction false} QueuedConcat(a: seq<CoDel.Entry<RequestId>>, b: seq<CoDel.Entry<RequestId>>, r: RequestId)
    ensures Queued(a + b, r) == Queued(a, r) + Queued(b, r)
  {
    if a == [] {
      assert a + b == b;
    } else {
      assert (a + b)[1..] == a[1..] + b;
      QueuedConcat(a[1..], b, r);
    }
  }

  lemma {:induction false} AnotherReply(replies: seq<Reply>, reply: Reply, r: RequestId, answer: Answer)
    ensures Answered(replies + [reply], r, answer) == Answered(replies, r, answer) + One(reply == Reply(r, answer))
  {
    if replies != [] {
      assert (replies + [reply])[1..] == replies[1..] + [reply];
      AnotherReply(replies[1..], reply, r, answer);
    }
  }

  lemma {:induction false} AnotherStart(executed: seq<RequestId>, x: RequestId, r: RequestId)
    ensures Started(executed + [x], r) == Started(executed, r) + One(x == r)
  {
    if executed != [] {
      assert (executed + [x])[1..] == executed[1..] + [x];
      AnotherStart(executed[1..], x, r);
    }
  }

  lemma {:induction false} ReplaceWorker(workers: seq<Worker>, w: nat, worker: Worker, r: RequestId)
    requires w < |workers|
    ensures Boxed(workers[w := worker], r) + One(workers[w].inbox == [r]) == Boxed(workers, r) + One(worker.inbox == [r])
    ensures Running(workers[w := worker], r) + One(workers[w].phase == Executing(r))
            == Running(workers, r) + One(worker.phase == Executing(r))
  {
    if w == 0 {
      assert workers[w := worker][1..] == workers[1..];
    } else {
      assert workers[w := worker][1..] == workers[1..][w - 1 := worker];
      ReplaceWorker(workers[1..], w - 1, worker, r);
    }
  }

  lemma {:induction false} AnotherWorker(workers: seq<Worker>, r: RequestId)
    ensures Boxed(workers + [Worker([], Waiting)], r) == Boxed(workers, r)
    ensures Running(workers + [Worker([], Waiting)], r) == Running(workers, r)
  {
    if workers != [] {
      assert (workers + [Worker([], Waiting)])[1..] == workers[1..] + [Worker([], Waiting)];
      AnotherWorker(workers[1..], r);
    }
  }

  /** A request moved from place to place or was newly accepted, and starts match what runs or completed. */
  ghost predicate Moved(s: Pool, s': Pool, r: RequestId) {
    && Whereabouts(s', r) == Whereabouts(s, r) + One(s.accepted <= r < s'.accepted)
    && s.accepted <= s'.accepted
    && Started(s'.executed, r) + Running(s.workers, r) + Answered(s.replies, r, Completed)
       == Started(s.executed, r) + Running(s'.workers, r) + Answered(s'.replies, r, Completed)
  }

  lemma DispatcherStepMovesRequest(s: Pool, step: Step, r: RequestId)
    requires Enabled(s, step)
    requires step.Submit? || step.DrainOne? || step.DrainEnd? || step.Reserve? || step.ReceiveDone? || step.NextRequest?
    ensures Moved(s, Apply(s, step), r)
  {
    var s' := Apply(s, step);
    match step
    case Submit(c) =>
      if |s.queue.buffer| < s.queue.capacity {
        var added := s'.queue.buffer[|s.queue.buffer|];
        assert s'.queue.buffer == s.queue.buffer + [added];
        QueuedConcat(s.queue.buffer, [added], r);
      }
    case NextRequest(c) =>
      NextRequestMovesRequest(s, c, r);
    case _ =>
      AnotherWorker(s.workers, r);
  }

  lemma WorkerStepMovesRequest(s: Pool, step: Step, r: RequestId)
    requires WorkersInv(s) && Enabled(s, step)
    requires step.SendWork? || step.TakeWork? || step.ReportDone?
    ensures Moved(s, Apply(s, step), r)
  {
    var s' := Apply(s, step);
    match step
    case SendWork =>
      InboxHasRoom(s);
      ReplaceWorker(s.workers, s.dispatcher.chosen, s'.workers[s.dispatcher.chosen], r);
    case TakeWork(w) =>
      assert SoundWorker(s.workers[w]);
      AnotherStart(s.executed, s.workers[w].inbox[0], r);
      ReplaceWorker(s.workers, w, s'.workers[w], r);
    case ReportDone(w) =>
      ReplaceWorker(s.workers, w, s'.workers[w], r);
  }

  lemma FinishMovesRequest(s: Pool, w: nat, r: RequestId)
    requires Enabled(s, FinishJob(w))
    ensures Moved(s, Apply(s, FinishJob(w)), r)
  {
    var reply := Reply(s.workers[w].phase.request, Completed);
    AnotherReply(s.replies, reply, r, Completed);
    AnotherReply(s.replies, reply, r, Expired);
    ReplaceWorker(s.workers, w, s.workers[w].(phase := Reporting), r);
  }

  /** One step moves a request from place to place, or accepts a new one. */
  lemma StepMovesRequest(s: Pool, step: Step, r: RequestId)
    requires WorkersInv(s) && Enabled(s, step)
    ensures Moved(s, Apply(s, step), r)
  {
    match step
    case SendWork => WorkerStepMovesRequest(s, step, r);
    case TakeWork(_) => WorkerStepMovesRequest(s, step, r);
    case ReportDone(_) => WorkerStepMovesRequest(s, step, r);
    case FinishJob(w) => FinishMovesRequest(s, w, r);
    case _ => DispatcherStepMovesRequest(s, step, r);
  }

  /** A pop takes one entry of the request it serves out of the queue. */
  lemma PopRemovesServed(queue: CoDel.Queue<RequestId>, c: CoDel.PopClock, r: RequestId)
    requires queue.buffer != []
    ensures Queued(CoDel.AfterPop(queue, c).buffer, r) + One(CoDel.Served(queue, c).item == r) == Queued(queue.buffer, r)
  {
    var buffer, left := queue.buffer, CoDel.AfterPop(queue, c).buffer;
    if CoDel.TakesFront(queue, c) {
      assert buffer == [buffer[0]] + left;
      QueuedConcat([buffer[0]], left, r);
    } else {
      assert buffer == left + [buffer[|buffer| - 1]];
      QueuedConcat(left, [buffer[|buffer| - 1]], r);
    }
  }

  lemma NextRequestMovesRequest(s: Pool, c: CoDel.PopClock, r: RequestId)
    requires Enabled(s, NextRequest(c))
    ensures var s' := Apply(s, NextRequest(c));
            && Whereabouts(s', r) == Whereabouts(s, r)
            && Answered(s'.replies, r, Completed) == Answered(s.replies, r, Completed)
  {
    var served := CoDel.Served(s.queue, c);
    PopRemovesServed(s.queue, c, r);
    AnotherReply(s.replies, Reply(served.item, Expired), r, Completed);
    AnotherReply(s.replies, Reply(served.item, Expired), r, Expired);
  }

  lemma StepKeepsInv(s: Pool, step: Step)
    requires Inv(s) && Enabled(s, step)
    ensures Inv(Apply(s, step))
  {
    StepKeepsWorkers(s, step);
    forall r: nat
      ensures Whereabouts(Apply(s, step), r) == One(r < Apply(s, step).accepted)
      ensures Started(Apply(s, step).executed, r)
              == Running(Apply(s, step).workers, r) + Answered(Apply(s, step).replies, r, Completed)
    {
      assert Whereabouts(s, r) == One(r < s.accepted);
      StepMovesRequest(s, step, r);
    }
  }

  // ----- Whole runs -----

  ghost predicate Feasible(s: Pool, steps: seq<Step>)
    decreases |steps|
  {
    steps == [] || (Enabled(s, steps[0]) && Feasible(Apply(s, steps[0]), steps[1..]))
  }

  function After(s: Pool, steps: seq<Step>): Pool
    requires Feasible(s, steps)
    decreases |steps|
  {
    if steps == [] then s else After(Apply(s, steps[0]), steps[1..])
  }

  lemma StartInv(maxThreads: nat, queue: CoDel.Queue<RequestId>)
    requires maxThreads > 0 && queue.buffer == []
    ensures Inv(Start(maxThreads, queue))
  {
  }

  /** Every interleaving of submissions, dispatcher steps and worker steps keeps the invariant. */
  lemma {:induction false} RunsKeepInv(s: Pool, steps: seq<Step>)
    requires Inv(s) && Feasible(s, steps)
    ensures Inv(After(s, steps))
    decreases |steps|
  {
    if steps != [] {
      StepKeepsInv(s, steps[0]);
      RunsKeepInv(Apply(s, steps[0]), steps[1..]);
    }
  }

  /** No worker is ever lost, no channel overflows and the dispatcher never gives up. */
  lemma ChannelsNeverOverflow(maxThreads: nat, queue: CoDel.Queue<RequestId>, steps: seq<Step>, w: nat)
    requires maxThreads > 0 && queue.buffer == []
    requires Feasible(Start(maxThreads, queue), steps)
    ensures var s := After(Start(maxThreads, queue), steps);
            && !s.dispatcher.ShutDown?
            && |s.workers| <= maxThreads == s.maxThreads
            && Places(s, w) == One(w < |s.workers|)
            && (s.dispatcher.Dispatching? ==> Enabled(s, SendWork) && s.workers[s.dispatcher.chosen].inbox == [])
            && (Enabled(s, ReportDone(w)) ==> |s.done| < maxThreads)
            && (s.dispatcher.AwaitingDone? ==> s.done != [] || exists x :: 0 <= x < |s.workers| && Busy(s.workers[x]))
  {
    var s := After(Start(maxThreads, queue), steps);
    StartInv(maxThreads, queue);
    RunsKeepInv(Start(maxThreads, queue), steps);
    MaxThreadsFixed(Start(maxThreads, queue), steps);
    if s.dispatcher.Dispatching? {
      InboxHasRoom(s);
    }
    if Enabled(s, ReportDone(w)) {
      DoneHasRoom(s, w);
    }
    if s.dispatcher.AwaitingDone? {
      BlockedOnlyWhileWorkersRun(s);
    }
  }

  lemma {:induction false} MaxThreadsFixed(s: Pool, steps: seq<Step>)
    requires Feasible(s, steps)
    ensures After(s, steps).maxThreads == s.maxThreads
    decreases |steps|
  {
    if steps != [] {
      MaxThreadsFixed(Apply(s, steps[0]), steps[1..]);
    }
  }

  /** At most one answer per request: "completed" for jobs started once, "expired" for jobs never started. */
  lemma OneAnswerEach(maxThreads: nat, queue: CoDel.Queue<RequestId>, steps: seq<Step>, r: RequestId)
    requires maxThreads > 0 && queue.buffer == []
    requires Feasible(Start(maxThreads, queue), steps)
    ensures var s := After(Start(maxThreads, queue), steps);
            && Answered(s.replies, r, Completed) + Answered(s.replies, r, Expired) <= One(r < s.accepted)
            && Started(s.executed, r) <= 1
            && (Answered(s.replies, r, Completed) == 1 ==> Started(s.executed, r) == 1)
            && (Answered(s.replies, r, Expired) == 1 ==> Started(s.executed, r) == 0)
            && Whereabouts(s, r) == One(r < s.accepted)
  {
    var s := After(Start(maxThreads, queue), steps);
    StartInv(maxThreads, queue);
    RunsKeepInv(Start(maxThreads, queue), steps);
    assert Whereabouts(s, r) == One(r < s.accepted);
  }

  // ----- Which requests expire -----

  /** The deadlines the queue gave to the requests accepted in a run, by request. */
  function Deadlines(s: Pool, steps: seq<Step>): seq<int>
    requires Feasible(s, steps)
    decreases |steps|
  {
    if steps == [] then []
    else
      var s' := Apply(s, steps[0]);
      (if s'.accepted > s.accepted then [s'.queue.buffer[|s'.queue.buffer| - 1].deadline] else [])
      + Deadlines(s', steps[1..])
  }

  /** The clock reading with which the dispatcher took request `r` off the queue, if it did. */
  function TakenAt(s: Pool, steps: seq<Step>, r: RequestId): Option<int>
    requires Feasible(s, steps)
    decreases |steps|
  {
    if steps == [] then None
    else if steps[0].NextRequest? && CoDel.Served(s.queue, steps[0].pop).item == r then Some(steps[0].pop.now)
    else TakenAt(Apply(s, steps[0]), steps[1..], r)
  }

  /** Queued entries carry the deadlines their requests were given. */
  ghost predicate DeadlinesKept(s: Pool, deadlines: seq<int>) {
    && |deadlines| == s.accepted
    && forall i :: 0 <= i < |s.queue.buffer| ==>
         s.queue.buffer[i].item < |deadlines| && deadlines[s.queue.buffer[i].item] == s.queue.buffer[i].deadline
  }

  lemma StepKeepsDeadlines(s: Pool, step: Step, deadlines: seq<int>)
    requires Enabled(s, step) && DeadlinesKept(s, deadlines)
    ensures DeadlinesKept(Apply(s, step), deadlines + Deadlines(s, [step]))
  {
    assert [step][1..] == [];
  }

  /** Taking a request answers it with the error exactly when its deadline has passed, and leaves it queued no more. */
  lemma TakingDecides(s: Pool, c: CoDel.PopClock)
    requires Inv(s) && Enabled(s, NextRequest(c))
    ensures var s', served := Apply(s, NextRequest(c)), CoDel.Served(s.queue, c);
            && served.item < s.accepted
            && Queued(s'.queue.buffer, served.item) == 0
            && Answered(s.replies, served.item, Expired) == 0
            && Answered(s'.replies, served.item, Expired) == One(served.deadline < c.now)
  {
    var r := CoDel.Served(s.queue, c).item;
    AnotherReply(s.replies, Reply(r, Expired), r, Expired);
    PopRemovesServed(s.queue, c, r);
    assert Whereabouts(s, r) == One(r < s.accepted);
    StepKeepsInv(s, NextRequest(c));
    assert Whereabouts(Apply(s, NextRequest(c)), r) == 1;
  }

  /** A step that does not take the request leaves its error answers as they were. */
  lemma OthersDoNotExpireIt(s: Pool, step: Step, r: RequestId)
    requires Enabled(s, step) && !(step.NextRequest? && CoDel.Served(s.queue, step.pop).item == r)
    ensures Answered(Apply(s, step).replies, r, Expired) == Answered(s.replies, r, Expired)
  {
    if step.NextRequest? {
      AnotherReply(s.replies, Reply(CoDel.Served(s.queue, step.pop).item, Expired), r, Expired);
    } else if step.FinishJob? {
      AnotherReply(s.replies, Reply(s.workers[step.w].phase.request, Completed), r, Expired);
    }
  }

  /** What one step does to the number of queue entries of a request. */
  lemma QueueCount(s: Pool, step: Step, r: RequestId)
    requires Enabled(s, step)
    ensures var s' := Apply(s, step);
            Queued(s'.queue.buffer, r) + One(step.NextRequest? && CoDel.Served(s.queue, step.pop).item == r)
            == Queued(s.queue.buffer, r) + One(s.accepted <= r < s'.accepted)
  {
    var s' := Apply(s, step);
    if step.Submit? && s'.accepted > s.accepted {
      var added := s'.queue.buffer[|s.queue.buffer|];
      assert s'.queue.buffer == s.queue.buffer + [added];
      QueuedConcat(s.queue.buffer, [added], r);
    } else if step.NextRequest? {
      PopRemovesServed(s.queue, step.pop, r);
    }
  }

  /** A request that has left the queue gets no further error answer. */
  lemma {:induction false} LeftTheQueue(s: Pool, steps: seq<Step>, r: RequestId)
    requires Inv(s) && Feasible(s, steps) && r < s.accepted && Queued(s.queue.buffer, r) == 0
    ensures Answered(After(s, steps).replies, r, Expired) == Answered(s.replies, r, Expired)
    ensures Queued(After(s, steps).queue.buffer, r) == 0
    decreases |steps|
  {
    if steps != [] {
      QueueCount(s, steps[0], r);
      OthersDoNotExpireIt(s, steps[0], r);
      StepKeepsInv(s, steps[0]);
      LeftTheQueue(Apply(s, steps[0]), steps[1..], r);
    }
  }

  /** The first step of a run, told apart from the rest. */
  lemma DeadlinesFirst(s: Pool, steps: seq<Step>)
    requires Feasible(s, steps) && steps != []
    ensures Deadlines(s, steps) == Deadlines(s, [steps[0]]) + Deadlines(Apply(s, steps[0]), steps[1..])
  {
    assert [steps[0]][1..] == [];
  }

  /** When the first step takes a request, its deadline decides the answer for good. */
  lemma TakenFirst(s: Pool, steps: seq<Step>, deadlines: seq<int>)
    requires Inv(s) && Feasible(s, steps) && DeadlinesKept(s, deadlines)
    requires steps != [] && steps[0].NextRequest?
    ensures var r := CoDel.Served(s.queue, steps[0].pop).item;
            && r < |deadlines| && Queued(After(s, steps).queue.buffer, r) == 0
            && Answered(After(s, steps).replies, r, Expired) == One(deadlines[r] < steps[0].pop.now)
  {
    TakingDecides(s, steps[0].pop);
    StepKeepsInv(s, steps[0]);
    LeftTheQueue(Apply(s, steps[0]), steps[1..], CoDel.Served(s.queue, steps[0].pop).item);
  }

  /** With these deadlines for all requests, the error answers of `r` are those its taking explains. */
  ghost predicate ExpiryExplained(s: Pool, steps: seq<Step>, deadlines: seq<int>, r: RequestId)
    requires Feasible(s, steps)
  {
    match TakenAt(s, steps, r)
    case None => Answered(After(s, steps).replies, r, Expired) == Answered(s.replies, r, Expired)
    case Some(now) =>
      && r < |deadlines|
      && Queued(After(s, steps).queue.buffer, r) == 0
      && Answered(After(s, steps).replies, r, Expired) == One(deadlines[r] < now)
  }

  lemma FirstStepExplained(s: Pool, steps: seq<Step>, deadlines: seq<int>, all: seq<int>, r: RequestId)
    requires Inv(s) && Feasible(s, steps) && steps != [] && DeadlinesKept(s, deadlines) && deadlines <= all
    requires ExpiryExplained(Apply(s, steps[0]), steps[1..], all, r)
    ensures ExpiryExplained(s, steps, all, r)
  {
    if steps[0].NextRequest? && CoDel.Served(s.queue, steps[0].pop).item == r {
      TakenFirst(s, steps, deadlines);
    } else {
      OthersDoNotExpireIt(s, steps[0], r);
    }
  }

  lemma {:induction false} ExpiryFollowsDeadline(s: Pool, steps: seq<Step>, deadlines: seq<int>, r: RequestId)
    requires Inv(s) && Feasible(s, steps) && DeadlinesKept(s, deadlines)
    ensures |deadlines + Deadlines(s, steps)| == After(s, steps).accepted
    ensures ExpiryExplained(s, steps, deadlines + Deadlines(s, steps), r)
    decreases |steps|
  {
    if steps != [] {
      var s' := Apply(s, steps[0]);
      var deadlines' := deadlines + Deadlines(s, [steps[0]]);
      StepKeepsInv(s, steps[0]);
      StepKeepsDeadlines(s, steps[0], deadlines);
      DeadlinesFirst(s, steps);
      assert deadlines' + Deadlines(s', steps[1..]) == deadlines + Deadlines(s, steps);
      ExpiryFollowsDeadline(s', steps[1..], deadlines', r);
      FirstStepExplained(s, steps, deadlines, deadlines + Deadlines(s, steps), r);
    }
  }

  lemma {:induction false} NotTakenStaysQueued(s: Pool, steps: seq<Step>, r: RequestId)
    requires Inv(s) && Feasible(s, steps) && TakenAt(s, steps, r) == None
    requires r < s.accepted ==> Queued(s.queue.buffer, r) == 1
    ensures r < After(s, steps).accepted ==> Queued(After(s, steps).queue.buffer, r) == 1
    decreases |steps|
  {
    if steps != [] {
      StepKeepsInv(s, steps[0]);
      QueueCount(s, steps[0], r);
      assert Whereabouts(s, r) == One(r < s.accepted);
      NotTakenStaysQueued(Apply(s, steps[0]), steps[1..], r);
    }
  }

  /**
   Over every run of a fresh pool: a request has the error answer exactly when the dispatcher has taken it
   off the queue and the deadline given at submission had passed by then; it is still queued exactly when
   it has not been taken.
   */
  lemma ExpiredIffTakenLate(maxThreads: nat, queue: CoDel.Queue<RequestId>, steps: seq<Step>, r: RequestId)
    requires maxThreads > 0 && queue.buffer == []
    requires Feasible(Start(maxThreads, queue), steps) && r < After(Start(maxThreads, queue), steps).accepted
    ensures var s0 := Start(maxThreads, queue);
            var s, taken := After(s0, steps), TakenAt(s0, steps, r);
            && |Deadlines(s0, steps)| == s.accepted
            && (Answered(s.replies, r, Expired) == 1 <==> taken.Some? && Deadlines(s0, steps)[r] < taken.value)
            && (Queued(s.queue.buffer, r) == 1 <==> taken.None?)
  {
    var s0 := Start(maxThreads, queue);
    StartInv(maxThreads, queue);
    ExpiryFollowsDeadline(s0, steps, [], r);
    assert [] + Deadlines(s0, steps) == Deadlines(s0, steps);
    if TakenAt(s0, steps, r).None? {
      NotTakenStaysQueued(s0, steps, r);
    }
  }

  // ----- Which worker is reused, and when one is created -----

  function ReportNow(step: Step): seq<nat> {
    if step.ReportDone? then [step.w] else []
  }

  /** The workers that reported a completion in a run, in order. */
  function Reports(steps: seq<Step>): seq<nat> {
    if steps == [] then [] else ReportNow(steps[0]) + Reports(steps[1..])
  }

  /** Reported workers wait in the order of their last reports, those on the stack before those in the channel. */
  ghost predicate ByReport(s: Pool, reports: seq<nat>) {
    ByLast(s.available + s.done, reports)
  }

  lemma ReserveKeepsOrder(s: Pool, reports: seq<nat>)
    requires ByReport(s, reports) && s.dispatcher.Reserving?
    ensures ByReport(Apply(s, Reserve), reports)
  {
    if s.available != [] {
      var k := |s.available| - 1;
      var waiting := s.available + s.done;
      ByLastRemove(waiting, reports, k);
      assert waiting[..k] + waiting[k + 1..] == s.available[..k] + s.done;
    }
  }

  lemma ReceiveKeepsOrder(s: Pool, reports: seq<nat>)
    requires WorkersInv(s) && ByReport(s, reports) && Enabled(s, ReceiveDone)
    ensures ByReport(Apply(s, ReceiveDone), reports)
  {
    var waiting := s.available + s.done;
    ByLastRemove(waiting, reports, 0);
    assert waiting[..0] + waiting[1..] == s.available + s.done[1..];
  }

  lemma ReportKeepsOrder(s: Pool, reports: seq<nat>, w: nat)
    requires WorkersInv(s) && ByReport(s, reports) && Enabled(s, ReportDone(w))
    ensures ByReport(Apply(s, ReportDone(w)), reports + [w])
  {
    DoneHasRoom(s, w);
    assert Places(s, w) == 1;
    assert w !in multiset(s.available) && w !in multiset(s.done);
    ByLastAppend(s.available + s.done, reports, w);
    assert s.available + s.done + [w] == s.available + (s.done + [w]);
  }

  lemma StepKeepsOrder(s: Pool, reports: seq<nat>, step: Step)
    requires WorkersInv(s) && ByReport(s, reports) && Enabled(s, step)
    ensures ByReport(Apply(s, step), reports + ReportNow(step))
  {
    assert reports + [] == reports;
    match step
    case ReportDone(w) => ReportKeepsOrder(s, reports, w);
    case Reserve => ReserveKeepsOrder(s, reports);
    case ReceiveDone => ReceiveKeepsOrder(s, reports);
    case DrainOne =>
      assert s.available + [s.done[0]] + s.done[1..] == s.available + s.done;
    case _ =>
  }

  lemma {:induction false} RunsKeepOrder(s: Pool, reports: seq<nat>, steps: seq<Step>, all: seq<nat>)
    requires Inv(s) && ByReport(s, reports) && Feasible(s, steps) && all == reports + Reports(steps)
    ensures ByReport(After(s, steps), all)
    decreases |steps|
  {
    if steps == [] {
      assert all == reports;
    } else {
      StepKeepsInv(s, steps[0]);
      StepKeepsOrder(s, reports, steps[0]);
      assert all == reports + ReportNow(steps[0]) + Reports(steps[1..]);
      RunsKeepOrder(Apply(s, steps[0]), reports + ReportNow(steps[0]), steps[1..], all);
    }
  }

  lemma ReachableOrder(maxThreads: nat, queue: CoDel.Queue<RequestId>, steps: seq<Step>)
    requires maxThreads > 0 && queue.buffer == [] && Feasible(Start(maxThreads, queue), steps)
    ensures Inv(After(Start(maxThreads, queue), steps)) && ByReport(After(Start(maxThreads, queue), steps), Reports(steps))
  {
    StartInv(maxThreads, queue);
    RunsKeepInv(Start(maxThreads, queue), steps);
    RunsKeepOrder(Start(maxThreads, queue), [], steps, Reports(steps));
  }

  lemma StackTopReportedLast(s: Pool, reports: seq<nat>, other: nat)
    requires ByReport(s, reports) && other in s.available
    ensures LastIndex(reports, other) <= LastIndex(reports, s.available[|s.available| - 1])
  {
    var waiting, k := s.available + s.done, |s.available| - 1;
    var i :| 0 <= i < |s.available| && s.available[i] == other;
    assert waiting[i] == other && waiting[k] == s.available[k];
  }

  lemma ChannelHeadReportedFirst(s: Pool, reports: seq<nat>, other: nat)
    requires ByReport(s, reports) && other in s.done
    ensures LastIndex(reports, s.done[0]) <= LastIndex(reports, other)
  {
    var waiting, k := s.available + s.done, |s.available|;
    var i :| 0 <= i < |s.done| && s.done[i] == other;
    assert waiting[k + i] == other && waiting[k] == s.done[0];
  }

  /**
   Over every run: while idle workers are on the stack the dispatcher reserves the one that reported last
   among them.
   */
  lemma ReusesMostRecentWorker(maxThreads: nat, queue: CoDel.Queue<RequestId>, steps: seq<Step>, other: nat)
    requires maxThreads > 0 && queue.buffer == [] && Feasible(Start(maxThreads, queue), steps)
    requires var s := After(Start(maxThreads, queue), steps); s.dispatcher.Reserving? && other in s.available
    ensures var s := After(Start(maxThreads, queue), steps);
            var d := Apply(s, Reserve).dispatcher;
            && d.AwaitingWork? && d.reserved in s.available
            && LastIndex(Reports(steps), other) <= LastIndex(Reports(steps), d.reserved)
  {
    ReachableOrder(maxThreads, queue, steps);
    StackTopReportedLast(After(Start(maxThreads, queue), steps), Reports(steps), other);
  }

  /** And when it had to wait, it gets the one that reported first among those in the channel. */
  lemma WaitsForFirstReport(maxThreads: nat, queue: CoDel.Queue<RequestId>, steps: seq<Step>, other: nat)
    requires maxThreads > 0 && queue.buffer == [] && Feasible(Start(maxThreads, queue), steps)
    requires var s := After(Start(maxThreads, queue), steps); Enabled(s, ReceiveDone) && other in s.done
    ensures var s := After(Start(maxThreads, queue), steps);
            var d := Apply(s, ReceiveDone).dispatcher;
            && d.AwaitingWork? && d.reserved in s.done
            && LastIndex(Reports(steps), d.reserved) <= LastIndex(Reports(steps), other)
  {
    ReachableOrder(maxThreads, queue, steps);
    ChannelHeadReportedFirst(After(Start(maxThreads, queue), steps), Reports(steps), other);
  }

  /**
   Over every run: the dispatcher creates a worker exactly when there are fewer than allowed and every
   existing one is busy or has only just reported; at the limit it waits instead.
   */
  lemma CreatesWorkerIffNoneIdle(maxThreads: nat, queue: CoDel.Queue<RequestId>, steps: seq<Step>)
    requires maxThreads > 0 && queue.buffer == [] && Feasible(Start(maxThreads, queue), steps)
    requires After(Start(maxThreads, queue), steps).dispatcher.Reserving?
    ensures var s := After(Start(maxThreads, queue), steps);
            var s' := Apply(s, Reserve);
            var noneIdle := forall w :: 0 <= w < |s.workers| ==> Busy(s.workers[w]) || w in s.done;
            && (|s'.workers| > |s.workers| <==> noneIdle && |s.workers| < maxThreads)
            && (s'.dispatcher.AwaitingDone? <==> noneIdle && |s.workers| == maxThreads)
            && (|s'.workers| > |s.workers| ==>
                  s'.dispatcher == AwaitingWork(|s.workers|) && s'.workers == s.workers + [Worker([], Waiting)])
  {
    var s := After(Start(maxThreads, queue), steps);
    StartInv(maxThreads, queue);
    RunsKeepInv(Start(maxThreads, queue), steps);
    MaxThreadsFixed(Start(maxThreads, queue), steps);
    NoneIdleIffStackEmpty(s);
  }

  lemma NoneIdleIffStackEmpty(s: Pool)
    requires WorkersInv(s) && s.dispatcher.Reserving?
    ensures s.available == [] <==> forall w :: 0 <= w < |s.workers| ==> Busy(s.workers[w]) || w in s.done
  {
    if s.available == [] {
      forall w | 0 <= w < |s.workers|
        ensures Busy(s.workers[w]) || w in s.done
      {
        assert Places(s, w) == 1;
        assert w in multiset(s.done) <==> w in s.done;
      }
    } else {
      var w := s.available[0];
      assert w in multiset(s.available);
      assert Places(s, w) == if w < |s.workers| then 1 else 0;
      assert w !in multiset(s.done);
    }
  }

  // ----- Every accepted request is answered -----

  function Weight(worker: Worker): nat {
    (if worker.inbox != [] then 4 else 0)
    + (match worker.phase case Waiting => 0 case Executing(_) => 3 case Reporting => 2)
  }

  function TotalWeight(workers: seq<Worker>): nat {
    if workers == [] then 0 else Weight(workers[0]) + TotalWeight(workers[1..])
  }

  function Ahead(d: Dispatcher): nat {
    match d
    case Draining => 3
    case Reserving => 2
    case AwaitingDone => 1
    case AwaitingWork(_) => 0
    case Dispatching(_, _) => 8
    case ShutDown => 0
  }

  /** An upper bound on the steps the pool can still take without a new submission. */
  function Remaining(s: Pool): nat {
    9 * |s.queue.buffer| + Ahead(s.dispatcher) + TotalWeight(s.workers) + |s.done|
  }

  lemma {:induction false} ReplaceWeight(workers: seq<Worker>, w: nat, worker: Worker)
    requires w < |workers|
    ensures TotalWeight(workers[w := worker]) + Weight(workers[w]) == TotalWeight(workers) + Weight(worker)
  {
    if w == 0 {
      assert workers[w := worker][1..] == workers[1..];
    } else {
      assert workers[w := worker][1..] == workers[1..][w - 1 := worker];
      ReplaceWeight(workers[1..], w - 1, worker);
    }
  }

  lemma {:induction false} IdleWeighsNothing(workers: seq<Worker>)
    ensures TotalWeight(workers + [Worker([], Waiting)]) == TotalWeight(workers)
  {
    if workers != [] {
      assert (workers + [Worker([], Waiting)])[1..] == workers[1..] + [Worker([], Waiting)];
      IdleWeighsNothing(workers[1..]);
    }
  }

  lemma StepMakesProgress(s: Pool, step: Step)
    requires WorkersInv(s) && Enabled(s, step) && !step.Submit?
    ensures Remaining(Apply(s, step)) < Remaining(s)
  {
    var s' := Apply(s, step);
    match step
    case Reserve =>
      IdleWeighsNothing(s.workers);
    case SendWork =>
      InboxHasRoom(s);
      ReplaceWeight(s.workers, s.dispatcher.chosen, s'.workers[s.dispatcher.chosen]);
    case TakeWork(w) =>
      assert SoundWorker(s.workers[w]);
      ReplaceWeight(s.workers, w, s'.workers[w]);
    case FinishJob(w) =>
      ReplaceWeight(s.workers, w, s'.workers[w]);
    case ReportDone(w) =>
      ReplaceWeight(s.workers, w, s'.workers[w]);
    case _ =>
  }

  /** Nothing but a new submission can happen. */
  ghost predicate Stuck(s: Pool) {
    forall step: Step :: Enabled(s, step) ==> step.Submit?
  }

  lemma {:induction false} IdleWorkersHoldNothing(workers: seq<Worker>, r: RequestId)
    requires forall w :: 0 <= w < |workers| ==> !Busy(workers[w])
    ensures Boxed(workers, r) == 0 && Running(workers, r) == 0
  {
    if workers != [] {
      assert !Busy(workers[0]);
      IdleWorkersHoldNothing(workers[1..], r);
    }
  }

  lemma StuckMeansAllAnswered(s: Pool, r: RequestId)
    requires Inv(s) && Stuck(s) && r < s.accepted
    ensures Answered(s.replies, r, Completed) + Answered(s.replies, r, Expired) == 1
  {
    forall w | 0 <= w < |s.workers|
      ensures !Busy(s.workers[w])
    {
      assert !Enabled(s, TakeWork(w)) && !Enabled(s, FinishJob(w)) && !Enabled(s, ReportDone(w));
      assert SoundWorker(s.workers[w]);
    }
    assert !Enabled(s, DrainOne) && !Enabled(s, DrainEnd) && !Enabled(s, Reserve) && !Enabled(s, ReceiveDone);
    assert !Enabled(s, NextRequest(CoDel.PopClock(0, 0, 0, 0))) && !Enabled(s, SendWork);
    if s.dispatcher.AwaitingDone? {
      BlockedOnlyWhileWorkersRun(s);
    }
    if s.dispatcher.Dispatching? {
      InboxHasRoom(s);
    }
    IdleWorkersHoldNothing(s.workers, r);
    assert Whereabouts(s, r) == 1;
  }

  lemma {:induction false} QuietRunsAnswer(s: Pool, steps: seq<Step>, r: RequestId)
    requires Inv(s) && Feasible(s, steps) && r < s.accepted
    requires forall step :: step in steps ==> !step.Submit?
    ensures |steps| + Remaining(After(s, steps)) <= Remaining(s)
    ensures Stuck(After(s, steps)) ==>
              var replies := After(s, steps).replies;
              Answered(replies, r, Completed) + Answered(replies, r, Expired) == 1
    decreases |steps|
  {
    if steps == [] {
      if Stuck(s) {
        StuckMeansAllAnswered(s, r);
      }
    } else {
      StepKeepsInv(s, steps[0]);
      StepMakesProgress(s, steps[0]);
      QuietRunsAnswer(Apply(s, steps[0]), steps[1..], r);
    }
  }

  /**
   Whatever a fresh pool has been through before, once submissions stop every continuation is finite, and
   one that cannot go on has answered every accepted request exactly once: no deadlock, no livelock, no
   lost caller.
   */
  lemma EveryRequestIsAnswered(
    maxThreads: nat, queue: CoDel.Queue<RequestId>, before: seq<Step>, steps: seq<Step>, r: RequestId)
    requires maxThreads > 0 && queue.buffer == []
    requires Feasible(Start(maxThreads, queue), before)
    requires var s := After(Start(maxThreads, queue), before);
             Feasible(s, steps) && r < s.accepted && forall step :: step in steps ==> !step.Submit?
    ensures var s := After(Start(maxThreads, queue), before);
            var s' := After(s, steps);
            && |steps| <= Remaining(s)
            && (Stuck(s') ==> Answered(s'.replies, r, Completed) + Answered(s'.replies, r, Expired) == 1)
  {
    StartInv(maxThreads, queue);
    RunsKeepInv(Start(maxThreads, queue), before);
    QuietRunsAnswer(After(Start(maxThreads, queue), before), steps, r);
  }

  // ----- The scheduler object: one method per stretch of code between two awaits -----

  /** What draining the completion channel amounts to. */
  function Drained(s: Pool): Pool {
    s.(available := s.available + s.done, done := [], dispatcher := Reserving)
  }

  function DrainSteps(n: nat): seq<Step> {
    if n == 0 then [DrainEnd] else [DrainOne] + DrainSteps(n - 1)
  }

  /** The drain loop is a run of the protocol. */
  lemma {:induction false} DrainIsARun(s: Pool)
    requires s.dispatcher.Draining?
    ensures Feasible(s, DrainSteps(|s.done|)) && After(s, DrainSteps(|s.done|)) == Drained(s)
    decreases |s.done|
  {
    var steps := DrainSteps(|s.done|);
    if s.done == [] {
      assert s.available + s.done == s.available;
      assert steps[1..] == [];
    } else {
      assert steps[1..] == DrainSteps(|s.done| - 1);
      DrainIsARun(Apply(s, DrainOne));
      assert s.available + [s.done[0]] + s.done[1..] == s.available + s.done;
    }
  }

  class Scheduler {
    const maxThreads: nat
    const queue: CoDel.CoDelQueue<RequestId>
    var workers: seq<Worker>
    var available: seq<nat>
    var done: seq<nat>
    var dispatcher: Dispatcher
    var accepted: nat
    var executed: seq<RequestId>
    var replies: seq<Reply>

    function State(): Pool
      reads this, queue
    {
      Pool(maxThreads, workers, available, done, dispatcher, queue.State(), accepted, executed, replies)
    }

    constructor (maxThreads: nat, queue: CoDel.CoDelQueue<RequestId>)
      requires queue.buffer == []
      ensures this.queue == queue && State() == Start(maxThreads, queue.State())
    {
      this.maxThreads := maxThreads;
      this.queue := queue;
      workers, available, done := [], [], [];
      dispatcher := Draining;
      accepted, executed, replies := 0, [], [];
    }

    method SubmitRequest(first: int, c: CoDel.PushClock) returns (r: Result<RequestId, CoDel.QueueFull>)
      requires c.From(first)
      modifies this, queue
      ensures State() == Apply(old(State()), Submit(c))
      ensures r == if accepted > old(accepted) then Success(old(accepted)) else Failure(CoDel.QueueFull)
    {
      var sent := queue.Push(accepted, first, c);
      if sent.Failure? {
        return Failure(CoDel.QueueFull);
      }
      r := Success(accepted);
      accepted := accepted + 1;
    }

    method DrainCompleted()
      requires dispatcher.Draining?
      modifies `available, `done, `dispatcher
      ensures State() == Drained(old(State()))
    {
      while done != []
        invariant available + done == old(available + done)
        decreases |done|
      {
        assert available + done == available + [done[0]] + done[1..];
        available := available + [done[0]];
        done := done[1..];
      }
      assert available + done == available;
      dispatcher := Reserving;
    }

    method CreateWorker() returns (w: nat)
      modifies this
      ensures w == |old(workers)|
      ensures State() == old(State()).(workers := old(workers) + [Worker([], Waiting)])
    {
      w := |workers|;
      workers := workers + [Worker([], Waiting)];
    }

    method ReserveWorker()
      requires dispatcher.Reserving?
      modifies this
      ensures State() == Apply(old(State()), Reserve)
    {
      if available != [] {
        dispatcher := AwaitingWork(available[|available| - 1]);
        available := available[..|available| - 1];
      } else if |workers| < maxThreads {
        var w := CreateWorker();
        dispatcher := AwaitingWork(w);
      } else {
        dispatcher := AwaitingDone;
      }
    }

    method ReceiveCompletion()
      requires Enabled(State(), ReceiveDone)
      modifies this
      ensures State() == Apply(old(State()), ReceiveDone)
    {
      dispatcher := AwaitingWork(done[0]);
      done := done[1..];
    }

    method ReceiveRequest(c: CoDel.PopClock)
      requires Enabled(State(), NextRequest(c))
      modifies this, queue
      ensures State() == Apply(old(State()), NextRequest(c))
    {
      var popped := queue.Pop(c);
      if popped.value.expired {
        replies := replies + [Reply(popped.value.item, Expired)];
      } else {
        dispatcher := Dispatching(dispatcher.reserved, popped.value.item);
      }
    }

    method SendToWorker()
      requires Enabled(State(), SendWork)
      modifies this
      ensures State() == Apply(old(State()), SendWork)
    {
      var w, request := dispatcher.chosen, dispatcher.request;
      if workers[w].inbox != [] {
        dispatcher := ShutDown;
      } else {
        workers := workers[w := workers[w].(inbox := [request])];
        dispatcher := Draining;
      }
    }

    method RunJob(w: nat)
      requires Enabled(State(), TakeWork(w))
      modifies this
      ensures State() == Apply(old(State()), TakeWork(w))
    {
      var request := workers[w].inbox[0];
      workers := workers[w := Worker(workers[w].inbox[1..], Executing(request))];
      executed := executed + [request];
    }

    method CompleteJob(w: nat)
      requires Enabled(State(), FinishJob(w))
      modifies this
      ensures State() == Apply(old(State()), FinishJob(w))
    {
      replies := replies + [Reply(workers[w].phase.request, Completed)];
      workers := workers[w := workers[w].(phase := Reporting)];
    }

    method ReportCompletion(w: nat)
      requires Enabled(State(), ReportDone(w))
      modifies this
      ensures State() == Apply(old(State()), ReportDone(w))
    {
      if |done| < maxThreads {
        done := done + [w];
      }
      workers := workers[w := workers[w].(phase := Waiting)];
    }
  }
}
