/** Termination: how many steps the program can take on its own, and that everyone is answered when
    all streams have come in full. */
module ProtocolBound {
  import opened Manifest
  import opened Sums
  import opened Store
  import opened Protocol
  import opened ProtocolQueue
  import opened ProtocolPush
  import opened ProtocolStore
  import opened ProtocolHistory
  import opened ProtocolRuns
  import opened ProtocolProgress

  // ---- the work that is left -------------------------------------------------------------------------

  function FileCount(arrivals: seq<Request>, id: nat): nat {
    if id < |arrivals| && arrivals[id].PushReq? then |arrivals[id].files| else 0
  }

  function Left(n: nat, f: nat): nat {
    if f <= n then n - f else 0
  }

  /** An upper bound on the steps of a worker until it sleeps or holds another connection. */
  function TaskWork(arrivals: seq<Request>, t: Task): nat {
    match t
    case Waiting => 0
    case Checking(_) => 1
    case Free => 2
    case Awakened => 2
    case Leaving(id) => 11 + 2 * FileCount(arrivals, id)
    case Started(id) => 10 + 2 * FileCount(arrivals, id)
    case WantBranch(id) => 9 + 2 * FileCount(arrivals, id)
    case Locked(id) => 8 + 2 * FileCount(arrivals, id)
    case Admitted(id, _) => 7 + 2 * FileCount(arrivals, id)
    case Receiving(id, _, f) => 6 + 2 * Left(FileCount(arrivals, id), f)
    case Stored(id, _, f) => 5 + 2 * Left(FileCount(arrivals, id), f)
    case ManifestStored(_, _) => 5
    case Finishing(_, _) => 4
    case HeadRead(_, _, _) => 4
    case Replying(_, _) => 3
  }

  function QueuedWork(arrivals: seq<Request>, id: nat): nat {
    11 + 2 * FileCount(arrivals, id)
  }

  /** What the main thread still has to do; a signal may wake every worker. */
  function MainWork(s: State): nat {
    match s.acceptor
    case Accepting => 0
    case HasNode => 4 + 2 * |s.tasks| + QueuedWork(s.arrivals, Left(|s.arrivals|, 1))
    case Linking => 3 + 2 * |s.tasks| + QueuedWork(s.arrivals, Left(|s.arrivals|, 1))
    case Linked => 2 + 2 * |s.tasks|
    case Signalled => 1
  }

  function TaskWorks(arrivals: seq<Request>, tasks: seq<Task>): seq<nat> {
    seq(|tasks|, i requires 0 <= i < |tasks| => TaskWork(arrivals, tasks[i]))
  }

  function QueueWorks(arrivals: seq<Request>, queue: seq<nat>): seq<nat> {
    seq(|queue|, i requires 0 <= i < |queue| => QueuedWork(arrivals, queue[i]))
  }

  function Work(s: State): nat {
    MainWork(s) + Sum(QueueWorks(s.arrivals, s.queue)) + Sum(TaskWorks(s.arrivals, s.tasks))
  }

  /** What a step of the network or a spurious wakeup adds. */
  function Added(step: Step, workers: nat): nat {
    match step
    case Accept(req) => 15 + 2 * workers + 2 * if req.PushReq? then |req.files| else 0
    case Spurious(_) => 2
    case _ => 0
  }

  // ---- every step of the program takes some of it away --------------------------------------------------

  lemma TaskWorksUpdate(arrivals: seq<Request>, tasks: seq<Task>, w: nat, t: Task)
    requires w < |tasks|
    ensures Sum(TaskWorks(arrivals, tasks[w := t])) ==
            Sum(TaskWorks(arrivals, tasks)) - TaskWork(arrivals, tasks[w]) + TaskWork(arrivals, t)
  {
    hide TaskWork, Sum;
    var works := TaskWorks(arrivals, tasks);
    SumUpdate(works, w, TaskWork(arrivals, t));
    assert TaskWorks(arrivals, tasks[w := t]) == works[w := TaskWork(arrivals, t)];
  }

  /** One task changes and nothing else that counts. */
  lemma TaskStep(s: State, w: nat, s': State, t: Task)
    requires w < |s.tasks| && s'.tasks == s.tasks[w := t]
    requires s'.acceptor == s.acceptor && s'.arrivals == s.arrivals && s'.queue == s.queue
    ensures Work(s') == Work(s) - TaskWork(s.arrivals, s.tasks[w]) + TaskWork(s.arrivals, t)
  {
    hide TaskWork, TaskWorks, QueueWorks, Sum;
    TaskWorksUpdate(s.arrivals, s.tasks, w, t);
  }

  lemma QueuePops(arrivals: seq<Request>, queue: seq<nat>)
    requires queue != []
    ensures Sum(QueueWorks(arrivals, queue)) == QueuedWork(arrivals, queue[0]) + Sum(QueueWorks(arrivals, queue[1..]))
  {
    hide Sum, QueuedWork;
    var first := QueuedWork(arrivals, queue[0]);
    assert QueueWorks(arrivals, queue) == [first] + QueueWorks(arrivals, queue[1..]);
    SumSplit([first], QueueWorks(arrivals, queue[1..]));
    SumOne(first);
  }

  lemma QueueGrows(arrivals: seq<Request>, queue: seq<nat>, id: nat)
    ensures Sum(QueueWorks(arrivals, queue + [id])) == Sum(QueueWorks(arrivals, queue)) + QueuedWork(arrivals, id)
  {
    hide Sum, QueuedWork;
    assert QueueWorks(arrivals, queue + [id]) == QueueWorks(arrivals, queue) + [QueuedWork(arrivals, id)];
    SumSnoc(QueueWorks(arrivals, queue), QueuedWork(arrivals, id));
  }

  lemma QueueSpends(s: State, step: Step, s': State)
    requires QueueNext(s, step, s')
    ensures Work(s') + (if ByProgram(step) then 1 else 0) <= Work(s) + Added(step, |s.tasks|)
    ensures |s'.tasks| == |s.tasks|
  {
    var w := step.w;
    hide Work;
    if step.Take? {
      TakeSpends(s, w, s');
    } else {
      TaskStep(s, w, s', s'.tasks[w]);
    }
  }

  lemma TakeSpends(s: State, w: nat, s': State)
    requires QueueNext(s, Take(w), s')
    ensures Work(s') + 1 <= Work(s)
  {
    hide Sum, TaskWorks, QueueWorks;
    QueuePops(s.arrivals, s.queue);
    TaskWorksUpdate(s.arrivals, s.tasks, w, Leaving(s.queue[0]));
  }

  lemma ClientSpends(s: State, step: Step, s': State)
    requires ClientNext(s, step, s')
    ensures Work(s') + 1 <= Work(s) && |s'.tasks| == |s.tasks|
  {
    hide Work, Head, ObjectReply;
    var w := step.w;
    TaskStep(s, w, s', s'.tasks[w]);
  }

  /** How a step inside handle_push moves its worker: the connection declares n files, and so many
      parts of its stream have come. */
  predicate Advances(n: nat, came: nat, t: Task, t': Task) {
    InPush(t) && (InPush(t') || t'.Finishing?) && t'.id == t.id &&
    if t.Locked? then t'.Admitted? || (t'.Finishing? && !t'.reply.Accepted?)
    else if t.Admitted? then (t'.Receiving? && t'.f == 0) || (t'.Finishing? && !t'.reply.Accepted?)
    else if t.Stored? then t.f < n && t'.Receiving? && t'.f == t.f + 1
    else if t.ManifestStored? then t'.Finishing?
    else if t'.Stored? then t.f < n && t'.f == t.f && came >= t.f + 2
    else t.f == n && (t'.ManifestStored? || t'.Finishing?)
  }

  predicate FileStep(step: Step) {
    step.StoreFile? || step.EnterFile?
  }

  predicate EarlyStep(step: Step) {
    step.Compare? || step.LoadOld? || step.NoReceiveBuffer?
  }

  predicate LateStep(step: Step) {
    step.StoreManifest? || step.NoManifestFile? || step.MoveHead?
  }

  /** What a step inside handle_push changes. */
  ghost predicate OneAdvance(s: State, w: nat, s': State) {
    && w < |s.tasks| && |s'.tasks| == |s.tasks| && s'.tasks == s.tasks[w := s'.tasks[w]]
    && s'.acceptor == s.acceptor && s'.arrivals == s.arrivals && s'.arrived == s.arrived && s'.queue == s.queue
    && InPush(s.tasks[w])
    && Advances(FileCount(s.arrivals, s.tasks[w].id), Came(s, s.tasks[w].id), s.tasks[w], s'.tasks[w])
  }

  lemma CompareAdvances(hash: Hasher, s: State, w: nat, s': State)
    requires PushNext(hash, s, Compare(w), s')
    ensures OneAdvance(s, w, s')
  {
    hide Head, OldEntries, Rejects, ListFile, Print, Digest, PutObject, Came, FileCount;
  }

  lemma LoadAdvances(hash: Hasher, s: State, w: nat, s': State)
    requires PushNext(hash, s, LoadOld(w), s')
    ensures OneAdvance(s, w, s')
  {
    hide Head, OldEntries, Rejects, ListFile, Print, Digest, PutObject, Came, FileCount;
  }

  lemma EarlyAdvances(hash: Hasher, s: State, step: Step, s': State)
    requires PushNext(hash, s, step, s') && EarlyStep(step)
    ensures OneAdvance(s, step.w, s')
  {
    hide Head, OldEntries, Rejects, ListFile, Print, Digest, PutObject, Came, FileCount;
    if step.Compare? {
      hide PushNext, OneAdvance;
      CompareAdvances(hash, s, step.w, s');
    } else if step.LoadOld? {
      hide PushNext, OneAdvance;
      LoadAdvances(hash, s, step.w, s');
    }
  }

  lemma FileAdvances(hash: Hasher, s: State, step: Step, s': State)
    requires PushNext(hash, s, step, s') && FileStep(step)
    ensures OneAdvance(s, step.w, s')
  {
    hide Head, OldEntries, Rejects, ListFile, Print, Digest, PutObject, Came;
  }

  lemma MoveAdvances(hash: Hasher, s: State, w: nat, s': State)
    requires PushNext(hash, s, MoveHead(w), s')
    ensures OneAdvance(s, w, s')
  {
    hide Head, OldEntries, Rejects, ListFile, Print, Digest, PutObject, Came, FileCount;
  }

  lemma LateAdvances(hash: Hasher, s: State, step: Step, s': State)
    requires PushNext(hash, s, step, s') && LateStep(step)
    ensures OneAdvance(s, step.w, s')
  {
    hide Head, OldEntries, Rejects, ListFile, Print, Digest, PutObject, Came;
    if step.MoveHead? {
      hide PushNext, OneAdvance;
      MoveAdvances(hash, s, step.w, s');
    }
  }

  lemma PushKinds(hash: Hasher, s: State, step: Step, s': State)
    requires PushNext(hash, s, step, s')
    ensures EarlyStep(step) || FileStep(step) || LateStep(step)
  {
    hide Head, OldEntries, Rejects, ListFile, Print, Digest, PutObject, Came, Decide, SetTask, Pushing;
  }

  lemma PushAdvances(hash: Hasher, s: State, step: Step, s': State) returns (w: nat)
    requires PushNext(hash, s, step, s')
    ensures OneAdvance(s, w, s')
  {
    PushKinds(hash, s, step, s');
    hide PushNext, OneAdvance;
    w := step.w;
    if EarlyStep(step) {
      EarlyAdvances(hash, s, step, s');
    } else if FileStep(step) {
      FileAdvances(hash, s, step, s');
    } else {
      LateAdvances(hash, s, step, s');
    }
  }

  lemma AdvanceSpends(arrivals: seq<Request>, came: nat, t: Task, t': Task)
    requires InPush(t) && Advances(FileCount(arrivals, t.id), came, t, t')
    ensures TaskWork(arrivals, t') < TaskWork(arrivals, t)
  {
    hide FileCount;
  }

  lemma PushSpends(hash: Hasher, s: State, step: Step, s': State)
    requires PushNext(hash, s, step, s')
    ensures Work(s') + 1 <= Work(s) && |s'.tasks| == |s.tasks|
  {
    hide Work, TaskWork, PushNext, Advances, FileCount, Came;
    var w := PushAdvances(hash, s, step, s');
    AdvanceSpends(s.arrivals, Came(s, s.tasks[w].id), s.tasks[w], s'.tasks[w]);
    TaskStep(s, w, s', s'.tasks[w]);
  }

  /** Waking workers, at most all of them. */
  lemma WakeSpends(arrivals: seq<Request>, tasks: seq<Task>, wake: set<nat>)
    requires wake <= WaitingSet(tasks)
    ensures Sum(TaskWorks(arrivals, WakeAll(tasks, wake))) <= Sum(TaskWorks(arrivals, tasks)) + 2 * |tasks|
  {
    hide Sum;
    var xs, ys := TaskWorks(arrivals, tasks), TaskWorks(arrivals, WakeAll(tasks, wake));
    forall i | 0 <= i < |xs|
      ensures ys[i] <= xs[i] + 2
    {
      hide FileCount;
    }
    SumRaised(xs, ys, 2);
  }

  lemma SignalSpends(s: State, wake: set<nat>, s': State)
    requires MainNext(s, MainSignal(wake), s')
    ensures Work(s') + 1 <= Work(s) && |s'.tasks| == |s.tasks|
  {
    WakeSpends(s.arrivals, s.tasks, wake);
    hide Sum, TaskWorks, QueueWorks;
  }

  /** A new connection costs the old ones nothing. */
  lemma AcceptAdds(s: State, req: Request, s': State)
    requires MainNext(s, Accept(req), s') && IdsArrived(s) && FifoInv(s)
    ensures Work(s') <= Work(s) + Added(Accept(req), |s.tasks|) && |s'.tasks| == |s.tasks|
  {
    hide Sum;
    forall i | 0 <= i < |s.tasks|
      ensures TaskWork(s'.arrivals, s.tasks[i]) == TaskWork(s.arrivals, s.tasks[i])
    {
    }
    assert TaskWorks(s'.arrivals, s'.tasks) == TaskWorks(s.arrivals, s.tasks);
    assert QueueWorks(s'.arrivals, s'.queue) == QueueWorks(s.arrivals, s.queue);
  }

  lemma MainSpends(s: State, step: Step, s': State)
    requires MainNext(s, step, s') && IdsArrived(s) && FifoInv(s)
    ensures Work(s') + (if ByProgram(step) then 1 else 0) <= Work(s) + Added(step, |s.tasks|)
    ensures |s'.tasks| == |s.tasks|
  {
    if step.Accept? {
      AcceptAdds(s, step.req, s');
    } else if step.MainSignal? {
      SignalSpends(s, step.wake, s');
    } else {
      hide Sum, TaskWorks, QueueWorks, IdsArrived, FifoInv;
      if step.MainLink? {
        QueueGrows(s.arrivals, s.queue, |s.arrivals| - 1);
      }
    }
  }

  /** A step of the program takes away some of the work; only the network and spurious wakeups add. */
  lemma StepSpends(hash: Hasher, s: State, step: Step, s': State)
    requires QueueInv(s) && Next(hash, s, step, s')
    ensures Work(s') + (if ByProgram(step) then 1 else 0) <= Work(s) + Added(step, |s.tasks|)
    ensures |s'.tasks| == |s.tasks|
  {
    hide MainNext, QueueNext, ClientNext, PushNext, Work, LockInv, FifoInv, WakeupInv, OwnerInv, IdsArrived;
    OwnersArrived(s);
    if MainNext(s, step, s') {
      MainSpends(s, step, s');
    } else if QueueNext(s, step, s') {
      QueueSpends(s, step, s');
    } else if ClientNext(s, step, s') {
      ClientSpends(s, step, s');
    } else {
      PushSpends(hash, s, step, s');
    }
  }

  // ---- over whole runs ---------------------------------------------------------------------------------

  /** How many of the steps are the program's own. */
  function OwnSteps(steps: seq<Step>): nat {
    if steps == [] then 0
    else OwnSteps(steps[..|steps| - 1]) + if ByProgram(steps[|steps| - 1]) then 1 else 0
  }

  /** What the network and spurious wakeups have added. */
  function AddedBy(steps: seq<Step>, workers: nat): nat {
    if steps == [] then 0 else AddedBy(steps[..|steps| - 1], workers) + Added(steps[|steps| - 1], workers)
  }

  lemma {:induction false} RunSpends(hash: Hasher, start: Repo, states: seq<State>, steps: seq<Step>, a: nat, n: nat)
    requires IsRun(hash, start, states, steps) && a <= n <= |steps|
    ensures |states[n].tasks| == |states[a].tasks|
    ensures Work(states[n]) + OwnSteps(steps[a..n]) <= Work(states[a]) + AddedBy(steps[a..n], |states[a].tasks|)
    decreases n
  {
    hide Init, Next, Work, CollisionFree, Added, ByProgram, QueueInv, RefInv, StoreInv, BookInv, HistoryInv, PullInv;
    if a < n {
      RunSpends(hash, start, states, steps, a, n - 1);
      InvRun(hash, start, states, steps, n - 1);
      StepSpends(hash, states[n - 1], steps[n - 1], states[n]);
      assert steps[a..n][..n - 1 - a] == steps[a..n - 1];
    }
  }

  lemma {:induction false} IdleWork(arrivals: seq<Request>, tasks: seq<Task>)
    requires forall w :: 0 <= w < |tasks| ==> tasks[w].Free?
    ensures Sum(TaskWorks(arrivals, tasks)) <= 2 * |tasks|
  {
    hide Sum;
    var zeros := seq(|tasks|, _ => 0);
    SumRaised(zeros, TaskWorks(arrivals, tasks), 2);
    SumZeros(zeros);
  }

  lemma InitWork(hash: Hasher, start: Repo, s: State)
    requires Init(hash, start, s)
    ensures Work(s) <= 2 * |s.tasks|
  {
    hide Closed;
    IdleWork(s.arrivals, s.tasks);
  }

  /** In every run the program's own steps, spinning and waking included, are bounded by what has been
      asked of it: two for each worker, fifteen and two for each worker and each file for every
      connection, and two for every spurious wakeup. */
  lemma OwnStepsBounded(hash: Hasher, start: Repo, states: seq<State>, steps: seq<Step>)
    requires IsRun(hash, start, states, steps)
    ensures OwnSteps(steps) <= 2 * |states[0].tasks| + AddedBy(steps, |states[0].tasks|)
  {
    hide Init, Next, Work, CollisionFree, OwnSteps, AddedBy;
    RunSpends(hash, start, states, steps, 0, |steps|);
    assert steps[0..|steps|] == steps;
    InitWork(hash, start, states[0]);
  }

  lemma {:induction false} AllOwn(steps: seq<Step>, workers: nat)
    requires forall i :: 0 <= i < |steps| ==> ByProgram(steps[i])
    ensures OwnSteps(steps) == |steps| && AddedBy(steps, workers) == 0
  {
    if steps != [] {
      AllOwn(steps[..|steps| - 1], workers);
    }
  }

  // ---- everyone is answered ------------------------------------------------------------------------------

  /** Every stream has come to its end. */
  ghost predicate AllCame(s: State) {
    forall id: nat :: id < |s.arrivals| ==> Came(s, id) >= FileCount(s.arrivals, id) + 1
  }

  lemma NobodyStarved(s: State, w: nat)
    requires AllCame(s) && IdsArrived(s)
    ensures !Starved(s, w)
  {
    hide Came;
  }

  /** A server that cannot go on although all streams have come has answered everyone and is idle. */
  lemma IdleServer(s: State)
    requires QueueInv(s) && Stalled(s) && AllCame(s) && |s.tasks| > 0
    ensures s.queue == [] && (forall w: nat :: w < |s.tasks| ==> s.tasks[w].Waiting?)
    ensures s.branchLock.Nobody? && forall id: nat :: id < |s.arrivals| ==> id in s.replies
  {
    OwnersArrived(s);
    StalledShape(s);
    hide Starved, AllCame, LockInv, WakeupInv, FifoInv, OwnerInv, IdsArrived, TakenCount;
    forall w: nat
      ensures !Starved(s, w)
    {
      NobodyStarved(s, w);
    }
    forall w: nat | w < |s.tasks|
      ensures s.tasks[w].Waiting?
    {
    }
    if s.queue != [] {
      BlockedTask(s, 0);
    }
    LockIsHeld(s);
    forall id: nat | id < |s.arrivals|
      ensures id in s.replies
    {
      if id !in s.replies {
        UnansweredIsBlocked(s, id);
      }
    }
  }

  lemma LockIsHeld(s: State)
    requires LockInv(s) && forall w: nat :: w < |s.tasks| ==> !HoldsBranch(s.tasks[w])
    ensures s.branchLock.Nobody?
  {
  }

  /** From any state of any run in which all streams have come: if only the program goes on, it stops
      after at most Work steps, whatever the schedule, and then everyone has been answered, all workers
      sleep and both locks are free. */
  lemma EveryoneAnswered(hash: Hasher, start: Repo, states: seq<State>, steps: seq<Step>, a: nat)
    requires IsRun(hash, start, states, steps) && a < |states| && AllCame(states[a]) && |states[a].tasks| > 0
    requires forall i :: a <= i < |steps| ==> ByProgram(steps[i])
    ensures var s := states[|states| - 1];
            && |steps| - a <= Work(states[a])
            && (!CanStep(hash, s) ==>
                  && (forall id: nat :: id < |s.arrivals| ==> id in s.replies)
                  && (forall w: nat :: w < |s.tasks| ==> s.tasks[w].Waiting?)
                  && s.queue == [] && s.queueLock.Nobody? && s.branchLock.Nobody?)
  {
    hide Init, Next, Work, CollisionFree, OwnSteps, AddedBy, ByProgram, CanStep, AllCame, QueueInv, RefInv, StoreInv,
         BookInv, HistoryInv, PullInv, Blocked;
    var n := |steps|;
    RunSpends(hash, start, states, steps, a, n);
    AllOwn(steps[a..n], |states[a].tasks|);
    StaysCame(hash, start, states, steps, a, n);
    InvRun(hash, start, states, steps, n);
    StallsOnlyOnClients(hash, start, states, steps, n);
    if !CanStep(hash, states[n]) {
      IdleServer(states[n]);
    }
  }

  lemma MainKeepsStreams(s: State, step: Step, s': State)
    requires ByProgram(step) && MainNext(s, step, s')
    ensures s'.arrivals == s.arrivals && s'.arrived == s.arrived
  {
    hide WaitingSet;
  }

  lemma QueueKeepsStreams(s: State, step: Step, s': State)
    requires QueueNext(s, step, s')
    ensures s'.arrivals == s.arrivals && s'.arrived == s.arrived
  {
  }

  lemma ClientKeepsStreams(s: State, step: Step, s': State)
    requires ClientNext(s, step, s')
    ensures s'.arrivals == s.arrivals && s'.arrived == s.arrived
  {
    hide Head, ObjectReply;
  }

  lemma OwnKeepsStreams(hash: Hasher, s: State, step: Step, s': State)
    requires ByProgram(step) && Next(hash, s, step, s')
    ensures s'.arrivals == s.arrivals && s'.arrived == s.arrived
  {
    hide MainNext, QueueNext, ClientNext, PushNext, ByProgram;
    if MainNext(s, step, s') {
      MainKeepsStreams(s, step, s');
    } else if QueueNext(s, step, s') {
      QueueKeepsStreams(s, step, s');
    } else if ClientNext(s, step, s') {
      ClientKeepsStreams(s, step, s');
    } else {
      var w := PushAdvances(hash, s, step, s');
    }
  }

  lemma {:induction false} StaysCame(hash: Hasher, start: Repo, states: seq<State>, steps: seq<Step>, a: nat, n: nat)
    requires IsRun(hash, start, states, steps) && a <= n <= |steps| && AllCame(states[a])
    requires forall i :: a <= i < n ==> ByProgram(steps[i])
    ensures AllCame(states[n])
    decreases n
  {
    hide Init, Next, CollisionFree, ByProgram;
    if a < n {
      StaysCame(hash, start, states, steps, a, n - 1);
      OwnKeepsStreams(hash, states[n - 1], steps[n - 1], states[n]);
    }
  }
}
