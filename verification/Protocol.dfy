/** The server as a transition system: one acceptor and any number of workers that share a work
    queue, its condition variable, two locks, the branch heads and the object store.  Each step is
    one statement on shared state, so every interleaving of the threads is a run. */
module Protocol {
  import opened CStrings
  import opened Manifest
  import opened Wire
  import opened Store

  /** A connection's request after the header line and the declared files have been decoded. */
  datatype Request = PushReq(branch: string, parent: string, files: seq<PushFile>) | PullReq(branch: string) | BadReq

  predicate GoodRequest(req: Request) {
    req.PushReq? ==> GoodNames(req.files)
  }

  datatype Owner = Nobody | Main | Worker(w: nat)

  /** The main thread; connection ids count the accepted connections. */
  datatype Acceptor = Accepting | HasNode | Linking | Linked | Signalled

  /** The program counter of a worker with its locals. */
  datatype Task =
    | Free                                            // before pthread_mutex_lock(&queue_lock)
    | Checking(woken: bool)                           // holds queue_lock, at the while test
    | Waiting                                         // in pthread_cond_wait, queue_lock released
    | Awakened                                        // woken up, queue_lock not yet retaken
    | Leaving(id: nat)                                // node unlinked, queue_lock still held
    | Started(id: nat)                                // in handle_client
    | WantBranch(id: nat)                             // before pthread_mutex_lock(&branch_lock)
    | Locked(id: nat)                                 // holds branch_lock
    | Admitted(id: nat, head: string)                 // head read, no conflict
    | Receiving(id: nat, entries: seq<Entry>, f: nat) // file f is next
    | Stored(id: nat, entries: seq<Entry>, f: nat)    // object of file f stored, not yet listed
    | ManifestStored(id: nat, entries: seq<Entry>)    // manifest object stored, head not moved
    | Finishing(id: nat, reply: Reply)                // outcome fixed, branch_lock still held
    | HeadRead(id: nat, head: string, seen: nat)   // PULL has read a head
    | Replying(id: nat, reply: Reply)                 // answer about to be sent

  /** A finished critical section of handle_push, in the order of branch_lock. */
  datatype LogEntry = LogEntry(id: nat, req: Request, luck: Luck, reply: Reply)

  /** arrived counts the parts of a connection's stream that have come: the header line, then one for
      each file; the end of the stream comes as the parts that it cuts short.  log, since (its length
      when a connection was accepted) and the length recorded by HeadRead are history: no guard
      reads them. */
  datatype State = State(
    queue: seq<nat>,
    queueLock: Owner,
    acceptor: Acceptor,
    tasks: seq<Task>,
    repo: Repo,
    branchLock: Owner,
    arrivals: seq<Request>,
    arrived: map<nat, nat>,
    since: seq<nat>,
    replies: map<nat, Reply>,
    log: seq<LogEntry>)

  datatype Step =
    | Accept(req: Request) | Deliver(id: nat) | MainLock | MainLink | MainSignal(wake: set<nat>) | MainUnlock
    | LockQueue(w: nat) | Wait(w: nat) | Spurious(w: nat) | Relock(w: nat) | Take(w: nat) | UnlockQueue(w: nat)
    | Dispatch(w: nat) | LockBranch(w: nat) | Compare(w: nat) | LoadOld(w: nat) | NoReceiveBuffer(w: nat)
    | StoreFile(w: nat) | EnterFile(w: nat) | StoreManifest(w: nat) | NoManifestFile(w: nat) | MoveHead(w: nat)
    | UnlockBranch(w: nat) | ReadHead(w: nat) | ReadObject(w: nat) | SendReply(w: nat)

  function SetTask(s: State, w: nat, t: Task): State
    requires w < |s.tasks|
  {
    s.(tasks := s.tasks[w := t])
  }

  /** Parts of the stream of a connection that recv can return. */
  function Came(s: State, id: nat): nat {
    if id in s.arrived then s.arrived[id] else 0
  }

  function WaitingSet(tasks: seq<Task>): set<nat> {
    set w: nat | w < |tasks| && tasks[w].Waiting?
  }

  /** Awakened workers that have not yet tested the queue again. */
  function WokenSet(tasks: seq<Task>): set<nat> {
    set w: nat | w < |tasks| && (tasks[w].Awakened? || tasks[w] == Checking(true))
  }

  function WakeAll(tasks: seq<Task>, wake: set<nat>): seq<Task> {
    seq(|tasks|, i requires 0 <= i < |tasks| => if i in wake then Awakened else tasks[i])
  }

  /** The network, and enqueue_client in the main thread.  pthread_cond_signal wakes at least one
      waiter if there is any. */
  ghost predicate MainNext(s: State, step: Step, s': State) {
    match step
    case Accept(req) =>
      s.acceptor.Accepting? && GoodRequest(req)
      && s' == s.(acceptor := HasNode, arrivals := s.arrivals + [req], since := s.since + [|s.log|])
    case Deliver(id) =>
      id < |s.arrivals|
      && s' == s.(arrived := s.arrived[id := Came(s, id) + 1])
    case MainLock =>
      s.acceptor.HasNode? && s.queueLock.Nobody?
      && s' == s.(acceptor := Linking, queueLock := Main)
    case MainLink =>
      s.acceptor.Linking? && |s.arrivals| > 0
      && s' == s.(acceptor := Linked, queue := s.queue + [|s.arrivals| - 1])
    case MainSignal(wake) =>
      s.acceptor.Linked? && wake <= WaitingSet(s.tasks) && (WaitingSet(s.tasks) != {} ==> wake != {})
      && s' == s.(acceptor := Signalled, tasks := WakeAll(s.tasks, wake))
    case MainUnlock =>
      s.acceptor.Signalled?
      && s' == s.(acceptor := Accepting, queueLock := Nobody)
    case _ => false
  }

  /** dequeue_client in worker w. */
  ghost predicate QueueNext(s: State, step: Step, s': State) {
    match step
    case LockQueue(w) =>
      w < |s.tasks| && s.tasks[w].Free? && s.queueLock.Nobody?
      && s' == SetTask(s, w, Checking(false)).(queueLock := Worker(w))
    case Wait(w) =>
      w < |s.tasks| && s.tasks[w].Checking? && s.queue == []
      && s' == SetTask(s, w, Waiting).(queueLock := Nobody)
    case Spurious(w) =>
      w < |s.tasks| && s.tasks[w].Waiting?
      && s' == SetTask(s, w, Awakened)
    case Relock(w) =>
      w < |s.tasks| && s.tasks[w].Awakened? && s.queueLock.Nobody?
      && s' == SetTask(s, w, Checking(true)).(queueLock := Worker(w))
    case Take(w) =>
      w < |s.tasks| && s.tasks[w].Checking? && s.queue != []
      && s' == SetTask(s, w, Leaving(s.queue[0])).(queue := s.queue[1..])
    case UnlockQueue(w) =>
      w < |s.tasks| && s.tasks[w].Leaving?
      && s' == SetTask(s, w, Started(s.tasks[w].id)).(queueLock := Nobody)
    case _ => false
  }

  /** handle_client in worker w, without the inside of handle_push. */
  ghost predicate ClientNext(s: State, step: Step, s': State) {
    match step
    case Dispatch(w) =>
      w < |s.tasks| && s.tasks[w].Started? && s.tasks[w].id < |s.arrivals|
      && s.arrivals[s.tasks[w].id].PushReq? && Came(s, s.tasks[w].id) >= 1
      && s' == SetTask(s, w, WantBranch(s.tasks[w].id))
    case LockBranch(w) =>
      w < |s.tasks| && s.tasks[w].WantBranch? && s.branchLock.Nobody?
      && s' == SetTask(s, w, Locked(s.tasks[w].id)).(branchLock := Worker(w))
    case UnlockBranch(w) =>
      w < |s.tasks| && s.tasks[w].Finishing?
      && s' == SetTask(s, w, Replying(s.tasks[w].id, s.tasks[w].reply)).(branchLock := Nobody)
    case ReadHead(w) =>
      w < |s.tasks| && s.tasks[w].Started? && s.tasks[w].id < |s.arrivals|
      && var id := s.tasks[w].id;
         var req := s.arrivals[id];
         !req.PushReq? && Came(s, id) >= 1
         && s' == SetTask(s, w,
              if req.BadReq? then Replying(id, Invalid)
              else if Head(s.repo, req.branch) == "" then Replying(id, NoCommits)
              else HeadRead(id, Head(s.repo, req.branch), |s.log|))
    case ReadObject(w) =>
      w < |s.tasks| && s.tasks[w].HeadRead?
      && var t := s.tasks[w];
         s' == SetTask(s, w, Replying(t.id, ObjectReply(s.repo, t.head)))
    case SendReply(w) =>
      w < |s.tasks| && s.tasks[w].Replying?
      && s' == SetTask(s, w, Free).(replies := s.replies[s.tasks[w].id := s.tasks[w].reply])
    case _ => false
  }

  function PutObject(hash: Hasher, repo: Repo, c: string): Repo {
    repo.(objects := repo.objects[Digest(hash, c) := c])
  }

  /** Worker w fixes the outcome of its push: the next entry of the log. */
  function Decide(s: State, w: nat, id: nat, luck: Luck, reply: Reply): State
    requires w < |s.tasks| && id < |s.arrivals|
  {
    SetTask(s, w, Finishing(id, reply)).(log := s.log + [LogEntry(id, s.arrivals[id], luck, reply)])
  }

  /** The push that worker w is handling. */
  predicate Pushing(s: State, w: nat) {
    w < |s.tasks| && InPush(s.tasks[w]) && s.tasks[w].id < |s.arrivals| && s.arrivals[s.tasks[w].id].PushReq?
  }

  predicate InPush(t: Task) {
    t.Locked? || t.Admitted? || t.Receiving? || t.Stored? || t.ManifestStored?
  }

  /** handle_push in worker w, between taking and releasing branch_lock. */
  ghost predicate PushNext(hash: Hasher, s: State, step: Step, s': State) {
    match step
    case Compare(w) =>
      Pushing(s, w) && s.tasks[w].Locked?
      && var id := s.tasks[w].id;
         var req := s.arrivals[id];
         s' == if Rejects(s.repo, req.branch, req.parent) then Decide(s, w, id, Fine, Conflict)
               else SetTask(s, w, Admitted(id, Head(s.repo, req.branch)))
    case LoadOld(w) =>
      Pushing(s, w) && s.tasks[w].Admitted?
      && s' == SetTask(s, w, Receiving(s.tasks[w].id, OldEntries(s.repo, s.tasks[w].head), 0))
    case NoReceiveBuffer(w) =>
      Pushing(s, w) && s.tasks[w].Admitted?
      && s' == Decide(s, w, s.tasks[w].id, NoBuffer, Dropped)
    case StoreFile(w) =>
      Pushing(s, w) && s.tasks[w].Receiving?
      && var t := s.tasks[w];
         var files := s.arrivals[t.id].files;
         t.f < |files| && Came(s, t.id) >= t.f + 2
         && s' == SetTask(s, w, Stored(t.id, t.entries, t.f)).(repo := PutObject(hash, s.repo, files[t.f].content))
    case EnterFile(w) =>
      Pushing(s, w) && s.tasks[w].Stored?
      && var t := s.tasks[w];
         var files := s.arrivals[t.id].files;
         t.f < |files|
         && s' == SetTask(s, w, Receiving(t.id, ListFile(hash, t.entries, files[t.f]), t.f + 1))
    case StoreManifest(w) =>
      Pushing(s, w) && s.tasks[w].Receiving?
      && var t := s.tasks[w];
         t.f == |s.arrivals[t.id].files|
         && s' == SetTask(s, w, ManifestStored(t.id, t.entries)).(repo := PutObject(hash, s.repo, Print(t.entries)))
    case NoManifestFile(w) =>
      Pushing(s, w) && s.tasks[w].Receiving? && s.tasks[w].f == |s.arrivals[s.tasks[w].id].files|
      && s' == Decide(s, w, s.tasks[w].id, NoTempFile, Accepted(""))
    case MoveHead(w) =>
      Pushing(s, w) && s.tasks[w].ManifestStored?
      && var t := s.tasks[w];
         var h := Digest(hash, Print(t.entries));
         s' == Decide(s, w, t.id, Fine, Accepted(h))
               .(repo := s.repo.(heads := s.repo.heads[s.arrivals[t.id].branch := h]))
    case _ => false
  }

  ghost predicate Next(hash: Hasher, s: State, step: Step, s': State) {
    MainNext(s, step, s') || QueueNext(s, step, s') || ClientNext(s, step, s') || PushNext(hash, s, step, s')
  }

  /** The content a step adds to the object store. */
  function Written(s: State, step: Step): Option<string> {
    match step
    case StoreFile(w) =>
      if Pushing(s, w) && s.tasks[w].Receiving? && s.tasks[w].f < |s.arrivals[s.tasks[w].id].files|
      then Some(s.arrivals[s.tasks[w].id].files[s.tasks[w].f].content) else None
    case StoreManifest(w) =>
      if Pushing(s, w) && s.tasks[w].Receiving? then Some(Print(s.tasks[w].entries)) else None
    case _ => None
  }

  /** SHA-1 is injective on what this step stores and what is stored already. */
  predicate CollisionFree(hash: Hasher, s: State, step: Step) {
    Written(s, step).Some? ==> NoCollision(hash, s.repo.objects, Written(s, step).value)
  }

  ghost predicate Init(hash: Hasher, start: Repo, s: State) {
    && Closed(hash, start) && s.repo == start
    && s.queue == [] && s.queueLock.Nobody? && s.acceptor.Accepting? && s.branchLock.Nobody?
    && (forall w :: 0 <= w < |s.tasks| ==> s.tasks[w].Free?)
    && s.arrivals == [] && s.arrived == map[] && s.since == [] && s.replies == map[] && s.log == []
  }

  /** A run: any finite interleaving of the threads, with no SHA-1 collision on stored contents. */
  ghost predicate IsRun(hash: Hasher, start: Repo, states: seq<State>, steps: seq<Step>) {
    && |states| == |steps| + 1 && Init(hash, start, states[0])
    && forall i :: 0 <= i < |steps| ==>
         Next(hash, states[i], steps[i], states[i + 1]) && CollisionFree(hash, states[i], steps[i])
  }

  // ---- the atomic specification -----------------------------------------------------------

  function Attempt(hash: Hasher, repo: Repo, req: Request, luck: Luck): Outcome {
    match req
    case PushReq(branch, parent, files) => AtomicPush(hash, repo, branch, parent, files, luck)
    case _ => Outcome(repo, Invalid)
  }

  /** The repository after running the logged pushes one by one, each as a single step. */
  function Replay(hash: Hasher, start: Repo, log: seq<LogEntry>): Repo {
    if log == [] then start
    else
      var last := log[|log| - 1];
      Attempt(hash, Replay(hash, start, log[..|log| - 1]), last.req, last.luck).repo
  }
}
