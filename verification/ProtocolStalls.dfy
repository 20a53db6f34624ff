/** A client that stops sending stops every push: the stalled states of the server are reachable, for
    any number of workers and after any number of files. */
module ProtocolStalls {
  import opened CStrings
  import opened Manifest
  import opened Wire
  import opened WireRoundTrip
  import opened WireSender
  import opened Store
  import opened Protocol
  import opened ProtocolProgress
  import opened ProtocolRequests

  // ---- building a run -----------------------------------------------------------------------------

  ghost predicate Reaches(hash: Hasher, start: Repo, s: State) {
    exists states, steps :: IsRun(hash, start, states, steps) && states[|states| - 1] == s
  }

  lemma ReachInit(hash: Hasher, start: Repo, s: State)
    requires Init(hash, start, s)
    ensures Reaches(hash, start, s)
  {
    hide Init;
    assert IsRun(hash, start, [s], []);
  }

  lemma ReachNext(hash: Hasher, start: Repo, s: State, step: Step, s': State)
    requires Reaches(hash, start, s) && Next(hash, s, step, s') && CollisionFree(hash, s, step)
    ensures Reaches(hash, start, s')
  {
    hide Init, Next, CollisionFree;
    var states, steps :| IsRun(hash, start, states, steps) && states[|states| - 1] == s;
    var states', steps' := states + [s'], steps + [step];
    assert IsRun(hash, start, states', steps') by {
      forall i | 0 <= i < |steps'|
        ensures Next(hash, states'[i], steps'[i], states'[i + 1]) && CollisionFree(hash, states'[i], steps'[i])
      {
        assert i < |steps| ==> states'[i] == states[i] && states'[i + 1] == states[i + 1] && steps'[i] == steps[i];
      }
    }
  }

  /** A step that stores nothing cannot collide. */
  lemma ReachQuiet(hash: Hasher, start: Repo, s: State, step: Step, s': State)
    requires Reaches(hash, start, s) && Next(hash, s, step, s') && !step.StoreFile? && !step.StoreManifest?
    ensures Reaches(hash, start, s')
  {
    hide Reaches, Next;
    ReachNext(hash, start, s, step, s');
  }

  lemma ReachByMain(hash: Hasher, start: Repo, s: State, step: Step, s': State)
    requires Reaches(hash, start, s) && MainNext(s, step, s')
    ensures Reaches(hash, start, s')
  {
    assert !step.StoreFile? && !step.StoreManifest?;
    hide Reaches, MainNext, QueueNext, ClientNext, PushNext;
    ReachQuiet(hash, start, s, step, s');
  }

  lemma ReachByQueue(hash: Hasher, start: Repo, s: State, step: Step, s': State)
    requires Reaches(hash, start, s) && QueueNext(s, step, s')
    ensures Reaches(hash, start, s')
  {
    assert !step.StoreFile? && !step.StoreManifest?;
    hide Reaches, MainNext, QueueNext, ClientNext, PushNext;
    ReachQuiet(hash, start, s, step, s');
  }

  lemma ReachByClient(hash: Hasher, start: Repo, s: State, step: Step, s': State)
    requires Reaches(hash, start, s) && ClientNext(s, step, s')
    ensures Reaches(hash, start, s')
  {
    assert !step.StoreFile? && !step.StoreManifest?;
    hide Reaches, MainNext, QueueNext, ClientNext, PushNext;
    ReachQuiet(hash, start, s, step, s');
  }

  lemma ReachByPush(hash: Hasher, start: Repo, s: State, step: Step, s': State)
    requires Reaches(hash, start, s) && PushNext(hash, s, step, s') && !step.StoreFile? && !step.StoreManifest?
    ensures Reaches(hash, start, s')
  {
    hide Reaches, MainNext, QueueNext, ClientNext, PushNext;
    ReachQuiet(hash, start, s, step, s');
  }

  // ---- all workers go to sleep -------------------------------------------------------------------------

  function Sleeping(n: nat): seq<Task> {
    seq(n, _ => Waiting)
  }

  /** A server with n workers, the first k of them asleep, before the first connection. */
  function Idle(start: Repo, n: nat, k: nat): State
    requires k <= n
  {
    State([], Nobody, Accepting, Sleeping(k) + seq(n - k, _ => Free), start, Nobody, [], map[], [], map[], [])
  }

  lemma NextSleeps(n: nat, k: nat)
    requires k < n
    ensures var tasks := Sleeping(k) + seq(n - k, _ => Free);
            tasks[k].Free? && tasks[k := Checking(false)][k := Waiting] == Sleeping(k + 1) + seq(n - (k + 1), _ => Free)
  {
  }

  lemma {:induction false} ReachIdle(hash: Hasher, start: Repo, n: nat, k: nat)
    requires Closed(hash, start) && k <= n
    ensures Reaches(hash, start, Idle(start, n, k))
  {
    hide Reaches, Closed;
    if k == 0 {
      IdleIsInit(hash, start, n);
      ReachInit(hash, start, Idle(start, n, 0));
    } else {
      ReachIdle(hash, start, n, k - 1);
      var s := Idle(start, n, k - 1);
      NextSleeps(n, k - 1);
      hide Sleeping;
      var s' := s.(tasks := s.tasks[k - 1 := Checking(false)], queueLock := Worker(k - 1));
      ReachByQueue(hash, start, s, LockQueue(k - 1), s');
      ReachByQueue(hash, start, s', Wait(k - 1), Idle(start, n, k));
    }
  }

  lemma IdleIsInit(hash: Hasher, start: Repo, n: nat)
    requires Closed(hash, start)
    ensures Init(hash, start, Idle(start, n, 0))
  {
    hide Closed;
  }

  // ---- one connection ------------------------------------------------------------------------------------

  /** How many parts of the one connection's stream have come. */
  function Parts(p: nat): map<nat, nat> {
    if p == 0 then map[] else map[0 := p]
  }

  /** A server whose worker 0 has one connection while the others sleep. */
  function Serving(repo: Repo, req: Request, queue: seq<nat>, queueLock: Owner, acceptor: Acceptor, task: Task,
                   others: nat, branchLock: Owner, parts: nat): State
  {
    State(queue, queueLock, acceptor, [task] + Sleeping(others), repo, branchLock, [req], Parts(parts), [0], map[], [])
  }

  lemma FirstTask(t: Task, t': Task, others: nat)
    ensures ([t] + Sleeping(others))[0] == t && ([t] + Sleeping(others))[0 := t'] == [t'] + Sleeping(others)
  {
  }

  lemma AllAsleep(others: nat)
    ensures Sleeping(others + 1) + seq(0, _ => Free) == [Waiting] + Sleeping(others)
  {
  }

  lemma WakeFirst(others: nat)
    ensures WakeAll([Waiting] + Sleeping(others), {0}) == [Awakened] + Sleeping(others)
    ensures {0} <= WaitingSet([Waiting] + Sleeping(others))
  {
  }

  lemma AcceptServing(repo: Repo, req: Request, others: nat)
    requires GoodRequest(req)
    ensures MainNext(Idle(repo, others + 1, others + 1), Accept(req),
                     Serving(repo, req, [], Nobody, HasNode, Waiting, others, Nobody, 0))
  {
    AllAsleep(others);
    hide Sleeping, WaitingSet, WakeAll, GoodRequest;
  }

  lemma LinkServing(repo: Repo, req: Request, others: nat)
    ensures MainNext(Serving(repo, req, [], Nobody, HasNode, Waiting, others, Nobody, 0), MainLock,
                     Serving(repo, req, [], Main, Linking, Waiting, others, Nobody, 0))
    ensures MainNext(Serving(repo, req, [], Main, Linking, Waiting, others, Nobody, 0), MainLink,
                     Serving(repo, req, [0], Main, Linked, Waiting, others, Nobody, 0))
  {
    hide Sleeping, WaitingSet, WakeAll, GoodRequest, Parts;
  }

  lemma SignalServing(repo: Repo, req: Request, others: nat)
    ensures MainNext(Serving(repo, req, [0], Main, Linked, Waiting, others, Nobody, 0), MainSignal({0}),
                     Serving(repo, req, [0], Main, Signalled, Awakened, others, Nobody, 0))
    ensures MainNext(Serving(repo, req, [0], Main, Signalled, Awakened, others, Nobody, 0), MainUnlock,
                     Serving(repo, req, [0], Nobody, Accepting, Awakened, others, Nobody, 0))
  {
    WakeFirst(others);
    hide Sleeping, WaitingSet, WakeAll, GoodRequest, Parts;
  }

  /** The client connects and worker 0 is woken up. */
  lemma ReachLinked(hash: Hasher, start: Repo, req: Request, others: nat)
    requires Closed(hash, start) && GoodRequest(req)
    ensures Reaches(hash, start, Serving(start, req, [0], Nobody, Accepting, Awakened, others, Nobody, 0))
  {
    hide *;
    ReachIdle(hash, start, others + 1, others + 1);
    AcceptServing(start, req, others);
    LinkServing(start, req, others);
    SignalServing(start, req, others);
    var s1 := Serving(start, req, [], Nobody, HasNode, Waiting, others, Nobody, 0);
    var s2 := Serving(start, req, [], Main, Linking, Waiting, others, Nobody, 0);
    var s3 := Serving(start, req, [0], Main, Linked, Waiting, others, Nobody, 0);
    var s4 := Serving(start, req, [0], Main, Signalled, Awakened, others, Nobody, 0);
    ReachByMain(hash, start, Idle(start, others + 1, others + 1), Accept(req), s1);
    ReachByMain(hash, start, s1, MainLock, s2);
    ReachByMain(hash, start, s2, MainLink, s3);
    ReachByMain(hash, start, s3, MainSignal({0}), s4);
    ReachByMain(hash, start, s4, MainUnlock, Serving(start, req, [0], Nobody, Accepting, Awakened, others, Nobody, 0));
  }

  lemma RelockServing(repo: Repo, req: Request, others: nat)
    ensures QueueNext(Serving(repo, req, [0], Nobody, Accepting, Awakened, others, Nobody, 0), Relock(0),
                      Serving(repo, req, [0], Worker(0), Accepting, Checking(true), others, Nobody, 0))
  {
    FirstTask(Awakened, Checking(true), others);
    hide Sleeping;
  }

  lemma TakeServing(repo: Repo, req: Request, others: nat)
    ensures QueueNext(Serving(repo, req, [0], Worker(0), Accepting, Checking(true), others, Nobody, 0), Take(0),
                      Serving(repo, req, [], Worker(0), Accepting, Leaving(0), others, Nobody, 0))
  {
    FirstTask(Checking(true), Leaving(0), others);
    hide Sleeping;
  }

  lemma UnlockServing(repo: Repo, req: Request, others: nat)
    ensures QueueNext(Serving(repo, req, [], Worker(0), Accepting, Leaving(0), others, Nobody, 0), UnlockQueue(0),
                      Serving(repo, req, [], Nobody, Accepting, Started(0), others, Nobody, 0))
  {
    FirstTask(Leaving(0), Started(0), others);
    hide Sleeping;
  }

  /** Worker 0 takes the connection. */
  lemma ReachStarted(hash: Hasher, start: Repo, req: Request, others: nat)
    requires Closed(hash, start) && GoodRequest(req)
    ensures Reaches(hash, start, Serving(start, req, [], Nobody, Accepting, Started(0), others, Nobody, 0))
  {
    hide *;
    ReachLinked(hash, start, req, others);
    RelockServing(start, req, others);
    TakeServing(start, req, others);
    UnlockServing(start, req, others);
    var s1 := Serving(start, req, [0], Nobody, Accepting, Awakened, others, Nobody, 0);
    var s2 := Serving(start, req, [0], Worker(0), Accepting, Checking(true), others, Nobody, 0);
    var s3 := Serving(start, req, [], Worker(0), Accepting, Leaving(0), others, Nobody, 0);
    ReachByQueue(hash, start, s1, Relock(0), s2);
    ReachByQueue(hash, start, s2, Take(0), s3);
    ReachByQueue(hash, start, s3, UnlockQueue(0),
                 Serving(start, req, [], Nobody, Accepting, Started(0), others, Nobody, 0));
  }

  lemma PartsGrow(p: nat)
    ensures Parts(p)[0 := p + 1] == Parts(p + 1)
    ensures (if 0 in Parts(p) then Parts(p)[0] else 0) == p
  {
  }

  lemma DeliverServing(repo: Repo, req: Request, others: nat, p: nat)
    ensures MainNext(Serving(repo, req, [], Nobody, Accepting, Started(0), others, Nobody, p), Deliver(0),
                     Serving(repo, req, [], Nobody, Accepting, Started(0), others, Nobody, p + 1))
  {
    PartsGrow(p);
    hide Sleeping, Parts, WaitingSet, WakeAll, GoodRequest;
  }

  /** The first parts of its stream come. */
  lemma {:induction false} ReachDelivered(hash: Hasher, start: Repo, req: Request, others: nat, p: nat)
    requires Closed(hash, start) && GoodRequest(req)
    ensures Reaches(hash, start, Serving(start, req, [], Nobody, Accepting, Started(0), others, Nobody, p))
  {
    hide *;
    if p == 0 {
      ReachStarted(hash, start, req, others);
    } else {
      ReachDelivered(hash, start, req, others, p - 1);
      DeliverServing(start, req, others, p - 1);
      ReachByMain(hash, start, Serving(start, req, [], Nobody, Accepting, Started(0), others, Nobody, p - 1),
                  Deliver(0),
                  Serving(start, req, [], Nobody, Accepting, Started(0), others, Nobody, p));
    }
  }

  // ---- inside handle_push -------------------------------------------------------------------------------

  /** The worker takes branch_lock. */
  lemma ReachLocked(hash: Hasher, start: Repo, req: Request, others: nat, p: nat)
    requires Closed(hash, start) && GoodRequest(req) && req.PushReq? && p >= 1
    ensures Reaches(hash, start, Serving(start, req, [], Nobody, Accepting, Locked(0), others, Worker(0), p))
  {
    ReachDelivered(hash, start, req, others, p);
    FirstTask(Started(0), WantBranch(0), others);
    FirstTask(WantBranch(0), Locked(0), others);
    PartsGrow(p);
    hide Reaches, Closed, GoodRequest, Sleeping, Parts, Head;
    var s1 := Serving(start, req, [], Nobody, Accepting, Started(0), others, Nobody, p);
    var s2 := Serving(start, req, [], Nobody, Accepting, WantBranch(0), others, Nobody, p);
    ReachByClient(hash, start, s1, Dispatch(0), s2);
    ReachByClient(hash, start, s2, LockBranch(0),
                  Serving(start, req, [], Nobody, Accepting, Locked(0), others, Worker(0), p));
  }

  lemma ReachAdmitted(hash: Hasher, start: Repo, req: Request, others: nat, p: nat)
    requires Closed(hash, start) && GoodRequest(req) && req.PushReq? && p >= 1
    requires !Rejects(start, req.branch, req.parent)
    ensures Reaches(hash, start, Serving(start, req, [], Nobody, Accepting, Admitted(0, Head(start, req.branch)),
                                         others, Worker(0), p))
  {
    hide Reaches, Closed, GoodRequest, Sleeping, Parts, Head, Rejects, OldEntries, Print, Digest, PutObject, ListFile;
    ReachLocked(hash, start, req, others, p);
    FirstTask(Locked(0), Admitted(0, Head(start, req.branch)), others);
    var s := Serving(start, req, [], Nobody, Accepting, Locked(0), others, Worker(0), p);
    ReachByPush(hash, start, s, Compare(0),
                Serving(start, req, [], Nobody, Accepting, Admitted(0, Head(start, req.branch)), others, Worker(0), p));
  }

  /** Repository and table after the first k files of a push. */
  function FilesIn(hash: Hasher, start: Repo, req: Request, k: nat): Repo
    requires req.PushReq? && k <= |req.files|
  {
    Repo(start.heads, PutFiles(hash, start.objects, req.files[..k]))
  }

  function TableAfter(hash: Hasher, start: Repo, req: Request, k: nat): seq<Entry>
    requires req.PushReq? && k <= |req.files|
  {
    Merge(OldEntries(start, Head(start, req.branch)), Listed(hash, req.files[..k]))
  }

  /** Worker 0 at work on a push, holding branch_lock. */
  function Working(repo: Repo, req: Request, task: Task, others: nat, p: nat): State {
    Serving(repo, req, [], Nobody, Accepting, task, others, Worker(0), p)
  }

  /** Worker 0 waits in recv for the header of file k. */
  function AtFile(hash: Hasher, start: Repo, req: Request, others: nat, p: nat, k: nat): State
    requires req.PushReq? && k <= |req.files|
  {
    Working(FilesIn(hash, start, req, k), req, Receiving(0, TableAfter(hash, start, req, k), k), others, p)
  }

  lemma NoFilesIn(hash: Hasher, start: Repo, req: Request)
    requires req.PushReq?
    ensures FilesIn(hash, start, req, 0) == start
    ensures TableAfter(hash, start, req, 0) == OldEntries(start, Head(start, req.branch))
  {
    hide OldEntries, Head;
    assert req.files[..0] == [];
  }

  /** The contents of the first k files do not collide with anything stored before them. */
  ghost predicate FilesFree(hash: Hasher, start: Repo, files: seq<PushFile>, k: nat) {
    forall f: nat :: f < k && f < |files| ==>
      NoCollision(hash, PutFiles(hash, start.objects, files[..f]), files[f].content)
  }

  lemma OneMoreStored(hash: Hasher, start: Repo, req: Request, k: nat)
    requires req.PushReq? && k < |req.files|
    ensures FilesIn(hash, start, req, k + 1) == PutObject(hash, FilesIn(hash, start, req, k), req.files[k].content)
  {
    hide Digest;
    assert req.files[..k + 1][..k] == req.files[..k];
  }

  lemma OneMoreListed(hash: Hasher, start: Repo, req: Request, k: nat)
    requires req.PushReq? && k < |req.files|
    ensures TableAfter(hash, start, req, k + 1) == ListFile(hash, TableAfter(hash, start, req, k), req.files[k])
  {
    hide OldEntries, Head, Upsert, Digest;
    assert Listed(hash, req.files[..k + 1])[..k] == Listed(hash, req.files[..k]);
  }

  lemma StoreStep(hash: Hasher, start: Repo, s: State, s': State)
    requires Reaches(hash, start, s) && PushNext(hash, s, StoreFile(0), s')
    requires Pushing(s, 0) && s.tasks[0].Receiving? && s.tasks[0].f < |s.arrivals[s.tasks[0].id].files|
    requires NoCollision(hash, s.repo.objects, s.arrivals[s.tasks[0].id].files[s.tasks[0].f].content)
    ensures Reaches(hash, start, s')
  {
    hide Reaches, PushNext, MainNext, QueueNext, ClientNext, NoCollision;
    ReachNext(hash, start, s, StoreFile(0), s');
  }

  lemma FreeAt(hash: Hasher, start: Repo, files: seq<PushFile>, n: nat, k: nat)
    requires FilesFree(hash, start, files, n) && k < n && k < |files|
    ensures NoCollision(hash, PutFiles(hash, start.objects, files[..k]), files[k].content)
  {
    hide NoCollision, PutFiles;
  }

  lemma StoreWorking(hash: Hasher, repo: Repo, req: Request, es: seq<Entry>, others: nat, p: nat, k: nat)
    requires req.PushReq? && k < |req.files| && k + 2 <= p
    ensures var s := Working(repo, req, Receiving(0, es, k), others, p);
            PushNext(hash, s, StoreFile(0),
                     Working(PutObject(hash, repo, req.files[k].content), req, Stored(0, es, k), others, p))
  {
    FirstTask(Receiving(0, es, k), Stored(0, es, k), others);
    PartsGrow(p);
    hide Sleeping, Parts, PutObject;
  }

  lemma EnterNext(hash: Hasher, s: State, w: nat)
    requires Pushing(s, w) && s.tasks[w].Stored? && s.tasks[w].f < |s.arrivals[s.tasks[w].id].files|
    ensures var t := s.tasks[w];
            PushNext(hash, s, EnterFile(w),
                     SetTask(s, w, Receiving(t.id, ListFile(hash, t.entries, s.arrivals[t.id].files[t.f]), t.f + 1)))
  {
    hide SetTask, ListFile, Rejects, Head, OldEntries, Print, Digest, PutObject, Decide, Came;
  }

  lemma EnterWorking(hash: Hasher, repo: Repo, req: Request, es: seq<Entry>, others: nat, p: nat, k: nat)
    requires req.PushReq? && k < |req.files|
    ensures PushNext(hash, Working(repo, req, Stored(0, es, k), others, p), EnterFile(0),
                     Working(repo, req, Receiving(0, ListFile(hash, es, req.files[k]), k + 1), others, p))
  {
    var s := Working(repo, req, Stored(0, es, k), others, p);
    FirstTask(Stored(0, es, k), Receiving(0, ListFile(hash, es, req.files[k]), k + 1), others);
    hide Sleeping, Parts, ListFile, PushNext;
    EnterNext(hash, s, 0);
  }

  lemma WorkingIs(repo: Repo, req: Request, task: Task, others: nat, p: nat)
    ensures var s := Working(repo, req, task, others, p);
            && s.repo == repo && s.arrivals == [req] && |s.tasks| == others + 1 && s.tasks[0] == task
  {
  }

  /** One more file comes, is stored and listed. */
  lemma ReachNextFile(hash: Hasher, start: Repo, req: Request, others: nat, p: nat, k: nat)
    requires req.PushReq? && k < |req.files| && k + 2 <= p
    requires Reaches(hash, start, AtFile(hash, start, req, others, p, k))
    requires NoCollision(hash, PutFiles(hash, start.objects, req.files[..k]), req.files[k].content)
    ensures Reaches(hash, start, AtFile(hash, start, req, others, p, k + 1))
  {
    hide Reaches, Working, TableAfter, PutObject, PushNext, ListFile, NoCollision, PutFiles;
    OneMoreStored(hash, start, req, k);
    OneMoreListed(hash, start, req, k);
    var es := TableAfter(hash, start, req, k);
    var repo, repo' := FilesIn(hash, start, req, k), FilesIn(hash, start, req, k + 1);
    StoreWorking(hash, repo, req, es, others, p, k);
    EnterWorking(hash, repo', req, es, others, p, k);
    WorkingIs(repo, req, Receiving(0, es, k), others, p);
    var s' := Working(repo', req, Stored(0, es, k), others, p);
    StoreStep(hash, start, AtFile(hash, start, req, others, p, k), s');
    ReachByPush(hash, start, s', EnterFile(0), AtFile(hash, start, req, others, p, k + 1));
  }

  lemma {:induction false} ReachFile(hash: Hasher, start: Repo, req: Request, others: nat, p: nat, k: nat)
    requires Closed(hash, start) && GoodRequest(req) && req.PushReq? && !Rejects(start, req.branch, req.parent)
    requires k <= |req.files| && k < p && FilesFree(hash, start, req.files, k)
    ensures Reaches(hash, start, AtFile(hash, start, req, others, p, k))
  {
    hide Reaches, Closed, GoodRequest, Rejects, AtFile, Serving, NoCollision, PutFiles;
    if k == 0 {
      ReachFirstFile(hash, start, req, others, p);
    } else {
      ReachFile(hash, start, req, others, p, k - 1);
      FreeAt(hash, start, req.files, k, k - 1);
      ReachNextFile(hash, start, req, others, p, k - 1);
    }
  }

  /** Holding the lock, worker 0 has compared the head; it loads the manifest. */
  lemma ReachFirstFile(hash: Hasher, start: Repo, req: Request, others: nat, p: nat)
    requires Closed(hash, start) && GoodRequest(req) && req.PushReq? && p >= 1
    requires !Rejects(start, req.branch, req.parent)
    ensures Reaches(hash, start, AtFile(hash, start, req, others, p, 0))
  {
    hide Reaches, Closed, GoodRequest, Sleeping, Parts, Head, Rejects, OldEntries, Print, Digest, PutObject, ListFile,
         FilesIn, TableAfter;
    NoFilesIn(hash, start, req);
    ReachAdmitted(hash, start, req, others, p);
    var head := Head(start, req.branch);
    FirstTask(Admitted(0, head), Receiving(0, OldEntries(start, head), 0), others);
    var s := Serving(start, req, [], Nobody, Accepting, Admitted(0, head), others, Worker(0), p);
    ReachByPush(hash, start, s, LoadOld(0), AtFile(hash, start, req, others, p, 0));
  }

  // ---- the stalled server --------------------------------------------------------------------------------

  lemma AtFileStalls(hash: Hasher, start: Repo, req: Request, others: nat, k: nat)
    requires req.PushReq? && k < |req.files|
    ensures Stalled(AtFile(hash, start, req, others, k + 1, k))
  {
    hide FilesIn, TableAfter;
    var s := AtFile(hash, start, req, others, k + 1, k);
    assert s.tasks[0] == Receiving(0, TableAfter(hash, start, req, k), k);
    assert Starved(s, 0);
  }

  /** A client that announces files and stops sending before all have come stalls the server, however
      many workers it has: it keeps branch_lock taken and its connection unanswered, with the files that
      came stored and the head where it was. */
  lemma SilentClientStalls(hash: Hasher, start: Repo, req: Request, workers: nat, k: nat) returns (s: State)
    requires Closed(hash, start) && GoodRequest(req) && req.PushReq? && !Rejects(start, req.branch, req.parent)
    requires workers >= 1 && k < |req.files| && FilesFree(hash, start, req.files, k)
    ensures Reaches(hash, start, s) && Stalled(s) && !CanStep(hash, s)
    ensures |s.tasks| == workers && s.branchLock == Worker(0)
    ensures s.arrivals == [req] && Came(s, 0) == k + 1 && 0 !in s.replies
    ensures s.repo == Repo(start.heads, PutFiles(hash, start.objects, req.files[..k]))
  {
    hide Reaches, CanStep, Closed, GoodRequest, Rejects, TableAfter, PutFiles, FilesFree, Stalled;
    s := AtFile(hash, start, req, workers - 1, k + 1, k);
    ReachFile(hash, start, req, workers - 1, k + 1, k);
    AtFileStalls(hash, start, req, workers - 1, k);
    StalledCannotStep(hash, s);
  }

  // ---- a sender that skips an entry -------------------------------------------------------------------------

  /** The push that the proxy announces when it skips entries: those it sends, and as many again as it
      skips, which do not come. */
  function Announced(es: seq<StatusEntry>, parent: string, missing: seq<PushFile>): Request {
    PushReq("main", parent, SentFiles(es) + missing)
  }

  lemma FitsBoth(a: seq<PushFile>, b: seq<PushFile>)
    requires AllFit(a) && AllFit(b)
    ensures AllFit(a + b)
  {
    hide Fits;
  }

  lemma RequestAfterLine(branch: string, count: nat, parent: string, body: string)
    requires GoodLine(branch, count, parent)
    ensures RequestOf(PushLine(branch, count, parent) + body) ==
            match DecodeFiles(count, body)
            case None => None
            case Some(read) => Some(PushReq(branch, parent, read.files))
  {
    hide DecodeLine, DecodeCommand, DecodeFiles, PushLine;
    LineReads(branch, count, parent, body);
  }

  /** If the missing files came behind what the proxy sends, the stream would be the announced push. */
  lemma AnnouncedIsRequest(es: seq<StatusEntry>, parent: string, missing: seq<PushFile>)
    requires FullyDelivered(es) && AllFit(SentFiles(es)) && AllFit(missing) && |SentFiles(es)| + |missing| == |es|
    requires IsWord(parent) && |parent| <= PARENT_MAX && |es| <= INT_MAX
    ensures RequestOf(Encode(es, parent) + EncodeFiles(missing)) == Some(Announced(es, parent, missing))
  {
    hide *;
    var files := SentFiles(es) + missing;
    EncodeIs(es, parent);
    EncodeSent(es);
    EncodeFilesSplit(SentFiles(es), missing);
    assert Encode(es, parent) + EncodeFiles(missing) == PushLine("main", |es|, parent) + EncodeFiles(files);
    FitsBoth(SentFiles(es), missing);
    MainLineIsGood(|es|, parent);
    RequestAfterLine("main", |es|, parent, EncodeFiles(files));
    DecodeAllFiles(files, "");
    assert EncodeFiles(files) + "" == EncodeFiles(files);
    AnnouncedIs(es, parent, missing);
  }

  lemma AnnouncedIs(es: seq<StatusEntry>, parent: string, missing: seq<PushFile>)
    ensures Announced(es, parent, missing) == PushReq("main", parent, SentFiles(es) + missing)
  {
  }

  lemma AnnouncedIsGood(es: seq<StatusEntry>, parent: string, missing: seq<PushFile>)
    requires FullyDelivered(es) && AllFit(SentFiles(es)) && AllFit(missing) && |SentFiles(es)| + |missing| == |es|
    requires IsWord(parent) && |parent| <= PARENT_MAX && |es| <= INT_MAX
    ensures GoodRequest(Announced(es, parent, missing))
  {
    hide Announced, RequestOf, GoodRequest, Serve, Attempt, PullReply;
    AnnouncedIsRequest(es, parent, missing);
    ServeIsRequest(h => seq(40, _ => '0'), Repo(map[], map[]), Encode(es, parent) + EncodeFiles(missing), Fine);
  }

  lemma SentFront(es: seq<StatusEntry>, missing: seq<PushFile>, f: nat)
    requires f <= |SentFiles(es)|
    ensures (SentFiles(es) + missing)[..f] == SentFiles(es)[..f]
  {
    hide SentFiles;
  }

  lemma FreeFront(hash: Hasher, start: Repo, es: seq<StatusEntry>, missing: seq<PushFile>)
    requires FilesFree(hash, start, SentFiles(es), |SentFiles(es)|)
    ensures FilesFree(hash, start, SentFiles(es) + missing, |SentFiles(es)|)
  {
    hide NoCollision, PutFiles, SentFiles;
    var files := SentFiles(es) + missing;
    forall f: nat | f < |SentFiles(es)| && f < |files|
      ensures NoCollision(hash, PutFiles(hash, start.objects, files[..f]), files[f].content)
    {
      SentFront(es, missing, f);
    }
  }

  /** What becomes of a push with a skipped entry while the proxy keeps its connection open and waits
      for the reply: the server takes in all that is sent and stalls, with branch_lock held. */
  lemma SkippedEntryStalls(hash: Hasher, start: Repo, es: seq<StatusEntry>, parent: string, missing: seq<PushFile>,
                           workers: nat) returns (s: State)
    requires FullyDelivered(es) && AllFit(SentFiles(es)) && AllFit(missing) && |SentFiles(es)| + |missing| == |es|
    requires IsWord(parent) && |parent| <= PARENT_MAX && |es| <= INT_MAX
    requires !NoneSkipped(es) && workers >= 1
    requires Closed(hash, start) && !Rejects(start, "main", parent)
    requires FilesFree(hash, start, SentFiles(es), |SentFiles(es)|)
    ensures Reaches(hash, start, s) && Stalled(s) && !CanStep(hash, s)
    ensures |s.tasks| == workers && s.branchLock == Worker(0)
    ensures s.arrivals == [Announced(es, parent, missing)] && Came(s, 0) == |SentFiles(es)| + 1 && 0 !in s.replies
    ensures s.repo == Repo(start.heads, PutFiles(hash, start.objects, SentFiles(es)))
  {
    hide Reaches, Stalled, CanStep, Came, GoodRequest, AllFit, FilesFree, Rejects, Closed, PutFiles, SentFiles, Encode,
         FullyDelivered;
    SentCount(es);
    AnnouncedIsGood(es, parent, missing);
    FreeFront(hash, start, es, missing);
    SentFront(es, missing, |SentFiles(es)|);
    assert SentFiles(es)[..|SentFiles(es)|] == SentFiles(es);
    s := SilentClientStalls(hash, start, Announced(es, parent, missing), workers, |SentFiles(es)|);
  }
}
