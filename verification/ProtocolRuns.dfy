/** What holds in every reachable state and over every run of the server. */
module ProtocolRuns {
  import opened Manifest
  import opened Store
  import opened Protocol
  import opened ProtocolQueue
  import opened ProtocolPush
  import opened ProtocolStore
  import opened ProtocolHistory

  ghost predicate Inv(hash: Hasher, start: Repo, s: State) {
    && QueueInv(s) && RefInv(hash, start, s) && StoreInv(hash, s)
    && BookInv(s) && HistoryInv(hash, start, s) && PullInv(hash, start, s)
  }

  lemma InvInit(hash: Hasher, start: Repo, s: State)
    requires Init(hash, start, s)
    ensures Inv(hash, start, s)
  {
    hide Closed;
    GrowsSame(s.repo.objects);
  }

  lemma MainKeepsRepo(s: State, step: Step, s': State)
    requires MainNext(s, step, s')
    ensures s'.log == s.log && s'.repo == s.repo
  {
    hide WaitingSet;
  }

  lemma QueueKeepsRepo(s: State, step: Step, s': State)
    requires QueueNext(s, step, s')
    ensures s'.log == s.log && s'.repo == s.repo
  {
  }

  lemma InvMain(hash: Hasher, start: Repo, s: State, step: Step, s': State)
    requires Inv(hash, start, s) && MainNext(s, step, s')
    ensures RefInv(hash, start, s') && StoreInv(hash, s') && BookInv(s')
    ensures HistoryInv(hash, start, s') && PullInv(hash, start, s')
  {
    hide MainNext, LockInv, FifoInv, WakeupInv, OwnerInv, RefInv, StoreInv, BookInv, HistoryInv, PullInv, IdsArrived,
         Grows;
    MainKeepsRepo(s, step, s');
    OwnersArrived(s);
    GrowsSame(s.repo.objects);
    RefMain(hash, start, s, step, s'); StoreMain(hash, s, step, s'); BookMain(s, step, s');
    HistoryQuiet(hash, start, s, s'); PullMain(hash, start, s, step, s');
  }

  lemma InvQueueStep(hash: Hasher, start: Repo, s: State, step: Step, s': State)
    requires Inv(hash, start, s) && QueueNext(s, step, s')
    ensures RefInv(hash, start, s') && StoreInv(hash, s') && BookInv(s')
    ensures HistoryInv(hash, start, s') && PullInv(hash, start, s')
  {
    hide QueueNext, LockInv, FifoInv, WakeupInv, OwnerInv, RefInv, StoreInv, BookInv, HistoryInv, PullInv, IdsArrived,
         Grows;
    QueueKeepsRepo(s, step, s');
    OwnersArrived(s);
    GrowsSame(s.repo.objects);
    RefQueueStep(hash, start, s, step, s'); StoreQueueStep(hash, s, step, s'); BookQueueStep(s, step, s');
    HistoryQuiet(hash, start, s, s'); PullQueueStep(hash, start, s, step, s');
  }

  lemma PullIsPull(hash: Hasher, start: Repo, s: State, w: nat)
    requires PullInv(hash, start, s)
    ensures PullTask(s, w)
  {
    hide Past;
    assert w < |s.tasks| && s.tasks[w].HeadRead? ==> PullReading(hash, start, s, w);
  }

  lemma ClientKeepsRepo(s: State, step: Step, s': State)
    requires ClientNext(s, step, s')
    ensures s'.log == s.log && s'.repo == s.repo
  {
    hide Head;
  }

  lemma InvClient(hash: Hasher, start: Repo, s: State, step: Step, s': State)
    requires Inv(hash, start, s) && ClientNext(s, step, s')
    ensures RefInv(hash, start, s') && StoreInv(hash, s') && BookInv(s')
    ensures HistoryInv(hash, start, s') && PullInv(hash, start, s')
  {
    hide ClientNext, LockInv, FifoInv, WakeupInv, OwnerInv, RefInv, StoreInv, BookInv, HistoryInv, PullInv, IdsArrived,
         Grows, PullTask;
    ClientKeepsRepo(s, step, s');
    OwnersArrived(s);
    GrowsSame(s.repo.objects);
    if step.ReadObject? {
      PullIsPull(hash, start, s, step.w);
    }
    RefClient(hash, start, s, step, s'); StoreClient(hash, s, step, s'); BookClient(s, step, s');
    HistoryQuiet(hash, start, s, s'); PullClient(hash, start, s, step, s');
  }

  /** After the deciding step the repository is exactly what the atomic pushes leave. */
  lemma DecidedIsReplay(hash: Hasher, start: Repo, s: State, w: nat)
    requires RefInv(hash, start, s) && w < |s.tasks| && s.tasks[w].Finishing?
    ensures s.repo == Replay(hash, start, s.log)
  {
    hide Replay, LogGood, MidPush;
    var spec := Replay(hash, start, s.log);
    assert TaskMid(hash, spec, s, w);
    MidEnds(hash, spec, s.repo, s.arrivals[s.tasks[w].id], s.tasks[w]);
  }

  lemma HistoryPush(hash: Hasher, start: Repo, s: State, step: Step, s': State)
    requires HistoryInv(hash, start, s) && PushNext(hash, s, step, s') && Grows(s.repo.objects, s'.repo.objects)
    requires RefInv(hash, start, s') && StoreInv(hash, s')
    ensures HistoryInv(hash, start, s')
  {
    hide PushNext, HistoryInv, RefInv, QuietPush, Closed, TaskStored, Grows, Replay;
    var w, decided, e := PushEffect(hash, s, step, s');
    if decided {
      DecidedIsReplay(hash, start, s', w);
      HistoryDecide(hash, start, s, s', e);
    } else {
      QuietLog(s, w, s');
      HistoryQuiet(hash, start, s, s');
    }
  }

  lemma QuietLog(s: State, w: nat, s': State)
    requires QuietPush(s, w, s')
    ensures s'.log == s.log
  {
  }

  lemma InvPush(hash: Hasher, start: Repo, s: State, step: Step, s': State)
    requires Inv(hash, start, s) && PushNext(hash, s, step, s') && CollisionFree(hash, s, step)
    ensures RefInv(hash, start, s') && StoreInv(hash, s') && BookInv(s')
    ensures HistoryInv(hash, start, s') && PullInv(hash, start, s')
  {
    hide PushNext, LockInv, FifoInv, WakeupInv, OwnerInv, RefInv, StoreInv, BookInv, HistoryInv, PullInv, Grows,
         CollisionFree;
    RefPush(hash, start, s, step, s'); StorePush(hash, s, step, s'); BookPush(hash, s, step, s');
    HistoryPush(hash, start, s, step, s'); PullPush(hash, start, s, step, s');
  }

  lemma InvNext(hash: Hasher, start: Repo, s: State, step: Step, s': State)
    requires Inv(hash, start, s) && Next(hash, s, step, s') && CollisionFree(hash, s, step)
    ensures Inv(hash, start, s')
  {
    hide MainNext, QueueNext, ClientNext, PushNext, QueueInv, RefInv, StoreInv, BookInv, HistoryInv, PullInv,
         CollisionFree;
    QueueInvNext(hash, s, step, s');
    if MainNext(s, step, s') {
      InvMain(hash, start, s, step, s');
    } else if QueueNext(s, step, s') {
      InvQueueStep(hash, start, s, step, s');
    } else if ClientNext(s, step, s') {
      InvClient(hash, start, s, step, s');
    } else {
      InvPush(hash, start, s, step, s');
    }
  }

  /** The invariant holds in every state of every run. */
  lemma {:induction false} InvRun(hash: Hasher, start: Repo, states: seq<State>, steps: seq<Step>, i: nat)
    requires IsRun(hash, start, states, steps) && i < |states|
    ensures Inv(hash, start, states[i])
  {
    hide Init, Next, Inv, CollisionFree;
    if i == 0 {
      InvInit(hash, start, states[0]);
    } else {
      InvRun(hash, start, states, steps, i - 1);
      InvNext(hash, start, states[i - 1], steps[i - 1], states[i]);
    }
  }

  // ---- refinement and closure -------------------------------------------------------------------

  /** The branch heads always are, and the whole repository is whenever branch_lock is free, what
      the logged pushes leave when each runs as one atomic step in the order of the lock. */
  lemma PushesAreAtomic(hash: Hasher, start: Repo, states: seq<State>, steps: seq<Step>, i: nat)
    requires IsRun(hash, start, states, steps) && i < |states|
    ensures var s := states[i];
            && s.repo.heads == Replay(hash, start, s.log).heads
            && (s.branchLock.Nobody? ==> s.repo == Replay(hash, start, s.log))
            && LogGood(hash, start, s.log)
            && (forall id: nat :: id in s.replies ==> AnswerLogged(s, id, s.replies[id]))
            && LogIds(s)
  {
    hide IsRun, Replay, LogGood, QueueInv, StoreInv, HistoryInv, PullInv, AnswerLogged, LogIds;
    InvRun(hash, start, states, steps, i);
  }

  /** In every reachable state, in the middle of a push too, the store is closed. */
  lemma StoreAlwaysClosed(hash: Hasher, start: Repo, states: seq<State>, steps: seq<Step>, i: nat)
    requires IsRun(hash, start, states, steps) && i < |states|
    ensures Closed(hash, states[i].repo)
  {
    hide IsRun, QueueInv, RefInv, BookInv, HistoryInv, PullInv, Closed, TaskStored;
    InvRun(hash, start, states, steps, i);
  }

  lemma RejectedInLog(hash: Hasher, start: Repo, log: seq<LogEntry>, i: nat)
    requires LogGood(hash, start, log) && i < |log|
    ensures log[i].req.PushReq?
    ensures log[i].reply == Conflict <==>
              Rejects(Past(hash, start, log, i), log[i].req.branch, log[i].req.parent)
    ensures log[i].reply == Conflict || log[i].reply == Dropped ==>
              Past(hash, start, log, i + 1) == Past(hash, start, log, i)
  {
    hide Print, NewEntries, PutFiles, Rejects;
    PastStep(hash, start, log, i);
    assert EntryGood(hash, start, log, i);
  }

  lemma PastStep(hash: Hasher, start: Repo, log: seq<LogEntry>, i: nat)
    requires i < |log|
    ensures Past(hash, start, log, i + 1) == Attempt(hash, Past(hash, start, log, i), log[i].req, log[i].luck).repo
  {
    hide Attempt;
    assert log[..i + 1][..i] == log[..i];
  }

  /** In every run, a push is answered with the conflict reply exactly when the head it finds is not
      empty and differs from its parent; a push that is rejected, or dropped for want of a buffer,
      leaves heads and objects as they were. */
  lemma RejectedChangesNothing(hash: Hasher, start: Repo, states: seq<State>, steps: seq<Step>, n: nat, i: nat)
    requires IsRun(hash, start, states, steps) && n < |states| && i < |states[n].log|
    ensures var log := states[n].log;
            && log[i].req.PushReq?
            && (log[i].reply == Conflict <==> Rejects(Past(hash, start, log, i), log[i].req.branch, log[i].req.parent))
            && (log[i].reply == Conflict || log[i].reply == Dropped ==>
                  Past(hash, start, log, i + 1) == Past(hash, start, log, i))
  {
    hide IsRun, LogGood, Replay, AnswerLogged, LogIds, Rejects, Past;
    PushesAreAtomic(hash, start, states, steps, n);
    RejectedInLog(hash, start, states[n].log, i);
  }

  /** Every answer to a PULL is the one it gets on the repository left by some number of complete
      pushes, at least those that were finished when its connection was accepted; if that repository
      has a head, the bytes hash to it and load as a good manifest. */
  lemma PullIsConsistent(hash: Hasher, start: Repo, states: seq<State>, steps: seq<Step>, i: nat, id: nat)
    requires IsRun(hash, start, states, steps) && i < |states|
    requires id in states[i].replies && ReqOf(states[i], id).PullReq?
    ensures var s := states[i];
            var reply := s.replies[id];
            && PullSeen(hash, start, s.log, Since(s, id), ReqOf(s, id).branch, reply)
            && (reply == NoCommits || (reply.Content? && GoodManifest(reply.bytes, s.repo.objects)))
  {
    hide IsRun, QueueInv, RefInv, BookInv, StoreInv, Past;
    InvRun(hash, start, states, steps, i);
    var s := states[i];
    var branch := ReqOf(s, id).branch;
    assert PullAnswer(hash, start, s, id, s.replies[id]);
    var k: nat :| Since(s, id) <= k <= |s.log| && s.replies[id] == PullReply(Past(hash, start, s.log, k), branch);
    PullOnClosed(hash, Past(hash, start, s.log, k), s.repo.objects, branch);
  }

  /** A connection whose line is no command is answered with the error and nothing else. */
  lemma BadIsInvalid(hash: Hasher, start: Repo, states: seq<State>, steps: seq<Step>, i: nat, id: nat)
    requires IsRun(hash, start, states, steps) && i < |states|
    requires id in states[i].replies && ReqOf(states[i], id) == BadReq
    ensures states[i].replies[id] == Invalid
  {
    hide IsRun, QueueInv, RefInv, BookInv, StoreInv, HistoryInv, SinceInv, PullSeen;
    InvRun(hash, start, states, steps, i);
    assert PullAnswer(hash, start, states[i], id, states[i].replies[id]);
  }

  lemma PullOnClosed(hash: Hasher, past: Repo, objects: map<string, string>, branch: string)
    requires Closed(hash, past) && Grows(past.objects, objects)
    ensures var reply := PullReply(past, branch);
            reply == NoCommits ||
            (reply.Content? && Digest(hash, reply.bytes) == Head(past, branch) && GoodManifest(reply.bytes, objects))
  {
    hide GoodManifest;
    if branch in past.heads {
      GoodManifestGrows(past.objects[past.heads[branch]], past.objects, objects);
    }
  }

  // ---- the work queue -----------------------------------------------------------------------------

  lemma SomeoneAwake(tasks: seq<Task>)
    requires |tasks| > 0 && (WaitingSet(tasks) == {} || |WokenSet(tasks)| > 0)
    ensures exists w: nat :: w < |tasks| && !tasks[w].Waiting?
  {
    if WaitingSet(tasks) == {} {
      assert 0 in WaitingSet(tasks) <==> tasks[0].Waiting?;
    } else {
      var w :| w in WokenSet(tasks);
      assert !tasks[w].Waiting?;
    }
  }

  /** A worker sleeps only while the queue is covered by workers already woken up. */
  lemma NoLostWakeup(hash: Hasher, start: Repo, states: seq<State>, steps: seq<Step>, i: nat)
    requires IsRun(hash, start, states, steps) && i < |states|
    ensures var s := states[i];
            && (WaitingSet(s.tasks) == {} || |s.queue| <= |WokenSet(s.tasks)| + if s.acceptor.Linked? then 1 else 0)
            && (s.queue != [] && !s.acceptor.Linked? && |s.tasks| > 0 ==>
                  exists w: nat :: w < |s.tasks| && !s.tasks[w].Waiting?)
  {
    hide IsRun, LockInv, FifoInv, OwnerInv, RefInv, StoreInv, BookInv, HistoryInv, PullInv;
    InvRun(hash, start, states, steps, i);
    var s := states[i];
    if s.queue != [] && !s.acceptor.Linked? && |s.tasks| > 0 {
      SomeoneAwake(s.tasks);
    }
  }

  /** Every accepted connection is with the acceptor, in the queue, with exactly one worker, or
      answered; the queue holds the linked ones in the order of acceptance. */
  lemma Conservation(hash: Hasher, start: Repo, states: seq<State>, steps: seq<Step>, i: nat, id: nat)
    requires IsRun(hash, start, states, steps) && i < |states| && id < |states[i].arrivals|
    ensures var s := states[i];
            && 0 <= TakenCount(s) <= LinkedCount(s)
            && (forall k :: 0 <= k < |s.queue| ==> s.queue[k] == TakenCount(s) + k)
            && (id >= TakenCount(s) ==> id !in s.replies && forall w: nat :: !Holds(s, w, id))
            && (id < TakenCount(s) && id in s.replies ==> forall w: nat :: !Holds(s, w, id))
            && (id < TakenCount(s) && id !in s.replies ==>
                  exists w: nat :: Holds(s, w, id) && forall v: nat :: Holds(s, v, id) ==> v == w)
  {
    hide IsRun, LockInv, WakeupInv, RefInv, StoreInv, BookInv, HistoryInv, PullInv;
    InvRun(hash, start, states, steps, i);
  }
}
