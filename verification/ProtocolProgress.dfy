/** Progress: exactly when the program itself cannot go on. */
module ProtocolProgress {
  import opened Manifest
  import opened Store
  import opened Protocol
  import opened ProtocolQueue
  import opened ProtocolPush
  import opened ProtocolStore
  import opened ProtocolHistory
  import opened ProtocolRuns

  /** A step of the program itself: no new connection, no bytes from the network, no spurious wakeup. */
  predicate ByProgram(step: Step) {
    !step.Accept? && !step.Deliver? && !step.Spurious?
  }

  ghost predicate Steps(hash: Hasher, s: State, step: Step, s': State) {
    ByProgram(step) && Next(hash, s, step, s')
  }

  ghost predicate CanStep(hash: Hasher, s: State) {
    exists step, s' :: Steps(hash, s, step, s')
  }

  /** Worker w is in recv and its client has sent nothing more. */
  predicate Starved(s: State, w: nat) {
    w < |s.tasks| &&
    if s.tasks[w].Started? then Came(s, s.tasks[w].id) < 1
    else
      && s.tasks[w].Receiving? && Pushing(s, w)
      && s.tasks[w].f < |s.arrivals[s.tasks[w].id].files| && Came(s, s.tasks[w].id) < s.tasks[w].f + 2
  }

  /** Worker w waits for its client, or for branch_lock, whose holder waits for its client. */
  predicate Blocked(s: State, w: nat) {
    || Starved(s, w)
    || (w < |s.tasks| && s.tasks[w].WantBranch? && s.branchLock.Worker? && Starved(s, s.branchLock.w))
  }

  /** The main thread is in accept, and every worker sleeps on the queue or is blocked. */
  ghost predicate Stalled(s: State) {
    && s.queueLock.Nobody? && s.acceptor.Accepting?
    && forall w: nat :: w < |s.tasks| ==> s.tasks[w].Waiting? || Blocked(s, w)
  }

  // ---- a step that is not blocked can be taken ---------------------------------------------------

  lemma LockedCanStep(hash: Hasher, s: State, w: nat) returns (step: Step, s': State)
    requires Pushing(s, w) && s.tasks[w].Locked?
    ensures Steps(hash, s, step, s')
  {
    hide Rejects, Head, MainNext, QueueNext, ClientNext;
    var id := s.tasks[w].id;
    var req := s.arrivals[id];
    step := Compare(w);
    s' := if Rejects(s.repo, req.branch, req.parent) then Decide(s, w, id, Fine, Conflict)
          else SetTask(s, w, Admitted(id, Head(s.repo, req.branch)));
  }

  lemma AdmittedCanStep(hash: Hasher, s: State, w: nat) returns (step: Step, s': State)
    requires Pushing(s, w) && s.tasks[w].Admitted?
    ensures Steps(hash, s, step, s')
  {
    hide OldEntries, MainNext, QueueNext, ClientNext;
    step, s' := LoadOld(w), SetTask(s, w, Receiving(s.tasks[w].id, OldEntries(s.repo, s.tasks[w].head), 0));
  }

  lemma ReceivingCanStep(hash: Hasher, s: State, w: nat) returns (step: Step, s': State)
    requires Pushing(s, w) && s.tasks[w].Receiving? && s.tasks[w].f < |s.arrivals[s.tasks[w].id].files|
    requires Came(s, s.tasks[w].id) >= s.tasks[w].f + 2
    ensures Steps(hash, s, step, s')
  {
    hide PutObject, MainNext, QueueNext, ClientNext;
    var t := s.tasks[w];
    step := StoreFile(w);
    s' := SetTask(s, w, Stored(t.id, t.entries, t.f))
          .(repo := PutObject(hash, s.repo, s.arrivals[t.id].files[t.f].content));
  }

  lemma StoredCanStep(hash: Hasher, s: State, w: nat) returns (step: Step, s': State)
    requires Pushing(s, w) && s.tasks[w].Stored? && s.tasks[w].f < |s.arrivals[s.tasks[w].id].files|
    ensures Steps(hash, s, step, s')
  {
    hide ListFile, MainNext, QueueNext, ClientNext, Rejects, Head, OldEntries, Print, Digest, PutObject, Decide, Came;
    var t := s.tasks[w];
    var entries := ListFile(hash, t.entries, s.arrivals[t.id].files[t.f]);
    step, s' := EnterFile(w), SetTask(s, w, Receiving(t.id, entries, t.f + 1));
  }

  lemma ReceivedCanStep(hash: Hasher, s: State, w: nat) returns (step: Step, s': State)
    requires Pushing(s, w) && s.tasks[w].Receiving? && s.tasks[w].f == |s.arrivals[s.tasks[w].id].files|
    ensures Steps(hash, s, step, s')
  {
    hide Print, PutObject, MainNext, QueueNext, ClientNext;
    var t := s.tasks[w];
    step := StoreManifest(w);
    s' := SetTask(s, w, ManifestStored(t.id, t.entries)).(repo := PutObject(hash, s.repo, Print(t.entries)));
  }

  lemma ManifestCanStep(hash: Hasher, s: State, w: nat) returns (step: Step, s': State)
    requires Pushing(s, w) && s.tasks[w].ManifestStored?
    ensures Steps(hash, s, step, s')
  {
    hide Print, Digest, MainNext, QueueNext, ClientNext;
    var t := s.tasks[w];
    var h := Digest(hash, Print(t.entries));
    step := MoveHead(w);
    s' := Decide(s, w, t.id, Fine, Accepted(h))
          .(repo := s.repo.(heads := s.repo.heads[s.arrivals[t.id].branch := h]));
  }

  lemma HolderTask(hash: Hasher, start: Repo, s: State, w: nat)
    requires RefInv(hash, start, s) && w < |s.tasks| && HoldsBranch(s.tasks[w])
    ensures InPush(s.tasks[w]) ==> Pushing(s, w)
    ensures s.tasks[w].Receiving? ==> s.tasks[w].f <= |s.arrivals[s.tasks[w].id].files|
    ensures s.tasks[w].Stored? ==> s.tasks[w].f < |s.arrivals[s.tasks[w].id].files|
  {
    hide Replay, LogGood, FilesDone, Rejects, Print;
    assert TaskMid(hash, Replay(hash, start, s.log), s, w);
  }

  lemma FinishingCanStep(hash: Hasher, s: State, w: nat) returns (step: Step, s': State)
    requires w < |s.tasks| && s.tasks[w].Finishing?
    ensures Steps(hash, s, step, s')
  {
    hide MainNext, QueueNext, PushNext;
    var t := s.tasks[w];
    step, s' := UnlockBranch(w), SetTask(s, w, Replying(t.id, t.reply)).(branchLock := Nobody);
  }

  /** The holder of branch_lock can step unless it waits for its client. */
  lemma PushCanStep(hash: Hasher, start: Repo, s: State, w: nat) returns (step: Step, s': State)
    requires RefInv(hash, start, s) && w < |s.tasks| && HoldsBranch(s.tasks[w])
    requires !Starved(s, w)
    ensures Steps(hash, s, step, s')
  {
    hide RefInv, Steps;
    HolderTask(hash, start, s, w);
    var t := s.tasks[w];
    if t.Finishing? {
      step, s' := FinishingCanStep(hash, s, w);
    } else if t.Locked? {
      step, s' := LockedCanStep(hash, s, w);
    } else if t.Admitted? {
      step, s' := AdmittedCanStep(hash, s, w);
    } else if t.Stored? {
      step, s' := StoredCanStep(hash, s, w);
    } else if t.ManifestStored? {
      step, s' := ManifestCanStep(hash, s, w);
    } else if t.f < |s.arrivals[t.id].files| {
      step, s' := ReceivingCanStep(hash, s, w);
    } else {
      step, s' := ReceivedCanStep(hash, s, w);
    }
  }

  lemma StartedCanStep(hash: Hasher, s: State, w: nat) returns (step: Step, s': State)
    requires w < |s.tasks| && s.tasks[w].Started? && s.tasks[w].id < |s.arrivals|
    requires Came(s, s.tasks[w].id) >= 1
    ensures Steps(hash, s, step, s')
  {
    hide Head, MainNext, QueueNext, PushNext;
    var id := s.tasks[w].id;
    var req := s.arrivals[id];
    if req.PushReq? {
      step, s' := Dispatch(w), SetTask(s, w, WantBranch(id));
    } else {
      step := ReadHead(w);
      s' := SetTask(s, w,
        if req.BadReq? then Replying(id, Invalid)
        else if Head(s.repo, req.branch) == "" then Replying(id, NoCommits)
        else HeadRead(id, Head(s.repo, req.branch), |s.log|));
    }
  }

  lemma HeadReadCanStep(hash: Hasher, s: State, w: nat) returns (step: Step, s': State)
    requires w < |s.tasks| && s.tasks[w].HeadRead?
    ensures Steps(hash, s, step, s')
  {
    hide ObjectReply, MainNext, QueueNext, PushNext;
    var t := s.tasks[w];
    step, s' := ReadObject(w), SetTask(s, w, Replying(t.id, ObjectReply(s.repo, t.head)));
  }

  lemma ReplyingCanStep(hash: Hasher, s: State, w: nat) returns (step: Step, s': State)
    requires w < |s.tasks| && s.tasks[w].Replying?
    ensures Steps(hash, s, step, s')
  {
    hide MainNext, QueueNext, PushNext;
    step, s' := SendReply(w), SetTask(s, w, Free).(replies := s.replies[s.tasks[w].id := s.tasks[w].reply]);
  }

  /** A worker with a connection can step, or the holder of branch_lock can, unless it is blocked. */
  lemma ClientCanStep(hash: Hasher, start: Repo, s: State, w: nat) returns (step: Step, s': State)
    requires RefInv(hash, start, s) && LockInv(s) && IdsArrived(s) && w < |s.tasks| && HasClient(s.tasks[w])
    requires !Blocked(s, w)
    ensures Steps(hash, s, step, s')
  {
    hide RefInv, MainNext, PushNext;
    var t := s.tasks[w];
    if HoldsBranch(t) {
      step, s' := PushCanStep(hash, start, s, w);
    } else if t.WantBranch? && s.branchLock.Worker? {
      step, s' := PushCanStep(hash, start, s, s.branchLock.w);
    } else if t.WantBranch? {
      step, s' := LockBranch(w), SetTask(s, w, Locked(t.id)).(branchLock := Worker(w));
    } else if t.Leaving? {
      step, s' := UnlockQueue(w), SetTask(s, w, Started(t.id)).(queueLock := Nobody);
    } else if t.Started? {
      step, s' := StartedCanStep(hash, s, w);
    } else if t.HeadRead? {
      step, s' := HeadReadCanStep(hash, s, w);
    } else {
      step, s' := ReplyingCanStep(hash, s, w);
    }
  }

  /** The thread inside the queue's critical section can step. */
  lemma QueueHolderCanStep(hash: Hasher, s: State) returns (step: Step, s': State)
    requires LockInv(s) && !s.queueLock.Nobody?
    requires s.acceptor.Linking? ==> |s.arrivals| > 0
    ensures Steps(hash, s, step, s')
  {
    hide ClientNext, PushNext;
    if s.queueLock.Worker? {
      var w := s.queueLock.w;
      var t := s.tasks[w];
      if t.Leaving? {
        step, s' := UnlockQueue(w), SetTask(s, w, Started(t.id)).(queueLock := Nobody);
      } else if s.queue == [] {
        step, s' := Wait(w), SetTask(s, w, Waiting).(queueLock := Nobody);
      } else {
        step, s' := Take(w), SetTask(s, w, Leaving(s.queue[0])).(queue := s.queue[1..]);
      }
    } else if s.acceptor.Linking? {
      step, s' := MainLink, s.(acceptor := Linked, queue := s.queue + [|s.arrivals| - 1]);
    } else if s.acceptor.Linked? {
      var all := WaitingSet(s.tasks);
      step, s' := MainSignal(all), s.(acceptor := Signalled, tasks := WakeAll(s.tasks, all));
    } else {
      step, s' := MainUnlock, s.(acceptor := Accepting, queueLock := Nobody);
    }
  }

  /** With queue_lock free, a worker without a connection that does not sleep can go for the queue. */
  lemma IdleCanStep(hash: Hasher, s: State, w: nat) returns (step: Step, s': State)
    requires LockInv(s) && s.queueLock.Nobody?
    requires w < |s.tasks| && !s.tasks[w].Waiting? && !HasClient(s.tasks[w])
    ensures Steps(hash, s, step, s')
  {
    hide ClientNext, PushNext, MainNext;
    if s.tasks[w].Free? {
      step, s' := LockQueue(w), SetTask(s, w, Checking(false)).(queueLock := Worker(w));
    } else {
      step, s' := Relock(w), SetTask(s, w, Checking(true)).(queueLock := Worker(w));
    }
  }

  lemma UnstalledCanStep(hash: Hasher, start: Repo, s: State) returns (step: Step, s': State)
    requires QueueInv(s) && RefInv(hash, start, s) && !Stalled(s)
    ensures Steps(hash, s, step, s')
  {
    hide Steps, RefInv, LockInv, WakeupInv, IdsArrived, Blocked;
    OwnersArrived(s);
    FifoArrived(s);
    if !s.queueLock.Nobody? {
      step, s' := QueueHolderCanStep(hash, s);
    } else if s.acceptor.HasNode? {
      step, s' := MainLock, s.(acceptor := Linking, queueLock := Main);
      HasNodeCanLock(hash, s);
    } else {
      FreeMeansAccepting(s);
      var w: nat :| w < |s.tasks| && !s.tasks[w].Waiting? && !Blocked(s, w);
      if HasClient(s.tasks[w]) {
        step, s' := ClientCanStep(hash, start, s, w);
      } else {
        step, s' := IdleCanStep(hash, s, w);
      }
    }
  }

  lemma FifoArrived(s: State)
    requires FifoInv(s)
    ensures s.acceptor.HasNode? || s.acceptor.Linking? ==> |s.arrivals| > 0
  {
  }

  lemma FreeMeansAccepting(s: State)
    requires LockInv(s) && s.queueLock.Nobody? && !s.acceptor.HasNode?
    ensures s.acceptor.Accepting?
  {
  }

  lemma HasNodeCanLock(hash: Hasher, s: State)
    requires s.acceptor.HasNode? && s.queueLock.Nobody?
    ensures Steps(hash, s, MainLock, s.(acceptor := Linking, queueLock := Main))
  {
    hide QueueNext, ClientNext, PushNext;
  }

  // ---- a stalled state has no step of the program --------------------------------------------------

  lemma StalledQueue(s: State, step: Step, s': State)
    requires Stalled(s) && ByProgram(step)
    ensures !MainNext(s, step, s') && !QueueNext(s, step, s')
  {
  }

  lemma StalledClient(s: State, step: Step, s': State)
    requires Stalled(s) && ByProgram(step)
    ensures !ClientNext(s, step, s')
  {
    hide Head, ObjectReply;
  }

  /** A worker of a stalled server that is inside handle_push waits for a file. */
  lemma StalledTask(s: State, w: nat)
    requires Stalled(s) && Pushing(s, w)
    ensures s.tasks[w].Receiving? && s.tasks[w].f < |s.arrivals[s.tasks[w].id].files|
    ensures Came(s, s.tasks[w].id) < s.tasks[w].f + 2
  {
    hide Came;
  }

  lemma StalledPush(hash: Hasher, s: State, step: Step, s': State)
    requires Stalled(s) && ByProgram(step)
    ensures !PushNext(hash, s, step, s')
  {
    hide Stalled, Came, Rejects, Head, OldEntries, ListFile, Print, Digest, PutObject, Decide, SetTask, InPush;
    if PushNext(hash, s, step, s') {
      StalledTask(s, step.w);
    }
  }

  lemma StalledCannotStep(hash: Hasher, s: State)
    requires Stalled(s)
    ensures !CanStep(hash, s)
  {
    hide Stalled, MainNext, QueueNext, ClientNext, PushNext;
    forall step, s' | ByProgram(step)
      ensures !Next(hash, s, step, s')
    {
      StalledQueue(s, step, s');
      StalledClient(s, step, s');
      StalledPush(hash, s, step, s');
    }
  }

  // ---- the exact statement ---------------------------------------------------------------------------

  lemma BlockedTask(s: State, w: nat)
    requires Blocked(s, w)
    ensures w < |s.tasks| && (s.tasks[w].Started? || s.tasks[w].Receiving? || s.tasks[w].WantBranch?)
    ensures exists v: nat :: Starved(s, v)
  {
  }

  lemma NoneWoken(s: State)
    requires Stalled(s)
    ensures WokenSet(s.tasks) == {}
  {
    hide Blocked;
    forall w: nat | w < |s.tasks|
      ensures !s.tasks[w].Awakened? && !s.tasks[w].Checking?
    {
      if Blocked(s, w) {
        BlockedTask(s, w);
      }
    }
  }

  lemma StalledShape(s: State)
    requires QueueInv(s) && Stalled(s)
    ensures s.queue == [] || forall w: nat :: w < |s.tasks| ==> Blocked(s, w)
  {
    hide Blocked, LockInv, FifoInv, OwnerInv;
    NoneWoken(s);
    if s.queue != [] {
      assert WaitingSet(s.tasks) == {};
      forall w: nat | w < |s.tasks|
        ensures Blocked(s, w)
      {
        NotIn(s.tasks, w);
      }
    }
  }

  lemma UnansweredIsBlocked(s: State, id: nat)
    requires QueueInv(s) && Stalled(s) && |s.tasks| > 0 && id < |s.arrivals| && id !in s.replies
    ensures exists w: nat :: Starved(s, w)
  {
    StalledShape(s);
    hide Blocked, LockInv, WakeupInv;
    if id < TakenCount(s) {
      var w: nat :| Holds(s, w, id);
      BlockedTask(s, w);
    } else {
      assert s.queue != [];
      BlockedTask(s, 0);
    }
  }

  /** The program can go on unless every worker that holds a connection waits for bytes of its
      client, or for branch_lock held by such a worker, while all others sleep on the queue and the
      main thread waits for a connection.  Then the queue is empty or no worker is left; and a
      connection that is still unanswered means that some client keeps its worker waiting. */
  lemma StallsOnlyOnClients(hash: Hasher, start: Repo, states: seq<State>, steps: seq<Step>, i: nat)
    requires IsRun(hash, start, states, steps) && i < |states|
    ensures var s := states[i];
            && (!CanStep(hash, s) <==> Stalled(s))
            && (Stalled(s) ==> s.queue == [] || forall w: nat :: w < |s.tasks| ==> Blocked(s, w))
            && (Stalled(s) && |s.tasks| > 0 && (exists id: nat :: id < |s.arrivals| && id !in s.replies) ==>
                  exists w: nat :: Starved(s, w))
  {
    var s := states[i];
    hide IsRun, StoreInv, BookInv, HistoryInv, PullInv, RefInv, QueueInv, Stalled, Blocked, Starved, Steps;
    InvRun(hash, start, states, steps, i);
    if Stalled(s) {
      StalledCannotStep(hash, s);
      StalledShape(s);
      if id: nat :| id < |s.arrivals| && id !in s.replies && |s.tasks| > 0 {
        UnansweredIsBlocked(s, id);
      }
    } else {
      var step, s' := UnstalledCanStep(hash, start, s);
    }
  }
}
