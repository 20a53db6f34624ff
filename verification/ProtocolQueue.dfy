/** Invariants of the work queue, its locks and its condition variable. */
module ProtocolQueue {
  import opened Manifest
  import opened Store
  import opened Protocol

  predicate HoldsQueue(t: Task) {
    t.Checking? || t.Leaving?
  }

  predicate HoldsBranch(t: Task) {
    InPush(t) || t.Finishing?
  }

  predicate HasClient(t: Task) {
    !t.Free? && !t.Checking? && !t.Waiting? && !t.Awakened?
  }

  predicate MainHoldsQueue(a: Acceptor) {
    a.Linking? || a.Linked? || a.Signalled?
  }

  /** Each lock is held exactly by the thread inside its critical section. */
  ghost predicate LockInv(s: State) {
    && (s.queueLock.Main? <==> MainHoldsQueue(s.acceptor))
    && (s.queueLock.Worker? ==> s.queueLock.w < |s.tasks|)
    && !s.branchLock.Main?
    && (s.branchLock.Worker? ==> s.branchLock.w < |s.tasks|)
    && (forall w: nat :: w < |s.tasks| ==> (HoldsQueue(s.tasks[w]) <==> s.queueLock == Worker(w)))
    && (forall w: nat :: w < |s.tasks| ==> (HoldsBranch(s.tasks[w]) <==> s.branchLock == Worker(w)))
  }

  /** Connections linked into the queue so far. */
  function LinkedCount(s: State): int {
    |s.arrivals| - if s.acceptor.HasNode? || s.acceptor.Linking? then 1 else 0
  }

  /** Connections taken out of the queue so far. */
  function TakenCount(s: State): int {
    LinkedCount(s) - |s.queue|
  }

  /** The queue holds the linked connections that are not taken yet, oldest first. */
  ghost predicate FifoInv(s: State) {
    && 0 <= TakenCount(s)
    && forall i :: 0 <= i < |s.queue| ==> s.queue[i] == TakenCount(s) + i
  }

  /** No lost wakeup. */
  ghost predicate WakeupInv(s: State) {
    WaitingSet(s.tasks) == {} ||
    |s.queue| <= |WokenSet(s.tasks)| + if s.acceptor.Linked? then 1 else 0
  }

  predicate Holds(s: State, w: nat, id: nat) {
    w < |s.tasks| && HasClient(s.tasks[w]) && s.tasks[w].id == id
  }

  /** A connection that was taken is answered or in the hands of exactly one worker. */
  ghost predicate OwnerInv(s: State) {
    && (forall w: nat, id: nat :: Holds(s, w, id) ==> id < TakenCount(s) && id !in s.replies)
    && (forall v: nat, w: nat, id: nat :: Holds(s, v, id) && Holds(s, w, id) ==> v == w)
    && (forall id: nat :: id in s.replies ==> id < TakenCount(s))
    && (forall id: nat :: id < TakenCount(s) ==> id in s.replies || exists w: nat :: Holds(s, w, id))
  }

  ghost predicate QueueInv(s: State) {
    LockInv(s) && FifoInv(s) && WakeupInv(s) && OwnerInv(s)
  }

  // ---- what a step of a worker changes ------------------------------------------------------

  ghost predicate OnlyTask(s: State, w: nat, s': State) {
    && w < |s.tasks| && |s'.tasks| == |s.tasks| && s'.tasks == s.tasks[w := s'.tasks[w]]
    && s'.acceptor == s.acceptor && s'.arrivals == s.arrivals
  }

  /** A lock is kept, taken when free, or released by its holder. */
  predicate LockMoves(lock: Owner, before: bool, lock': Owner, after: bool, w: nat) {
    || (lock' == lock && before == after)
    || (lock == Nobody && lock' == Worker(w) && !before && after)
    || (before && !after && lock' == Nobody)
  }

  /** A step of a worker that is handling a client. */
  ghost predicate BusyStep(s: State, w: nat, s': State) {
    && OnlyTask(s, w, s')
    && var t, t' := s.tasks[w], s'.tasks[w];
       && HasClient(t) && !t.Leaving? && !t'.Leaving? && !t'.Checking? && !t'.Waiting? && !t'.Awakened?
       && s'.queue == s.queue && s'.queueLock == s.queueLock
       && LockMoves(s.branchLock, HoldsBranch(t), s'.branchLock, HoldsBranch(t'), w)
       && if t'.Free? then t.Replying? && s'.replies == s.replies[t.id := t.reply]
          else t'.id == t.id && s'.replies == s.replies
  }

  lemma ClientIsBusy(s: State, step: Step, s': State) returns (w: nat)
    requires ClientNext(s, step, s')
    ensures BusyStep(s, w, s')
  {
    hide Head;
    match step
    case Dispatch(v) => w := v;
    case LockBranch(v) => w := v;
    case UnlockBranch(v) => w := v;
    case ReadHead(v) => w := v;
    case ReadObject(v) => w := v;
    case SendReply(v) => w := v;
  }

  /** Inside handle_push the lock is kept and the connection stays with the worker. */
  lemma InsidePush(s: State, w: nat, s': State, t': Task)
    requires w < |s.tasks| && InPush(s.tasks[w])
    requires InPush(t') || t'.Finishing?
    requires t'.id == s.tasks[w].id
    requires s'.tasks == s.tasks[w := t'] && s'.acceptor == s.acceptor && s'.arrivals == s.arrivals
    requires s'.queue == s.queue && s'.queueLock == s.queueLock && s'.branchLock == s.branchLock
    requires s'.replies == s.replies
    ensures BusyStep(s, w, s')
  {
  }

  lemma PushIsBusy(hash: Hasher, s: State, step: Step, s': State) returns (w: nat)
    requires PushNext(hash, s, step, s')
    ensures BusyStep(s, w, s')
  {
    hide Head, Rejects, OldEntries, ListFile, Print, PutObject, Digest, BusyStep;
    w := step.w;
    InsidePush(s, w, s', s'.tasks[w]);
  }

  // ---- locks ------------------------------------------------------------------------------

  lemma LockTask(s: State, w: nat, s': State)
    requires LockInv(s) && OnlyTask(s, w, s')
    requires LockMoves(s.queueLock, HoldsQueue(s.tasks[w]), s'.queueLock, HoldsQueue(s'.tasks[w]), w)
    requires LockMoves(s.branchLock, HoldsBranch(s.tasks[w]), s'.branchLock, HoldsBranch(s'.tasks[w]), w)
    ensures LockInv(s')
  {
    hide InPush, HoldsQueue, HoldsBranch, MainHoldsQueue;
  }

  lemma LockMain(s: State, step: Step, s': State)
    requires LockInv(s) && MainNext(s, step, s')
    ensures LockInv(s')
  {
  }

  lemma LockQueueStep(s: State, step: Step, s': State)
    requires LockInv(s) && QueueNext(s, step, s')
    ensures LockInv(s')
  {
    hide LockInv;
    match step
    case LockQueue(w) => LockTask(s, w, s');
    case Wait(w) => LockTask(s, w, s');
    case Spurious(w) => LockTask(s, w, s');
    case Relock(w) => LockTask(s, w, s');
    case Take(w) => LockTask(s, w, s');
    case UnlockQueue(w) => LockTask(s, w, s');
  }

  lemma LockBusy(s: State, w: nat, s': State)
    requires LockInv(s) && BusyStep(s, w, s')
    ensures LockInv(s')
  {
    hide LockInv;
    LockTask(s, w, s');
  }

  // ---- first in, first out ----------------------------------------------------------------

  lemma FifoMain(s: State, step: Step, s': State)
    requires FifoInv(s) && MainNext(s, step, s')
    ensures FifoInv(s')
  {
  }

  lemma FifoQueueStep(s: State, step: Step, s': State)
    requires FifoInv(s) && QueueNext(s, step, s')
    ensures FifoInv(s')
  {
  }

  lemma FifoBusy(s: State, w: nat, s': State)
    requires FifoInv(s) && BusyStep(s, w, s')
    ensures FifoInv(s')
  {
  }

  // ---- wakeups ----------------------------------------------------------------------------

  /** How the two sets follow a change of one task. */
  lemma SetsAfterTask(tasks: seq<Task>, w: nat, t: Task)
    requires w < |tasks|
    ensures WaitingSet(tasks[w := t]) == if t.Waiting? then WaitingSet(tasks) + {w} else WaitingSet(tasks) - {w}
    ensures WokenSet(tasks[w := t]) ==
            if t.Awakened? || t == Checking(true) then WokenSet(tasks) + {w} else WokenSet(tasks) - {w}
  {
  }

  lemma SetsAfterWake(tasks: seq<Task>, wake: set<nat>)
    requires wake <= WaitingSet(tasks)
    ensures WaitingSet(WakeAll(tasks, wake)) == WaitingSet(tasks) - wake
    ensures WokenSet(WakeAll(tasks, wake)) == WokenSet(tasks) + wake
    ensures |WokenSet(tasks) + wake| == |WokenSet(tasks)| + |wake|
  {
    assert WokenSet(tasks) !! wake;
  }

  lemma WakeupMain(s: State, step: Step, s': State)
    requires WakeupInv(s) && MainNext(s, step, s')
    ensures WakeupInv(s')
  {
    if step.MainSignal? {
      SetsAfterWake(s.tasks, step.wake);
      assert WaitingSet(s'.tasks) != {} ==> |step.wake| > 0;
    }
  }

  predicate Woken(t: Task) {
    t.Awakened? || t == Checking(true)
  }

  /** One task changes: going to sleep needs an empty queue, and a woken worker that has rechecked the
      queue either sleeps or takes a connection. */
  lemma WakeupTask(s: State, w: nat, s': State, t': Task)
    requires WakeupInv(s) && w < |s.tasks| && s'.tasks == s.tasks[w := t'] && s'.acceptor == s.acceptor
    requires t'.Waiting? ==> s'.queue == []
    requires |s'.queue| <= |s.queue|
    requires !t'.Waiting? && Woken(s.tasks[w]) && !Woken(t') ==> |s'.queue| < |s.queue|
    ensures WakeupInv(s')
  {
    hide WaitingSet, WokenSet;
    SetsAfterTask(s.tasks, w, t');
    NotIn(s.tasks, w);
    var woken := WokenSet(s.tasks);
    assert w !in woken ==> woken - {w} == woken;
    assert w in woken ==> woken + {w} == woken;
  }

  lemma WakeupQueueStep(s: State, step: Step, s': State)
    requires WakeupInv(s) && QueueNext(s, step, s')
    ensures WakeupInv(s')
  {
    hide WakeupInv;
    WakeupTask(s, step.w, s', s'.tasks[step.w]);
  }

  lemma NotIn(tasks: seq<Task>, w: nat)
    requires w < |tasks|
    ensures w in WaitingSet(tasks) <==> tasks[w].Waiting?
    ensures w in WokenSet(tasks) <==> tasks[w].Awakened? || tasks[w] == Checking(true)
  {
  }

  lemma WakeupBusy(s: State, w: nat, s': State)
    requires WakeupInv(s) && BusyStep(s, w, s')
    ensures WakeupInv(s')
  {
    SetsAfterTask(s.tasks, w, s'.tasks[w]);
    NotIn(s.tasks, w);
  }

  // ---- conservation of connections -----------------------------------------------------------

  lemma OwnerMain(s: State, step: Step, s': State)
    requires OwnerInv(s) && FifoInv(s) && MainNext(s, step, s')
    ensures OwnerInv(s')
  {
    assert TakenCount(s') == TakenCount(s);
    forall w: nat, id: nat
      ensures Holds(s', w, id) <==> Holds(s, w, id)
    {
      if step.MainSignal? && w < |s.tasks| && w in step.wake {
        assert s.tasks[w].Waiting?;
      }
    }
  }

  lemma OwnerQueueStep(s: State, step: Step, s': State)
    requires OwnerInv(s) && FifoInv(s) && QueueNext(s, step, s')
    ensures OwnerInv(s')
  {
    if step.Take? {
      OwnerTake(s, step.w, s');
    } else {
      assert TakenCount(s') == TakenCount(s);
      assert forall w: nat, id: nat :: Holds(s', w, id) <==> Holds(s, w, id);
    }
  }

  lemma OwnerTake(s: State, w: nat, s': State)
    requires OwnerInv(s) && FifoInv(s) && QueueNext(s, Take(w), s')
    ensures OwnerInv(s')
  {
    var taken := s.queue[0];
    assert taken == TakenCount(s) && TakenCount(s') == TakenCount(s) + 1;
    forall v: nat, id: nat
      ensures Holds(s', v, id) <==> if v == w then id == taken else Holds(s, v, id)
    {
    }
    assert Holds(s', w, taken);
  }

  lemma OwnerBusy(s: State, w: nat, s': State)
    requires OwnerInv(s) && BusyStep(s, w, s')
    ensures OwnerInv(s')
  {
    var id := s.tasks[w].id;
    assert Holds(s, w, id);
    assert TakenCount(s') == TakenCount(s);
    forall v: nat, i: nat
      ensures Holds(s', v, i) <==> Holds(s, v, i) && !(v == w && s'.tasks[w].Free?)
    {
    }
  }

  // ---- all four -----------------------------------------------------------------------------

  lemma QueueInvNext(hash: Hasher, s: State, step: Step, s': State)
    requires QueueInv(s) && Next(hash, s, step, s')
    ensures QueueInv(s')
  {
    hide MainNext, QueueNext, ClientNext, PushNext, LockInv, FifoInv, WakeupInv, OwnerInv, BusyStep;
    if MainNext(s, step, s') {
      LockMain(s, step, s'); FifoMain(s, step, s'); WakeupMain(s, step, s'); OwnerMain(s, step, s');
    } else if QueueNext(s, step, s') {
      LockQueueStep(s, step, s'); FifoQueueStep(s, step, s'); WakeupQueueStep(s, step, s'); OwnerQueueStep(s, step, s');
    } else {
      var w: nat;
      if ClientNext(s, step, s') {
        w := ClientIsBusy(s, step, s');
      } else {
        w := PushIsBusy(hash, s, step, s');
      }
      LockBusy(s, w, s'); FifoBusy(s, w, s'); WakeupBusy(s, w, s'); OwnerBusy(s, w, s');
    }
  }
}
