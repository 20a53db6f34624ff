/** No push is accepted before its whole stream has come, in any run. */
module ProtocolParts {
  import opened Manifest
  import opened Store
  import opened Protocol
  import opened ProtocolPush
  import opened ProtocolHistory
  import opened ProtocolRuns
  import opened ProtocolBound

  predicate CameInFull(s: State, id: nat) {
    id < |s.arrivals| && Came(s, id) >= FileCount(s.arrivals, id) + 1
  }

  /** How much of its stream a worker has seen. */
  predicate Seen(s: State, t: Task) {
    match t
    case Receiving(id, _, f) => id < |s.arrivals| && Came(s, id) >= f + 1
    case Stored(id, _, f) => id < |s.arrivals| && Came(s, id) >= f + 2
    case WantBranch(id) => id < |s.arrivals| && Came(s, id) >= 1
    case Locked(id) => id < |s.arrivals| && Came(s, id) >= 1
    case Admitted(id, _) => id < |s.arrivals| && Came(s, id) >= 1
    case ManifestStored(id, _) => CameInFull(s, id)
    case Finishing(id, reply) => reply.Accepted? ==> CameInFull(s, id)
    case Replying(id, reply) => reply.Accepted? ==> CameInFull(s, id)
    case _ => true
  }

  ghost predicate PartsInv(s: State) {
    && (forall w: nat :: w < |s.tasks| ==> Seen(s, s.tasks[w]))
    && (forall id: nat :: id in s.replies && s.replies[id].Accepted? ==> CameInFull(s, id))
    && (forall i :: 0 <= i < |s.log| && s.log[i].reply.Accepted? ==> CameInFull(s, s.log[i].id))
  }

  /** Streams and arrivals only grow. */
  ghost predicate MoreCame(s: State, s': State) {
    s.arrivals <= s'.arrivals && forall id: nat :: Came(s, id) <= Came(s', id)
  }

  lemma FullStays(s: State, s': State, id: nat)
    requires MoreCame(s, s') && CameInFull(s, id)
    ensures CameInFull(s', id)
  {
    hide Came;
  }

  lemma SeenStays(s: State, s': State, t: Task)
    requires MoreCame(s, s') && Seen(s, t)
    ensures Seen(s', t)
  {
    hide Came, FileCount;
    if t.ManifestStored? || t.Finishing? || t.Replying? {
      if CameInFull(s, t.id) {
        FullStays(s, s', t.id);
      }
    }
  }

  /** A step that leaves log and answers alone and moves at most one task. */
  lemma PartsTask(s: State, s': State, w: nat)
    requires PartsInv(s) && MoreCame(s, s') && |s'.tasks| == |s.tasks|
    requires forall v: nat :: v < |s.tasks| && v != w ==> s'.tasks[v] == s.tasks[v]
    requires w < |s.tasks| ==> Seen(s', s'.tasks[w])
    requires s'.log == s.log && s'.replies == s.replies
    ensures PartsInv(s')
  {
    hide Seen, CameInFull, MoreCame;
    PartsKept(s, s');
    forall v: nat | v < |s'.tasks|
      ensures Seen(s', s'.tasks[v])
    {
      if v != w {
        SeenStays(s, s', s.tasks[v]);
      }
    }
  }

  /** Answers and log entries that were there before. */
  lemma PartsKept(s: State, s': State)
    requires PartsInv(s) && MoreCame(s, s')
    ensures forall id: nat :: id in s.replies && s.replies[id].Accepted? ==> CameInFull(s', id)
    ensures forall i :: 0 <= i < |s.log| && s.log[i].reply.Accepted? ==> CameInFull(s', s.log[i].id)
  {
    hide Seen, CameInFull, MoreCame;
    forall id: nat | id in s.replies && s.replies[id].Accepted?
      ensures CameInFull(s', id)
    {
      FullStays(s, s', id);
    }
    forall i | 0 <= i < |s.log| && s.log[i].reply.Accepted?
      ensures CameInFull(s', s.log[i].id)
    {
      FullStays(s, s', s.log[i].id);
    }
  }

  lemma SameCame(s: State, s': State)
    requires s'.arrivals == s.arrivals && s'.arrived == s.arrived
    ensures MoreCame(s, s')
  {
  }

  lemma MainCame(s: State, step: Step, s': State)
    requires MainNext(s, step, s')
    ensures MoreCame(s, s')
  {
    hide WaitingSet;
  }

  lemma PartsMain(s: State, step: Step, s': State)
    requires PartsInv(s) && MainNext(s, step, s')
    ensures PartsInv(s')
  {
    MainCame(s, step, s');
    PartsKept(s, s');
    hide CameInFull, Came, MoreCame;
    forall v: nat | v < |s'.tasks|
      ensures Seen(s', s'.tasks[v])
    {
      if !s'.tasks[v].Awakened? {
        SeenStays(s, s', s.tasks[v]);
      }
    }
  }

  lemma PartsQueueStep(s: State, step: Step, s': State)
    requires PartsInv(s) && QueueNext(s, step, s')
    ensures PartsInv(s')
  {
    hide PartsInv, CameInFull, Came, MoreCame;
    SameCame(s, s');
    PartsTask(s, s', step.w);
  }

  lemma PartsClient(s: State, step: Step, s': State)
    requires PartsInv(s) && ClientNext(s, step, s')
    ensures PartsInv(s')
  {
    SameCame(s, s');
    hide CameInFull, Came, MoreCame, Head;
    var w := step.w;
    assert Seen(s, s.tasks[w]);
    if step.SendReply? {
      PartsSend(s, w, s');
    } else {
      hide PartsInv;
      ClientSeen(s, step, s');
      PartsTask(s, s', w);
    }
  }

  lemma ClientSeen(s: State, step: Step, s': State)
    requires ClientNext(s, step, s') && !step.SendReply? && Seen(s, s.tasks[step.w])
    ensures Seen(s', s'.tasks[step.w])
  {
    hide Head, FileCount;
  }

  lemma PartsSend(s: State, w: nat, s': State)
    requires PartsInv(s) && ClientNext(s, SendReply(w), s')
    ensures PartsInv(s')
  {
    SameCame(s, s');
    PartsKept(s, s');
    assert Seen(s, s.tasks[w]);
    hide CameInFull, Came;
    var t := s.tasks[w];
    assert t.reply.Accepted? ==> CameInFull(s', t.id) by {
      if t.reply.Accepted? {
        FullStays(s, s', t.id);
      }
    }
    hide MoreCame;
    forall v: nat | v < |s'.tasks|
      ensures Seen(s', s'.tasks[v])
    {
      if v != w {
        SeenStays(s, s', s.tasks[v]);
      }
    }
  }

  /** The worker of a push step has seen what it needs for its next state. */
  lemma PushSeen(s: State, w: nat, s': State)
    requires OneAdvance(s, w, s') && Seen(s, s.tasks[w])
    ensures Seen(s', s'.tasks[w])
  {
  }

  lemma PartsDecide(s: State, w: nat, s': State, e: LogEntry)
    requires PartsInv(s) && IsDecide(s, w, s', e) && MoreCame(s, s') && Seen(s', s'.tasks[w])
    ensures PartsInv(s')
  {
    hide CameInFull, MoreCame, InPush;
    PartsKept(s, s');
    forall v: nat | v < |s'.tasks|
      ensures Seen(s', s'.tasks[v])
    {
      if v != w {
        SeenStays(s, s', s.tasks[v]);
      }
    }
  }

  lemma DecidingWorker(s: State, w: nat, s': State, e: LogEntry, v: nat)
    requires IsDecide(s, w, s', e) && v < |s.tasks| && s'.tasks == s.tasks[v := s'.tasks[v]]
    ensures v == w
  {
    assert s'.tasks[w].Finishing? && !s.tasks[w].Finishing?;
  }

  lemma QuietAnswers(s: State, w: nat, s': State)
    requires QuietPush(s, w, s')
    ensures s'.log == s.log && s'.replies == s.replies
  {
  }

  lemma PartsPush(hash: Hasher, s: State, step: Step, s': State)
    requires PartsInv(s) && PushNext(hash, s, step, s')
    ensures PartsInv(s')
  {
    hide PushNext, Seen, CameInFull, MoreCame, IsDecide, QuietPush, Advances, FileCount, Came;
    var v := PushAdvances(hash, s, step, s');
    SameCame(s, s');
    PushSeen(s, v, s');
    var w, decided, e := PushEffect(hash, s, step, s');
    if decided {
      DecidingWorker(s, w, s', e, v);
      PartsDecide(s, w, s', e);
    } else {
      QuietAnswers(s, w, s');
      PartsTask(s, s', v);
    }
  }

  lemma PartsNext(hash: Hasher, s: State, step: Step, s': State)
    requires PartsInv(s) && Next(hash, s, step, s')
    ensures PartsInv(s')
  {
    hide MainNext, QueueNext, ClientNext, PushNext, PartsInv;
    if MainNext(s, step, s') {
      PartsMain(s, step, s');
    } else if QueueNext(s, step, s') {
      PartsQueueStep(s, step, s');
    } else if ClientNext(s, step, s') {
      PartsClient(s, step, s');
    } else {
      PartsPush(hash, s, step, s');
    }
  }

  lemma {:induction false} PartsRun(hash: Hasher, start: Repo, states: seq<State>, steps: seq<Step>, i: nat)
    requires IsRun(hash, start, states, steps) && i < |states|
    ensures PartsInv(states[i])
  {
    hide Next, CollisionFree, Closed;
    if i > 0 {
      hide PartsInv, Init;
      PartsRun(hash, start, states, steps, i - 1);
      PartsNext(hash, states[i - 1], steps[i - 1], states[i]);
    }
  }

  /** In every state of every run, a push that has been accepted, whether it is answered yet or not, had
      sent its command line and every file that it announced. */
  lemma AcceptedCameInFull(hash: Hasher, start: Repo, states: seq<State>, steps: seq<Step>, n: nat)
    requires IsRun(hash, start, states, steps) && n < |states|
    ensures var s := states[n];
            && (forall i :: 0 <= i < |s.log| && s.log[i].reply.Accepted? ==>
                  s.log[i].req.PushReq? && Came(s, s.log[i].id) >= |s.log[i].req.files| + 1)
            && (forall id: nat :: id in s.replies && ReqOf(s, id).PushReq? && s.replies[id].Accepted? ==>
                  Came(s, id) >= |ReqOf(s, id).files| + 1)
  {
    hide IsRun, Seen, Came, Replay, AnswerLogged, CameInFull;
    var s := states[n];
    PartsRun(hash, start, states, steps, n);
    PushesAreAtomic(hash, start, states, steps, n);
    forall i | 0 <= i < |s.log| && s.log[i].reply.Accepted?
      ensures s.log[i].req.PushReq? && Came(s, s.log[i].id) >= |s.log[i].req.files| + 1
    {
      assert EntryGood(hash, start, s.log, i);
      FullMeans(s, s.log[i].id);
    }
    forall id: nat | id in s.replies && ReqOf(s, id).PushReq? && s.replies[id].Accepted?
      ensures Came(s, id) >= |ReqOf(s, id).files| + 1
    {
      FullMeans(s, id);
    }
  }

  lemma FullMeans(s: State, id: nat)
    requires CameInFull(s, id)
    ensures ReqOf(s, id).PushReq? ==> Came(s, id) >= |ReqOf(s, id).files| + 1
  {
  }

  lemma PushReplies(hash: Hasher, start: Repo, log: seq<LogEntry>, i: nat)
    requires LogGood(hash, start, log) && i < |log|
    ensures log[i].reply.Conflict? || log[i].reply.Dropped? || log[i].reply.Accepted?
  {
    hide Replay, Rejects, Print, Digest, NewEntries, PutFiles;
    assert EntryGood(hash, start, log, i);
  }

  /** So as long as a part of a push is missing, in whatever run, it is not in the order of accepted
      pushes, and it has no answer but that it is rejected, or dropped for want of a buffer. */
  lemma UnfinishedNotAccepted(hash: Hasher, start: Repo, states: seq<State>, steps: seq<Step>, n: nat, id: nat)
    requires IsRun(hash, start, states, steps) && n < |states|
    requires ReqOf(states[n], id).PushReq? && Came(states[n], id) <= |ReqOf(states[n], id).files|
    ensures var s := states[n];
            && (forall i :: 0 <= i < |s.log| && s.log[i].id == id ==> !s.log[i].reply.Accepted?)
            && (id in s.replies ==> s.replies[id].Conflict? || s.replies[id].Dropped?)
  {
    hide IsRun, Came, Replay, LogGood;
    var s := states[n];
    AcceptedCameInFull(hash, start, states, steps, n);
    PushesAreAtomic(hash, start, states, steps, n);
    if id in s.replies {
      assert AnswerLogged(s, id, s.replies[id]);
      var i :| 0 <= i < |s.log| && s.log[i].id == id && s.log[i].reply == s.replies[id];
      PushReplies(hash, start, s.log, i);
    }
  }
}
