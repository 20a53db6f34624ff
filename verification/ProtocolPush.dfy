/** The interleaved pushes refine the atomic ones, and the store stays closed at every step. */
module ProtocolPush {
  import opened Manifest
  import opened Store
  import opened Protocol
  import opened ProtocolQueue

  // ---- refinement: the invariant -------------------------------------------------------------

  ghost predicate Same(a: Repo, b: Repo) {
    a == b
  }

  /** How far the push of task t has changed the repository that the atomic pushes left. */
  ghost predicate MidPush(hash: Hasher, spec: Repo, repo: Repo, req: Request, t: Task)
    requires req.PushReq?
  {
    match t
    case Locked(_) => Same(spec, repo)
    case Admitted(_, head) =>
      Same(spec, repo) && !Rejects(spec, req.branch, req.parent) && head == Head(spec, req.branch)
    case Receiving(_, es, f) =>
      f <= |req.files| && !Rejects(spec, req.branch, req.parent) && FilesDone(hash, spec, repo, req, f, es, f)
    case Stored(_, es, f) =>
      f < |req.files| && !Rejects(spec, req.branch, req.parent) && FilesDone(hash, spec, repo, req, f + 1, es, f)
    case ManifestStored(_, es) =>
      && !Rejects(spec, req.branch, req.parent) && es == NewEntries(hash, spec, req.branch, req.files)
      && repo == PutObject(hash, Repo(spec.heads, PutFiles(hash, spec.objects, req.files)), Print(es))
    case Finishing(_, _) => Same(spec, repo)
    case _ => true
  }

  /** stored files are in the object store, listed files are in the table. */
  ghost predicate FilesDone(hash: Hasher, spec: Repo, repo: Repo, req: Request, stored: nat, es: seq<Entry>,
                            listed: nat)
    requires req.PushReq? && stored <= |req.files| && listed <= |req.files|
  {
    && repo == Repo(spec.heads, PutFiles(hash, spec.objects, req.files[..stored]))
    && es == Merge(OldEntries(spec, Head(spec, req.branch)), Listed(hash, req.files[..listed]))
  }

  /** Each logged reply is the one the atomic push gives at that point. */
  ghost predicate LogGood(hash: Hasher, start: Repo, log: seq<LogEntry>) {
    forall i :: 0 <= i < |log| ==> EntryGood(hash, start, log, i)
  }

  ghost predicate EntryGood(hash: Hasher, start: Repo, log: seq<LogEntry>, i: nat)
    requires i < |log|
  {
    log[i].req.PushReq? &&
    log[i].reply == Attempt(hash, Replay(hash, start, log[..i]), log[i].req, log[i].luck).reply
  }

  ghost predicate TaskMid(hash: Hasher, spec: Repo, s: State, w: nat)
    requires w < |s.tasks|
  {
    HoldsBranch(s.tasks[w]) ==>
      && s.tasks[w].id < |s.arrivals| && s.arrivals[s.tasks[w].id].PushReq?
      && MidPush(hash, spec, s.repo, s.arrivals[s.tasks[w].id], s.tasks[w])
  }

  ghost predicate RefInv(hash: Hasher, start: Repo, s: State) {
    var spec := Replay(hash, start, s.log);
    && s.repo.heads == spec.heads
    && (s.branchLock.Nobody? ==> s.repo == spec)
    && (forall w: nat :: w < |s.tasks| ==> TaskMid(hash, spec, s, w))
    && LogGood(hash, start, s.log)
    && (forall w: nat :: w < |s.tasks| && s.tasks[w].WantBranch? ==>
          s.tasks[w].id < |s.arrivals| && s.arrivals[s.tasks[w].id].PushReq?)
  }

  // ---- refinement: the steps inside the critical section --------------------------------------

  lemma MidFirst(hash: Hasher, spec: Repo, repo: Repo, req: Request, id: nat, head: string)
    requires req.PushReq? && MidPush(hash, spec, repo, req, Admitted(id, head))
    ensures MidPush(hash, spec, repo, req, Receiving(id, OldEntries(repo, head), 0))
  {
    hide OldEntries, Rejects;
    assert req.files[..0] == [];
  }

  lemma MidStore(hash: Hasher, spec: Repo, repo: Repo, req: Request, id: nat, es: seq<Entry>, f: nat)
    requires req.PushReq? && f < |req.files| && MidPush(hash, spec, repo, req, Receiving(id, es, f))
    ensures MidPush(hash, spec, PutObject(hash, repo, req.files[f].content), req, Stored(id, es, f))
  {
    hide OldEntries, Rejects, Merge, Listed, Digest;
    assert req.files[..f + 1][..f] == req.files[..f];
  }

  lemma MidEnter(hash: Hasher, spec: Repo, repo: Repo, req: Request, id: nat, es: seq<Entry>, f: nat)
    requires req.PushReq? && f < |req.files| && MidPush(hash, spec, repo, req, Stored(id, es, f))
    ensures MidPush(hash, spec, repo, req,
              Receiving(id, ListFile(hash, es, req.files[f]), f + 1))
  {
    hide OldEntries, Rejects, Upsert, Digest, PutFiles;
    var listed := Listed(hash, req.files[..f + 1]);
    assert listed[..f] == Listed(hash, req.files[..f]);
  }

  lemma MidManifest(hash: Hasher, spec: Repo, repo: Repo, req: Request, id: nat, es: seq<Entry>)
    requires req.PushReq? && MidPush(hash, spec, repo, req, Receiving(id, es, |req.files|))
    ensures MidPush(hash, spec, PutObject(hash, repo, Print(es)), req, ManifestStored(id, es))
  {
    hide OldEntries, Rejects, Digest, PutFiles, Merge, Listed, Print;
    assert req.files[..|req.files|] == req.files;
  }

  /** The step that decides a push leaves the repository that the atomic push leaves. */
  lemma DecideEarly(hash: Hasher, spec: Repo, repo: Repo, req: Request, t: Task)
    requires req.PushReq? && MidPush(hash, spec, repo, req, t)
    ensures t.Locked? && Rejects(repo, req.branch, req.parent) ==>
              Attempt(hash, spec, req, Fine) == Outcome(repo, Conflict)
    ensures t.Locked? && !Rejects(repo, req.branch, req.parent) ==>
              MidPush(hash, spec, repo, req, Admitted(t.id, Head(repo, req.branch)))
    ensures t.Admitted? ==> Attempt(hash, spec, req, NoBuffer) == Outcome(repo, Dropped)
  {
    hide OldEntries, Rejects, Digest, Merge, Listed, Print, NewEntries, Head, PutFiles, FilesDone;
  }

  lemma DecideNoTemp(hash: Hasher, spec: Repo, repo: Repo, req: Request, t: Task)
    requires req.PushReq? && MidPush(hash, spec, repo, req, t)
    requires t.Receiving? && t.f == |req.files|
    ensures Attempt(hash, spec, req, NoTempFile) == Outcome(repo, Accepted(""))
  {
    hide OldEntries, Rejects, Digest, Merge, Listed, Print, NewEntries, Head, PutFiles;
    assert req.files[..|req.files|] == req.files;
  }

  lemma DecideAccept(hash: Hasher, spec: Repo, repo: Repo, req: Request, t: Task)
    requires req.PushReq? && MidPush(hash, spec, repo, req, t) && t.ManifestStored?
    ensures var h := Digest(hash, Print(t.entries));
            Attempt(hash, spec, req, Fine) == Outcome(repo.(heads := repo.heads[req.branch := h]), Accepted(h))
  {
    hide OldEntries, Rejects, Digest, Merge, Listed, Print, NewEntries, Head, PutFiles;
  }

  lemma ReplaySnoc(hash: Hasher, start: Repo, log: seq<LogEntry>, e: LogEntry)
    ensures Replay(hash, start, log + [e]) == Attempt(hash, Replay(hash, start, log), e.req, e.luck).repo
    ensures LogGood(hash, start, log) && e.req.PushReq?
            && e.reply == Attempt(hash, Replay(hash, start, log), e.req, e.luck).reply
            ==> LogGood(hash, start, log + [e])
  {
    hide Attempt;
    var log' := log + [e];
    assert log'[..|log|] == log;
    if LogGood(hash, start, log) && e.req.PushReq?
       && e.reply == Attempt(hash, Replay(hash, start, log), e.req, e.luck).reply {
      forall i | 0 <= i < |log'|
        ensures EntryGood(hash, start, log', i)
      {
        assert i < |log| ==> log'[..i] == log[..i] && EntryGood(hash, start, log, i);
      }
    }
  }

  // ---- refinement: every step -----------------------------------------------------------------

  /** A step that leaves repository, log and branch lock alone and no task inside handle_push changes. */
  lemma RefOutside(hash: Hasher, start: Repo, s: State, s': State)
    requires RefInv(hash, start, s)
    requires s'.repo == s.repo && s'.log == s.log && s'.branchLock == s.branchLock
    requires s.arrivals <= s'.arrivals && |s'.tasks| == |s.tasks|
    requires forall v: nat :: v < |s.tasks| && HoldsBranch(s'.tasks[v]) ==> s'.tasks[v] == s.tasks[v]
    requires forall v: nat :: v < |s.tasks| && s'.tasks[v].WantBranch? ==>
               || s'.tasks[v] == s.tasks[v]
               || (s'.tasks[v].id < |s'.arrivals| && s'.arrivals[s'.tasks[v].id].PushReq?)
    ensures RefInv(hash, start, s')
  {
    hide MidPush, Replay, LogGood;
    var spec := Replay(hash, start, s.log);
    forall v: nat | v < |s'.tasks|
      ensures TaskMid(hash, spec, s', v)
    {
      assert TaskMid(hash, spec, s, v);
      if HoldsBranch(s'.tasks[v]) {
        assert s'.arrivals[s.tasks[v].id] == s.arrivals[s.tasks[v].id];
      }
    }
  }

  lemma RefMain(hash: Hasher, start: Repo, s: State, step: Step, s': State)
    requires RefInv(hash, start, s) && MainNext(s, step, s')
    ensures RefInv(hash, start, s')
  {
    hide RefInv, WaitingSet;
    RefOutside(hash, start, s, s');
  }

  lemma RefQueueStep(hash: Hasher, start: Repo, s: State, step: Step, s': State)
    requires RefInv(hash, start, s) && QueueNext(s, step, s')
    ensures RefInv(hash, start, s')
  {
    hide RefInv;
    RefOutside(hash, start, s, s');
  }

  lemma RefClient(hash: Hasher, start: Repo, s: State, step: Step, s': State)
    requires RefInv(hash, start, s) && LockInv(s) && ClientNext(s, step, s')
    ensures RefInv(hash, start, s')
  {
    hide Head, RefInv, LockInv;
    if step.LockBranch? {
      RefLock(hash, start, s, step.w, s');
    } else if step.UnlockBranch? {
      RefUnlock(hash, start, s, step.w, s');
    } else {
      RefOutside(hash, start, s, s');
    }
  }

  lemma MidEnds(hash: Hasher, spec: Repo, repo: Repo, req: Request, t: Task)
    requires req.PushReq?
    requires t.Locked? || t.Finishing?
    ensures MidPush(hash, spec, repo, req, t) <==> Same(spec, repo)
  {
    hide Same, FilesDone, Rejects, NewEntries, PutObject, Print;
  }

  lemma RefLock(hash: Hasher, start: Repo, s: State, w: nat, s': State)
    requires RefInv(hash, start, s) && LockInv(s) && ClientNext(s, LockBranch(w), s')
    ensures RefInv(hash, start, s')
  {
    hide Replay, LogGood, MidPush;
    var spec := Replay(hash, start, s.log);
    MidEnds(hash, spec, s.repo, s.arrivals[s.tasks[w].id], s'.tasks[w]);
    forall v: nat | v < |s'.tasks|
      ensures TaskMid(hash, spec, s', v)
    {
      assert TaskMid(hash, spec, s, v);
    }
  }

  lemma RefUnlock(hash: Hasher, start: Repo, s: State, w: nat, s': State)
    requires RefInv(hash, start, s) && LockInv(s) && ClientNext(s, UnlockBranch(w), s')
    ensures RefInv(hash, start, s')
  {
    hide Replay, LogGood, MidPush;
    var spec := Replay(hash, start, s.log);
    assert TaskMid(hash, spec, s, w);
    MidEnds(hash, spec, s.repo, s.arrivals[s.tasks[w].id], s.tasks[w]);
    forall v: nat | v < |s'.tasks|
      ensures TaskMid(hash, spec, s', v)
    {
      assert TaskMid(hash, spec, s, v);
    }
  }

  /** A step of the lock holder that does not decide its push yet. */
  lemma RefInside(hash: Hasher, start: Repo, s: State, w: nat, s': State)
    requires RefInv(hash, start, s) && LockInv(s) && Pushing(s, w)
    requires |s'.tasks| == |s.tasks| && s'.tasks == s.tasks[w := s'.tasks[w]]
    requires InPush(s'.tasks[w]) && s'.tasks[w].id == s.tasks[w].id
    requires s'.log == s.log && s'.branchLock == s.branchLock && s'.arrivals == s.arrivals
    requires s'.repo.heads == s.repo.heads
    requires MidPush(hash, Replay(hash, start, s.log), s'.repo, s.arrivals[s.tasks[w].id], s'.tasks[w])
    ensures RefInv(hash, start, s')
  {
    hide MidPush, Replay, LogGood, InPush;
    var spec := Replay(hash, start, s.log);
    forall v: nat | v < |s'.tasks|
      ensures TaskMid(hash, spec, s', v)
    {
      assert TaskMid(hash, spec, s, v);
    }
  }

  lemma RefDecideTasks(hash: Hasher, start: Repo, s: State, w: nat, s': State, spec': Repo)
    requires RefInv(hash, start, s) && LockInv(s) && Pushing(s, w)
    requires |s'.tasks| == |s.tasks| && s'.tasks == s.tasks[w := s'.tasks[w]] && s'.tasks[w].Finishing?
    requires s'.tasks[w].id == s.tasks[w].id && s'.arrivals == s.arrivals && s'.repo == spec'
    ensures forall v: nat :: v < |s'.tasks| ==> TaskMid(hash, spec', s', v)
  {
    hide Replay, LogGood, FilesDone, Rejects, NewEntries, PutObject, Print;
    forall v: nat | v < |s'.tasks|
      ensures TaskMid(hash, spec', s', v)
    {
      assert TaskMid(hash, Replay(hash, start, s.log), s, v);
    }
  }

  /** The step that decides a push appends to the log what the atomic push does. */
  lemma RefDecide(hash: Hasher, start: Repo, s: State, w: nat, luck: Luck, reply: Reply, s': State)
    requires RefInv(hash, start, s) && LockInv(s) && Pushing(s, w)
    requires s' == Decide(s, w, s.tasks[w].id, luck, reply).(repo := s'.repo)
    requires Attempt(hash, Replay(hash, start, s.log), s.arrivals[s.tasks[w].id], luck) == Outcome(s'.repo, reply)
    ensures RefInv(hash, start, s')
  {
    hide Replay, LogGood, Attempt, MidPush, TaskMid;
    var id := s.tasks[w].id;
    ReplaySnoc(hash, start, s.log, LogEntry(id, s.arrivals[id], luck, reply));
    RefDecideTasks(hash, start, s, w, s', Replay(hash, start, s'.log));
  }

  lemma RefPush(hash: Hasher, start: Repo, s: State, step: Step, s': State)
    requires RefInv(hash, start, s) && LockInv(s) && PushNext(hash, s, step, s')
    ensures RefInv(hash, start, s')
  {
    hide MidPush, Replay, Rejects, Head, OldEntries, ListFile, Print, Digest, PutObject, Decide, RefInv, LockInv,
         Attempt;
    var w := step.w;
    var t := s.tasks[w];
    var req := s.arrivals[t.id];
    var spec := Replay(hash, start, s.log);
    MidHolds(hash, start, s, w);
    match step
    case Compare(_) =>
      DecideEarly(hash, spec, s.repo, req, t);
      if Rejects(s.repo, req.branch, req.parent) {
        DecideKeeps(s, w, t.id, Fine, Conflict);
        RefDecide(hash, start, s, w, Fine, Conflict, s');
      } else {
        RefInside(hash, start, s, w, s');
      }
    case LoadOld(_) =>
      MidFirst(hash, spec, s.repo, req, t.id, t.head);
      RefInside(hash, start, s, w, s');
    case NoReceiveBuffer(_) =>
      DecideEarly(hash, spec, s.repo, req, t);
      DecideKeeps(s, w, t.id, NoBuffer, Dropped);
      RefDecide(hash, start, s, w, NoBuffer, Dropped, s');
    case StoreFile(_) =>
      MidStore(hash, spec, s.repo, req, t.id, t.entries, t.f);
      PutKeepsHeads(hash, s.repo, req.files[t.f].content);
      RefInside(hash, start, s, w, s');
    case EnterFile(_) =>
      MidEnter(hash, spec, s.repo, req, t.id, t.entries, t.f);
      RefInside(hash, start, s, w, s');
    case StoreManifest(_) =>
      MidManifest(hash, spec, s.repo, req, t.id, t.entries);
      PutKeepsHeads(hash, s.repo, Print(t.entries));
      RefInside(hash, start, s, w, s');
    case NoManifestFile(_) =>
      DecideNoTemp(hash, spec, s.repo, req, t);
      DecideKeeps(s, w, t.id, NoTempFile, Accepted(""));
      RefDecide(hash, start, s, w, NoTempFile, Accepted(""), s');
    case MoveHead(_) =>
      DecideAccept(hash, spec, s.repo, req, t);
      RefDecide(hash, start, s, w, Fine, Accepted(Digest(hash, Print(t.entries))), s');
  }

  lemma MidHolds(hash: Hasher, start: Repo, s: State, w: nat)
    requires RefInv(hash, start, s) && Pushing(s, w)
    ensures MidPush(hash, Replay(hash, start, s.log), s.repo, s.arrivals[s.tasks[w].id], s.tasks[w])
  {
    hide MidPush, Replay, LogGood;
    assert TaskMid(hash, Replay(hash, start, s.log), s, w);
  }

  lemma DecideKeeps(s: State, w: nat, id: nat, luck: Luck, reply: Reply)
    requires w < |s.tasks| && id < |s.arrivals|
    ensures var s' := Decide(s, w, id, luck, reply); s' == s'.(repo := s.repo) && s'.repo == s.repo
  {
  }

  lemma PutKeepsHeads(hash: Hasher, repo: Repo, c: string)
    ensures PutObject(hash, repo, c).heads == repo.heads
  {
  }
}
