/** In every reachable state the store is closed, and past repositories are still in it. */
module ProtocolStore {
  import opened Manifest
  import opened Store
  import opened Protocol
  import opened ProtocolQueue

  // ---- the store is closed under references at every step ------------------------------------

  /** What the table of a push in progress relies on is stored already. */
  ghost predicate TaskStored(hash: Hasher, objects: map<string, string>, arrivals: seq<Request>, t: Task) {
    match t
    case Admitted(_, head) => HeadStored(head, objects)
    case Receiving(_, es, _) => GoodEntries(es, objects)
    case Stored(id, es, f) =>
      GoodEntries(es, objects) && FileStored(hash, objects, arrivals, id, f)
    case ManifestStored(_, es) => GoodEntries(es, objects) && Holding(hash, objects, Print(es))
    case _ => true
  }

  ghost predicate FileStored(hash: Hasher, objects: map<string, string>, arrivals: seq<Request>, id: nat, f: nat) {
    id < |arrivals| && arrivals[id].PushReq? && f < |arrivals[id].files| ==>
      Digest(hash, arrivals[id].files[f].content) in objects
  }

  ghost predicate HeadStored(head: string, objects: map<string, string>) {
    head == "" || (head in objects && GoodManifest(objects[head], objects))
  }

  ghost predicate Holding(hash: Hasher, objects: map<string, string>, c: string) {
    Digest(hash, c) in objects && objects[Digest(hash, c)] == c
  }

  ghost predicate GoodArrivals(arrivals: seq<Request>) {
    forall i :: 0 <= i < |arrivals| ==> GoodRequest(arrivals[i])
  }

  ghost predicate StoreInv(hash: Hasher, s: State) {
    && Closed(hash, s.repo)
    && GoodArrivals(s.arrivals)
    && forall w: nat :: w < |s.tasks| ==> TaskStored(hash, s.repo.objects, s.arrivals, s.tasks[w])
  }

  lemma TaskStoredGrows(hash: Hasher, objects: map<string, string>, objects': map<string, string>,
                        arrivals: seq<Request>, t: Task)
    requires TaskStored(hash, objects, arrivals, t) && Grows(objects, objects')
    ensures TaskStored(hash, objects', arrivals, t)
  {
    hide Print, Digest, GoodEntries, Grows, HeadStored, Holding, FileStored;
    if t.Admitted? {
      HeadStoredGrows(t.head, objects, objects');
    } else if t.Receiving? {
      GoodEntriesGrow(t.entries, objects, objects');
    } else if t.Stored? {
      GoodEntriesGrow(t.entries, objects, objects');
      FileStoredGrows(hash, objects, objects', arrivals, t.id, t.f);
    } else if t.ManifestStored? {
      GoodEntriesGrow(t.entries, objects, objects');
      HoldingGrows(hash, objects, objects', Print(t.entries));
    }
  }

  lemma HeadStoredGrows(head: string, objects: map<string, string>, objects': map<string, string>)
    requires HeadStored(head, objects) && Grows(objects, objects')
    ensures HeadStored(head, objects')
  {
    hide GoodManifest;
    if head != "" {
      GoodManifestGrows(objects[head], objects, objects');
    }
  }

  lemma HoldingGrows(hash: Hasher, objects: map<string, string>, objects': map<string, string>, c: string)
    requires Holding(hash, objects, c) && Grows(objects, objects')
    ensures Holding(hash, objects', c)
  {
    hide Digest;
  }

  lemma FileStoredGrows(hash: Hasher, objects: map<string, string>, objects': map<string, string>,
                        arrivals: seq<Request>, id: nat, f: nat)
    requires FileStored(hash, objects, arrivals, id, f) && Grows(objects, objects')
    ensures FileStored(hash, objects', arrivals, id, f)
  {
    hide Digest;
  }

  /** A step that leaves the repository and the tasks inside handle_push alone. */
  lemma StoreOutside(hash: Hasher, s: State, s': State)
    requires StoreInv(hash, s)
    requires s'.repo == s.repo && |s'.tasks| == |s.tasks|
    requires s'.arrivals == s.arrivals
             || (|s'.arrivals| > 0 && s'.arrivals == s.arrivals + [s'.arrivals[|s'.arrivals| - 1]]
                                           && GoodRequest(s'.arrivals[|s'.arrivals| - 1]))
    requires forall v: nat :: v < |s.tasks| && InPush(s'.tasks[v]) ==> s'.tasks[v] == s.tasks[v] || s'.tasks[v].Locked?
    requires forall v: nat :: v < |s.tasks| && InPush(s'.tasks[v]) ==> s'.tasks[v].id < |s.arrivals|
    ensures StoreInv(hash, s')
  {
    hide Closed, GoodEntries, Print, Digest, HeadStored, Holding;
    forall v: nat | v < |s'.tasks|
      ensures TaskStored(hash, s'.repo.objects, s'.arrivals, s'.tasks[v])
    {
      assert TaskStored(hash, s.repo.objects, s.arrivals, s.tasks[v]);
    }
  }

  /** A step of one worker that may add an object and move a head. */
  lemma StoreTask(hash: Hasher, s: State, w: nat, s': State)
    requires StoreInv(hash, s)
    requires w < |s.tasks| && |s'.tasks| == |s.tasks| && s'.tasks == s.tasks[w := s'.tasks[w]]
    requires s'.arrivals == s.arrivals
    requires Closed(hash, s'.repo) && Grows(s.repo.objects, s'.repo.objects)
    requires TaskStored(hash, s'.repo.objects, s.arrivals, s'.tasks[w])
    ensures StoreInv(hash, s')
  {
    hide Closed, TaskStored, GoodArrivals, Grows;
    forall v: nat | v < |s'.tasks|
      ensures TaskStored(hash, s'.repo.objects, s'.arrivals, s'.tasks[v])
    {
      if v != w {
        assert TaskStored(hash, s.repo.objects, s.arrivals, s.tasks[v]);
        TaskStoredGrows(hash, s.repo.objects, s'.repo.objects, s.arrivals, s.tasks[v]);
      }
    }
  }

  lemma StoreMain(hash: Hasher, s: State, step: Step, s': State)
    requires StoreInv(hash, s) && IdsArrived(s) && MainNext(s, step, s')
    ensures StoreInv(hash, s')
  {
    hide StoreInv, WaitingSet;
    StoreOutside(hash, s, s');
  }

  lemma StoreQueueStep(hash: Hasher, s: State, step: Step, s': State)
    requires StoreInv(hash, s) && IdsArrived(s) && QueueNext(s, step, s')
    ensures StoreInv(hash, s')
  {
    hide StoreInv;
    StoreOutside(hash, s, s');
  }

  lemma StoreClient(hash: Hasher, s: State, step: Step, s': State)
    requires StoreInv(hash, s) && IdsArrived(s) && ClientNext(s, step, s')
    ensures StoreInv(hash, s')
  {
    hide StoreInv, Head;
    StoreOutside(hash, s, s');
  }

  ghost predicate IdsArrived(s: State) {
    forall w: nat :: w < |s.tasks| && HasClient(s.tasks[w]) ==> s.tasks[w].id < |s.arrivals|
  }

  lemma OwnersArrived(s: State)
    requires OwnerInv(s)
    ensures IdsArrived(s)
  {
    forall w: nat | w < |s.tasks| && HasClient(s.tasks[w])
      ensures s.tasks[w].id < |s.arrivals|
    {
      assert Holds(s, w, s.tasks[w].id);
    }
  }

  lemma GrowsPut(hash: Hasher, repo: Repo, c: string)
    requires Closed(hash, repo) && NoCollision(hash, repo.objects, c)
    ensures Closed(hash, PutObject(hash, repo, c)) && Grows(repo.objects, PutObject(hash, repo, c).objects)
    ensures Holding(hash, PutObject(hash, repo, c).objects, c)
  {
    hide Closed;
    ClosedPut(hash, repo, c);
  }

  lemma HeadIsStored(hash: Hasher, repo: Repo, branch: string)
    requires Closed(hash, repo)
    ensures HeadStored(Head(repo, branch), repo.objects)
  {
    hide GoodManifest;
  }

  lemma OldIsGood(repo: Repo, head: string)
    requires HeadStored(head, repo.objects)
    ensures GoodEntries(OldEntries(repo, head), repo.objects)
  {
    hide Load, Print;
  }

  lemma GrowsSame(objects: map<string, string>)
    ensures Grows(objects, objects)
  {
  }

  lemma FileIsGood(hash: Hasher, arrivals: seq<Request>, id: nat, f: nat)
    requires GoodArrivals(arrivals) && id < |arrivals| && arrivals[id].PushReq? && f < |arrivals[id].files|
    ensures var file := arrivals[id].files[f]; WellFormed(Entry(file.name, Digest(hash, file.content)))
  {
    hide Digest;
    assert GoodRequest(arrivals[id]);
  }

  /** The new task of a worker inside handle_push, and what its step keeps. */
  ghost predicate PushKeeps(hash: Hasher, s: State, w: nat, s': State)
    requires w < |s.tasks| && |s'.tasks| == |s.tasks|
  {
    && Closed(hash, s'.repo) && Grows(s.repo.objects, s'.repo.objects)
    && TaskStored(hash, s'.repo.objects, s.arrivals, s'.tasks[w])
  }

  lemma ReadingKeepsRepo(hash: Hasher, s: State, step: Step, s': State)
    requires PushNext(hash, s, step, s')
    requires step.Compare? || step.LoadOld? || step.EnterFile? || step.NoReceiveBuffer? || step.NoManifestFile?
    ensures step.w < |s.tasks| && |s'.tasks| == |s.tasks| && s'.repo == s.repo
  {
    hide Rejects, Head, OldEntries, ListFile, Print, Digest, PutObject;
  }

  lemma KeepsComparing(hash: Hasher, s: State, w: nat, s': State)
    requires Closed(hash, s.repo) && PushNext(hash, s, Compare(w), s')
    ensures TaskStored(hash, s.repo.objects, s.arrivals, s'.tasks[w])
  {
    hide Rejects, Head, Closed, HeadStored, GoodEntries, Holding, FileStored, Print;
    HeadIsStored(hash, s.repo, s.arrivals[s.tasks[w].id].branch);
  }

  lemma KeepsLoading(hash: Hasher, s: State, w: nat, s': State)
    requires PushNext(hash, s, LoadOld(w), s') && TaskStored(hash, s.repo.objects, s.arrivals, s.tasks[w])
    ensures TaskStored(hash, s.repo.objects, s.arrivals, s'.tasks[w])
  {
    hide OldEntries, HeadStored, GoodEntries, Holding, FileStored, Print;
    OldIsGood(s.repo, s.tasks[w].head);
  }

  lemma KeepsFailing(hash: Hasher, s: State, step: Step, s': State)
    requires PushNext(hash, s, step, s') && (step.NoReceiveBuffer? || step.NoManifestFile?)
    ensures TaskStored(hash, s.repo.objects, s.arrivals, s'.tasks[step.w])
  {
    hide HeadStored, GoodEntries, Holding, FileStored, Print;
  }

  lemma StoredOf(hash: Hasher, s: State, w: nat)
    requires StoreInv(hash, s) && w < |s.tasks|
    ensures TaskStored(hash, s.repo.objects, s.arrivals, s.tasks[w]) && Closed(hash, s.repo)
  {
    hide Closed, TaskStored;
  }

  lemma KeepsReading(hash: Hasher, s: State, step: Step, s': State)
    requires StoreInv(hash, s) && PushNext(hash, s, step, s')
    requires step.Compare? || step.LoadOld? || step.EnterFile? || step.NoReceiveBuffer? || step.NoManifestFile?
    ensures PushKeeps(hash, s, step.w, s')
  {
    hide StoreInv, PushNext, TaskStored, Closed, Grows;
    ReadingKeepsRepo(hash, s, step, s');
    StoredOf(hash, s, step.w);
    GrowsSame(s.repo.objects);
    if step.Compare? {
      KeepsComparing(hash, s, step.w, s');
    } else if step.LoadOld? {
      KeepsLoading(hash, s, step.w, s');
    } else if step.EnterFile? {
      KeepsEntering(hash, s, step.w, s');
    } else {
      KeepsFailing(hash, s, step, s');
    }
  }

  lemma KeepsEntering(hash: Hasher, s: State, w: nat, s': State)
    requires StoreInv(hash, s) && PushNext(hash, s, EnterFile(w), s')
    ensures TaskStored(hash, s.repo.objects, s.arrivals, s'.tasks[w])
  {
    hide Upsert, Digest, Closed, GoodEntries, GoodArrivals;
    var t := s.tasks[w];
    var file := s.arrivals[t.id].files[t.f];
    assert TaskStored(hash, s.repo.objects, s.arrivals, t);
    FileIsGood(hash, s.arrivals, t.id, t.f);
    GoodEntriesUpsert(t.entries, Entry(file.name, Digest(hash, file.content)), s.repo.objects);
  }

  lemma WritingShape(hash: Hasher, s: State, step: Step, s': State)
    requires PushNext(hash, s, step, s') && (step.StoreFile? || step.StoreManifest?)
    ensures step.w < |s.tasks| && |s'.tasks| == |s.tasks| && s.tasks[step.w].Receiving?
    ensures Written(s, step).Some? && s'.repo == PutObject(hash, s.repo, Written(s, step).value)
    ensures var t := s.tasks[step.w];
            if step.StoreFile? then
              && t.id < |s.arrivals| && s.arrivals[t.id].PushReq? && t.f < |s.arrivals[t.id].files|
              && Written(s, step).value == s.arrivals[t.id].files[t.f].content
              && s'.tasks[step.w] == Stored(t.id, t.entries, t.f)
            else
              Written(s, step).value == Print(t.entries) && s'.tasks[step.w] == ManifestStored(t.id, t.entries)
  {
    hide Print, PutObject;
  }

  lemma KeepsWriting(hash: Hasher, s: State, step: Step, s': State)
    requires StoreInv(hash, s) && PushNext(hash, s, step, s') && CollisionFree(hash, s, step)
    requires step.StoreFile? || step.StoreManifest?
    ensures PushKeeps(hash, s, step.w, s')
  {
    hide StoreInv, PushNext, Written, Print, PutObject, Closed, GoodEntries, Holding, Grows, NoCollision, Digest;
    WritingShape(hash, s, step, s');
    StoredOf(hash, s, step.w);
    var t, c := s.tasks[step.w], Written(s, step).value;
    GrowsPut(hash, s.repo, c);
    GoodEntriesGrow(t.entries, s.repo.objects, s'.repo.objects);
    HoldingHas(hash, s'.repo.objects, c);
  }

  lemma KeepsMoving(hash: Hasher, s: State, w: nat, s': State)
    requires StoreInv(hash, s) && PushNext(hash, s, MoveHead(w), s')
    ensures PushKeeps(hash, s, w, s')
  {
    hide Print, Closed, GoodEntries, Holding, Grows, GoodArrivals, Digest;
    var t := s.tasks[w];
    assert TaskStored(hash, s.repo.objects, s.arrivals, t);
    HoldingHas(hash, s.repo.objects, Print(t.entries));
    ClosedHead(hash, s.repo, s.arrivals[t.id].branch, t.entries);
    GrowsSame(s.repo.objects);
  }

  predicate OneTaskMoves(s: State, w: nat, s': State) {
    && Pushing(s, w) && |s'.tasks| == |s.tasks|
    && s'.tasks == s.tasks[w := s'.tasks[w]] && s'.arrivals == s.arrivals
  }

  lemma SetTaskMoves(s: State, w: nat, t: Task, s': State)
    requires Pushing(s, w) && s'.tasks == s.tasks[w := t] && s'.arrivals == s.arrivals
    ensures OneTaskMoves(s, w, s')
  {
    hide InPush;
  }

  lemma PushShape(hash: Hasher, s: State, step: Step, s': State)
    requires PushNext(hash, s, step, s')
    ensures OneTaskMoves(s, step.w, s')
  {
    hide Rejects, Head, OldEntries, ListFile, Print, Digest, PutObject, OneTaskMoves;
    SetTaskMoves(s, step.w, s'.tasks[step.w], s');
  }

  lemma StorePush(hash: Hasher, s: State, step: Step, s': State)
    requires StoreInv(hash, s) && PushNext(hash, s, step, s') && CollisionFree(hash, s, step)
    ensures StoreInv(hash, s')
    ensures Grows(s.repo.objects, s'.repo.objects)
  {
    hide StoreInv, CollisionFree, Closed, Grows, TaskStored;
    PushShape(hash, s, step, s');
    if step.StoreFile? || step.StoreManifest? {
      KeepsWriting(hash, s, step, s');
    } else if step.MoveHead? {
      KeepsMoving(hash, s, step.w, s');
    } else {
      KeepsReading(hash, s, step, s');
    }
    hide PushNext;
    StoreTask(hash, s, step.w, s');
  }

  lemma HoldingHas(hash: Hasher, objects: map<string, string>, c: string)
    requires Holding(hash, objects, c)
    ensures Digest(hash, c) in objects && objects[Digest(hash, c)] == c
  {
    hide Digest;
  }
}
