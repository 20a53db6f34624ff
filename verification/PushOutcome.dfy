/** What one push leaves behind, in terms of heads, objects and manifest lines alone. */
module PushOutcome {
  import opened Manifest
  import opened Wire
  import opened Store

  // ---- objects ---------------------------------------------------------------------------------------

  lemma PutLast(hash: Hasher, objects: map<string, string>, files: seq<PushFile>, f: PushFile)
    ensures PutFiles(hash, objects, files + [f]) == PutFiles(hash, objects, files)[Digest(hash, f.content) := f.content]
  {
    assert (files + [f])[..|files|] == files;
  }

  /** A hash under which no file is stored keeps what it had. */
  lemma {:induction false} OtherObjectsStay(hash: Hasher, objects: map<string, string>, files: seq<PushFile>, h: string)
    requires forall i :: 0 <= i < |files| ==> Digest(hash, files[i].content) != h
    ensures var objects' := PutFiles(hash, objects, files);
            (h in objects' <==> h in objects) && (h in objects ==> objects'[h] == objects[h])
  {
    hide Digest;
    if files != [] {
      hide PutFiles;
      var init, last := files[..|files| - 1], files[|files| - 1];
      assert files == init + [last];
      PutLast(hash, objects, init, last);
      OtherObjectsStay(hash, objects, init, h);
    }
  }

  /** The content of a file is stored under its hash. */
  ghost predicate Holds(hash: Hasher, objects: map<string, string>, f: PushFile) {
    Digest(hash, f.content) in objects && objects[Digest(hash, f.content)] == f.content
  }

  lemma PutKeeps(hash: Hasher, objects: map<string, string>, f: PushFile, g: PushFile)
    requires Holds(hash, objects, f)
    requires Digest(hash, g.content) != Digest(hash, f.content) || g.content == f.content
    ensures Holds(hash, objects[Digest(hash, g.content) := g.content], f)
  {
    hide Digest;
  }

  /** A file is stored under its hash, unless a later one with another content has the same hash. */
  lemma {:induction false} FileIsStored(hash: Hasher, objects: map<string, string>, files: seq<PushFile>, i: nat)
    requires i < |files|
    requires forall j :: i < j < |files| ==>
               Digest(hash, files[j].content) != Digest(hash, files[i].content) || files[j].content == files[i].content
    ensures Holds(hash, PutFiles(hash, objects, files), files[i])
    decreases |files|
  {
    hide Digest, PutFiles;
    var init, last := files[..|files| - 1], files[|files| - 1];
    assert files == init + [last];
    PutLast(hash, objects, init, last);
    if i < |init| {
      hide Holds;
      FileIsStored(hash, objects, init, i);
      PutKeeps(hash, PutFiles(hash, objects, init), files[i], last);
    }
  }

  // ---- heads, objects and reply -------------------------------------------------------------------------

  /** The outcomes of a push that stores no manifest, by the head it finds and the failure it meets: no
      head moves, and only without a temporary file for the manifest are the files stored. */
  lemma PushStops(hash: Hasher, repo: Repo, branch: string, parent: string, files: seq<PushFile>, luck: Luck)
    ensures var o := AtomicPush(hash, repo, branch, parent, files, luck);
            var rejected := branch in repo.heads && repo.heads[branch] != "" && repo.heads[branch] != parent;
            && (rejected ==> o == Outcome(repo, Conflict))
            && (!rejected && luck == NoBuffer ==> o == Outcome(repo, Dropped))
            && (!rejected && luck == NoTempFile ==>
                  o == Outcome(Repo(repo.heads, PutFiles(hash, repo.objects, files)), Accepted("")))
  {
    hide Print, NewEntries, PutFiles, Digest;
  }

  /** Any other push is accepted: the head of its branch, and no other, moves to the hash of a text that is
      stored, and that text and the files are all that the objects gain. */
  lemma PushMoves(hash: Hasher, repo: Repo, branch: string, parent: string, files: seq<PushFile>) returns (text: string)
    requires branch in repo.heads ==> repo.heads[branch] == "" || repo.heads[branch] == parent
    ensures AtomicPush(hash, repo, branch, parent, files, Fine) ==
            Outcome(Repo(repo.heads[branch := Digest(hash, text)],
                         PutFiles(hash, repo.objects, files)[Digest(hash, text) := text]),
                    Accepted(Digest(hash, text)))
  {
    hide Print, NewEntries, PutFiles, Digest;
    text := Print(NewEntries(hash, repo, branch, files));
  }

  // ---- the manifest --------------------------------------------------------------------------------------

  /** File i is the last one of that name in a push. */
  predicate LastOfName(files: seq<PushFile>, i: int, name: string) {
    0 <= i < |files| && files[i].name == name && forall j :: i < j < |files| ==> files[j].name != name
  }

  ghost predicate IsPushed(files: seq<PushFile>, name: string) {
    exists i :: 0 <= i < |files| && files[i].name == name
  }

  lemma ListedFiles(hash: Hasher, files: seq<PushFile>)
    ensures |Listed(hash, files)| == |files|
    ensures forall i :: 0 <= i < |files| ==>
              && Listed(hash, files)[i].name == files[i].name
              && Listed(hash, files)[i].hash == Digest(hash, files[i].content)
    ensures forall i, name :: LastOfName(files, i, name) ==> LastOfItsName(Listed(hash, files), i)
  {
    hide Digest;
  }

  /** What pushed files make of the lines of a manifest: the lines keep their place, and their hash unless
      a file of that name is pushed; a pushed name has the hash of its last content; below 1024 lines
      every pushed name is listed; nothing else is. */
  ghost predicate UpdatedBy(hash: Hasher, before: seq<Entry>, files: seq<PushFile>, after: seq<Entry>) {
    && |before| <= |after| <= 1024
    && (forall k :: 0 <= k < |before| ==> after[k].name == before[k].name)
    && (forall k :: 0 <= k < |before| && !IsPushed(files, before[k].name) ==>
          after[k].hash == before[k].hash)
    && (forall k, i :: 0 <= k < |after| && 0 <= i < |files| && LastOfName(files, i, after[k].name) ==>
          after[k].hash == Digest(hash, files[i].content))
    && (|after| < 1024 ==> forall i :: 0 <= i < |files| ==> IndexOf(after, files[i].name) < |after|)
    && (forall k :: |before| <= k < |after| ==> IsPushed(files, after[k].name))
  }

  lemma LinesKept(hash: Hasher, before: seq<Entry>, files: seq<PushFile>, after: seq<Entry>, k: nat)
    requires Distinct(before) && |before| <= MAX_ENTRIES && after == Merge(before, Listed(hash, files))
    requires IsMerged(before, Listed(hash, files), after)
    requires k < |before| && !IsPushed(files, before[k].name)
    ensures k < |after| && after[k].hash == before[k].hash
  {
    hide Merge, Distinct, Listed, Digest, MergedHash, NewNames;
    ListedFiles(hash, files);
    assert forall j :: 0 <= j < |Listed(hash, files)| ==> Listed(hash, files)[j].name != before[k].name;
    MergeOld(before, Listed(hash, files));
  }

  lemma LinesPushed(hash: Hasher, before: seq<Entry>, files: seq<PushFile>, after: seq<Entry>, k: nat, i: nat)
    requires |before| <= MAX_ENTRIES && after == Merge(before, Listed(hash, files))
    requires IsMerged(before, Listed(hash, files), after)
    requires k < |after| && i < |files| && LastOfName(files, i, after[k].name)
    ensures after[k].hash == Digest(hash, files[i].content)
  {
    hide Merge, Listed, Digest, IsMerged, LastOfItsName;
    ListedFiles(hash, files);
    MergeLast(before, Listed(hash, files));
    assert LastOfItsName(Listed(hash, files), i);
  }

  lemma LinesAdded(hash: Hasher, before: seq<Entry>, files: seq<PushFile>, after: seq<Entry>)
    requires |before| <= MAX_ENTRIES && after == Merge(before, Listed(hash, files))
    requires IsMerged(before, Listed(hash, files), after)
    ensures |after| < MAX_ENTRIES ==> forall i :: 0 <= i < |files| ==> IndexOf(after, files[i].name) < |after|
    ensures forall k :: |before| <= k < |after| ==> IsPushed(files, after[k].name)
  {
    hide Merge, Listed, Digest, IsMerged, IndexOf;
    var pushed := Listed(hash, files);
    ListedFiles(hash, files);
    MergeNew(before, pushed);
    forall i | 0 <= i < |files|
      ensures pushed[i].name == files[i].name
    {
    }
    forall k | |before| <= k < |after|
      ensures IsPushed(files, after[k].name)
    {
      var i := IndexOf(pushed, after[k].name);
      assert 0 <= i < |files| && pushed[i].name == files[i].name;
      assert files[i].name == after[k].name;
    }
  }

  lemma LinesBounded(before: seq<Entry>, pushed: seq<Entry>, after: seq<Entry>)
    requires |before| <= MAX_ENTRIES && IsMerged(before, pushed, after)
    ensures |before| <= |after| <= 1024 && forall k :: 0 <= k < |before| ==> after[k].name == before[k].name
  {
    hide MergedHash, NewNames;
  }

  lemma MergedLines(hash: Hasher, before: seq<Entry>, files: seq<PushFile>, after: seq<Entry>)
    requires Distinct(before) && |before| <= MAX_ENTRIES && after == Merge(before, Listed(hash, files))
    requires IsMerged(before, Listed(hash, files), after)
    ensures UpdatedBy(hash, before, files, after)
  {
    hide Merge, Distinct, Listed, Digest, IndexOf, LastOfName, IsMerged;
    LinesBounded(before, Listed(hash, files), after);
    LinesAdded(hash, before, files, after);
    forall k | 0 <= k < |before| && !IsPushed(files, before[k].name)
      ensures after[k].hash == before[k].hash
    {
      LinesKept(hash, before, files, after, k);
    }
    forall k, i | 0 <= k < |after| && 0 <= i < |files| && LastOfName(files, i, after[k].name)
      ensures after[k].hash == Digest(hash, files[i].content)
    {
      LinesPushed(hash, before, files, after, k, i);
    }
  }

  lemma AcceptedHere(hash: Hasher, repo: Repo, branch: string, parent: string, files: seq<PushFile>)
    requires branch in repo.heads ==> repo.heads[branch] == parent
    ensures var o := AtomicPush(hash, repo, branch, parent, files, Fine);
            && o.reply.Accepted? && branch in o.repo.heads && o.repo.heads[branch] in o.repo.objects
            && o.repo.heads[branch] != ""
  {
    hide Print, NewEntries, PutFiles, Digest;
  }

  /** What an accepted push makes of the manifest that the head named, or of none. */
  lemma ManifestAfterPush(hash: Hasher, repo: Repo, branch: string, parent: string, files: seq<PushFile>,
                          before: seq<Entry>)
    requires Closed(hash, repo) && GoodNames(files)
    requires branch in repo.heads ==> repo.heads[branch] == parent
    requires before == if branch in repo.heads && repo.heads[branch] in repo.objects
                       then Load(repo.objects[repo.heads[branch]]) else []
    ensures var repo' := AtomicPush(hash, repo, branch, parent, files, Fine).repo;
            && branch in repo'.heads && repo'.heads[branch] in repo'.objects
            && UpdatedBy(hash, before, files, Load(repo'.objects[repo'.heads[branch]]))
  {
    hide *;
    var repo' := AtomicPush(hash, repo, branch, parent, files, Fine).repo;
    AcceptedHere(hash, repo, branch, parent, files);
    PullAfterPush(hash, repo, branch, parent, files);
    PullAnswers(repo', branch);
    var after := Load(repo'.objects[repo'.heads[branch]]);
    assert after == Load(PullReply(repo', branch).bytes);
    MergedLines(hash, before, files, after);
  }
}
