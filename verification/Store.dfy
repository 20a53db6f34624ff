/** Branch heads, the content-addressed object store, and one push as a single atomic step. */
module Store {
  import opened CStrings
  import opened Manifest
  import opened Wire

  /** SHA-1 in hexadecimal, of which only the shape of the result is known. */
  type Hasher = h: string -> string | forall c :: IsWord(h(c)) && |h(c)| == HASH_SIZE
    witness (c => seq(40, _ => '0'))

  /** The name under which a content is stored. */
  function Digest(hash: Hasher, content: string): (h: string)
    ensures IsWord(h) && |h| == HASH_SIZE
  {
    hash(content)
  }

  /** The table after a received file is entered. */
  function ListFile(hash: Hasher, entries: seq<Entry>, f: PushFile): seq<Entry> {
    Upsert(entries, Entry(f.name, Digest(hash, f.content)))
  }

  datatype Repo = Repo(heads: map<string, string>, objects: map<string, string>)

  /** Failures the push handler checks for: no receive buffer, no temporary file for the manifest. */
  datatype Luck = Fine | NoBuffer | NoTempFile

  datatype Reply = Conflict | Accepted(hash: string) | Dropped | NoCommits | Missing | Content(bytes: string) | Invalid

  /** read_branch_head: the empty string stands for a branch without commits. */
  function Head(repo: Repo, branch: string): string {
    if branch in repo.heads then repo.heads[branch] else ""
  }

  function OldEntries(repo: Repo, head: string): seq<Entry> {
    if head != "" && head in repo.objects then Load(repo.objects[head]) else []
  }

  function PutFiles(hash: Hasher, objects: map<string, string>, files: seq<PushFile>): map<string, string> {
    if files == [] then objects
    else
      var c := files[|files| - 1].content;
      PutFiles(hash, objects, files[..|files| - 1])[Digest(hash, c) := c]
  }

  function Listed(hash: Hasher, files: seq<PushFile>): seq<Entry> {
    seq(|files|, i requires 0 <= i < |files| => Entry(files[i].name, Digest(hash, files[i].content)))
  }

  predicate Rejects(repo: Repo, branch: string, parent: string) {
    Head(repo, branch) != "" && Head(repo, branch) != parent
  }

  function NewEntries(hash: Hasher, repo: Repo, branch: string, files: seq<PushFile>): seq<Entry> {
    Merge(OldEntries(repo, Head(repo, branch)), Listed(hash, files))
  }

  datatype Outcome = Outcome(repo: Repo, reply: Reply)

  /** The whole push as one step: compare the head, store the files, the manifest, then the head. */
  function AtomicPush(hash: Hasher, repo: Repo, branch: string, parent: string, files: seq<PushFile>, luck: Luck)
    : Outcome
  {
    if Rejects(repo, branch, parent) then Outcome(repo, Conflict)
    else if luck == NoBuffer then Outcome(repo, Dropped)
    else
      var objects := PutFiles(hash, repo.objects, files);
      if luck == NoTempFile then Outcome(Repo(repo.heads, objects), Accepted(""))
      else
        var text := Print(NewEntries(hash, repo, branch, files));
        var h := Digest(hash, text);
        Outcome(Repo(repo.heads[branch := h], objects[h := text]), Accepted(h))
  }

  /** What PULL sends for a head it has read. */
  function ObjectReply(repo: Repo, head: string): Reply {
    if head in repo.objects then Content(repo.objects[head]) else Missing
  }

  function PullReply(repo: Repo, branch: string): Reply {
    var head := Head(repo, branch);
    if head == "" then NoCommits else ObjectReply(repo, head)
  }

  datatype Served = Served(repo: Repo, reply: Reply, rest: string)

  /** The parent as the handler reads it: on an empty branch it is not read, so it may be missing. */
  function ParentWord(parent: Option<string>): string {
    if parent.Some? then parent.value else ""
  }

  /** A push whose command line has been read, with the rest of its stream.  None: see Serve. */
  function ServeDeclared(hash: Hasher, repo: Repo, branch: string, count: int, word: Option<string>, rest: string,
                         luck: Luck): Option<Served>
  {
    var parent := ParentWord(word);
    if word == None && Head(repo, branch) != "" then None
    else if Rejects(repo, branch, parent) then Some(Served(repo, Conflict, rest))
    else if luck == NoBuffer then Some(Served(repo, Dropped, rest))
    else
      match DecodeFiles(Rounds(count), rest)
      case None => None
      case Some(read) =>
        var o := AtomicPush(hash, repo, branch, parent, read.files, luck);
        Some(Served(o.repo, o.reply, read.rest))
  }

  /** What one connection does to the repository.  None: the program would use unset variables, or
      HISTORY has a head to walk from. */
  function Serve(hash: Hasher, repo: Repo, stream: string, luck: Luck): Option<Served> {
    var head := DecodeLine(stream);
    match DecodeCommand(head.line)
    case Push(branch, count, word) => ServeDeclared(hash, repo, branch, count, word, head.rest, luck)
    case Pull(branch) => Some(Served(repo, PullReply(repo, branch), head.rest))
    case History(branch) => if Head(repo, branch) == "" then Some(Served(repo, NoCommits, head.rest)) else None
    case Other => Some(Served(repo, Invalid, head.rest))
    case _ => None
  }

  // ---- the invariant of the store ---------------------------------------------------------

  /** A manifest text whose entries are well formed, distinct, at most 1024 and all stored. */
  ghost predicate GoodManifest(text: string, objects: map<string, string>) {
    var es := Load(text);
    && text == Print(es)
    && AllWellFormed(es) && Distinct(es) && |es| <= MAX_ENTRIES
    && forall i :: 0 <= i < |es| ==> es[i].hash in objects
  }

  ghost predicate ContentAddressed(hash: Hasher, objects: map<string, string>) {
    forall h :: h in objects ==> Digest(hash, objects[h]) == h
  }

  /** Every head names a stored good manifest. */
  ghost predicate HeadsGood(heads: map<string, string>, objects: map<string, string>) {
    forall b :: b in heads ==> heads[b] in objects && GoodManifest(objects[heads[b]], objects)
  }

  /** Every object is stored under its hash, and every head names a good manifest. */
  ghost predicate Closed(hash: Hasher, repo: Repo) {
    ContentAddressed(hash, repo.objects) && HeadsGood(repo.heads, repo.objects)
  }

  /** Storing c keeps whatever is already stored under its hash: SHA-1 does not collide here. */
  predicate NoCollision(hash: Hasher, objects: map<string, string>, c: string) {
    Digest(hash, c) in objects ==> objects[Digest(hash, c)] == c
  }

  ghost predicate Grows(objects: map<string, string>, objects': map<string, string>) {
    forall h :: h in objects ==> h in objects' && objects'[h] == objects[h]
  }

  predicate GoodName(f: PushFile) {
    IsWord(f.name) && |f.name| <= NAME_MAX
  }

  predicate GoodNames(files: seq<PushFile>) {
    forall i :: 0 <= i < |files| ==> GoodName(files[i])
  }

  lemma GoodManifestGrows(text: string, objects: map<string, string>, objects': map<string, string>)
    requires GoodManifest(text, objects) && Grows(objects, objects')
    ensures GoodManifest(text, objects')
  {
    hide Load, Print;
  }

  lemma GrowsByPut(hash: Hasher, objects: map<string, string>, c: string)
    requires ContentAddressed(hash, objects) && NoCollision(hash, objects, c)
    ensures var objects' := objects[Digest(hash, c) := c]; Grows(objects, objects') && ContentAddressed(hash, objects')
  {
  }

  lemma HeadsGoodGrow(heads: map<string, string>, objects: map<string, string>, objects': map<string, string>)
    requires HeadsGood(heads, objects) && Grows(objects, objects')
    ensures HeadsGood(heads, objects')
  {
    hide GoodManifest;
    forall b | b in heads
      ensures heads[b] in objects' && GoodManifest(objects'[heads[b]], objects')
    {
      GoodManifestGrows(objects[heads[b]], objects, objects');
    }
  }

  lemma ClosedPut(hash: Hasher, repo: Repo, c: string)
    requires Closed(hash, repo) && NoCollision(hash, repo.objects, c)
    ensures Closed(hash, Repo(repo.heads, repo.objects[Digest(hash, c) := c]))
    ensures Grows(repo.objects, repo.objects[Digest(hash, c) := c])
  {
    hide HeadsGood, ContentAddressed, NoCollision, Grows, Digest;
    GrowsByPut(hash, repo.objects, c);
    HeadsGoodGrow(repo.heads, repo.objects, repo.objects[Digest(hash, c) := c]);
  }

  /** Entries that make up a good manifest once all their hashes are stored. */
  ghost predicate GoodEntries(es: seq<Entry>, objects: map<string, string>) {
    && AllWellFormed(es) && Distinct(es) && |es| <= MAX_ENTRIES
    && forall i :: 0 <= i < |es| ==> es[i].hash in objects
  }

  lemma GoodEntriesGrow(es: seq<Entry>, objects: map<string, string>, objects': map<string, string>)
    requires GoodEntries(es, objects) && Grows(objects, objects')
    ensures GoodEntries(es, objects')
  {
  }

  lemma GoodEntriesPrint(es: seq<Entry>, objects: map<string, string>)
    requires GoodEntries(es, objects)
    ensures GoodManifest(Print(es), objects)
  {
    hide Load, Print;
    LoadPrint(es);
  }

  lemma OldEntriesGood(hash: Hasher, repo: Repo, branch: string)
    requires Closed(hash, repo)
    ensures GoodEntries(OldEntries(repo, Head(repo, branch)), repo.objects)
  {
    hide Load, Print;
  }

  lemma GoodEntriesUpsert(es: seq<Entry>, e: Entry, objects: map<string, string>)
    requires GoodEntries(es, objects) && WellFormed(e) && e.hash in objects
    ensures GoodEntries(Upsert(es, e), objects)
  {
    hide IndexOf;
  }

  lemma ClosedHead(hash: Hasher, repo: Repo, branch: string, es: seq<Entry>)
    requires Closed(hash, repo) && GoodEntries(es, repo.objects)
    requires Digest(hash, Print(es)) in repo.objects && repo.objects[Digest(hash, Print(es))] == Print(es)
    ensures Closed(hash, Repo(repo.heads[branch := Digest(hash, Print(es))], repo.objects))
  {
    hide GoodManifest, Print;
    GoodEntriesPrint(es, repo.objects);
  }

  // ---- what one push keeps and what a later PULL sees --------------------------------------

  /** SHA-1 is injective on a set of contents. */
  ghost predicate Injective(hash: Hasher, contents: set<string>) {
    forall a, b :: a in contents && b in contents && Digest(hash, a) == Digest(hash, b) ==> a == b
  }

  ghost predicate Stores(contents: set<string>, objects: map<string, string>) {
    forall h :: h in objects ==> objects[h] in contents
  }

  lemma InjectiveNoCollision(hash: Hasher, objects: map<string, string>, contents: set<string>, c: string)
    requires Injective(hash, contents) && Stores(contents, objects) && c in contents
    requires ContentAddressed(hash, objects)
    ensures NoCollision(hash, objects, c)
  {
  }

  lemma GrowsTrans(a: map<string, string>, b: map<string, string>, c: map<string, string>)
    requires Grows(a, b) && Grows(b, c)
    ensures Grows(a, c)
  {
  }

  lemma PutOne(hash: Hasher, repo: Repo, c: string, contents: set<string>)
    requires Closed(hash, repo) && Injective(hash, contents) && Stores(contents, repo.objects) && c in contents
    ensures var objects := repo.objects[Digest(hash, c) := c];
            && Closed(hash, Repo(repo.heads, objects)) && Grows(repo.objects, objects) && Stores(contents, objects)
            && ContentAddressed(hash, objects)
  {
    InjectiveNoCollision(hash, repo.objects, contents, c);
    hide GoodManifest;
    ClosedPut(hash, repo, c);
  }

  ghost predicate HasAll(hash: Hasher, objects: map<string, string>, files: seq<PushFile>) {
    forall i :: 0 <= i < |files| ==> Digest(hash, files[i].content) in objects
  }

  lemma HasAllSnoc(hash: Hasher, objects: map<string, string>, files: seq<PushFile>, f: PushFile)
    requires HasAll(hash, objects, files)
    ensures HasAll(hash, objects[Digest(hash, f.content) := f.content], files + [f])
  {
  }

  ghost predicate ContentsIn(files: seq<PushFile>, contents: set<string>) {
    forall i :: 0 <= i < |files| ==> files[i].content in contents
  }

  lemma ContentsInSplit(files: seq<PushFile>, contents: set<string>)
    requires ContentsIn(files, contents) && files != []
    ensures ContentsIn(files[..|files| - 1], contents) && files[|files| - 1].content in contents
    ensures files == files[..|files| - 1] + [files[|files| - 1]]
  {
  }

  lemma {:induction false} PutFilesClosed(hash: Hasher, repo: Repo, files: seq<PushFile>, contents: set<string>)
    requires Closed(hash, repo) && Injective(hash, contents) && Stores(contents, repo.objects)
    requires ContentsIn(files, contents)
    ensures var objects := PutFiles(hash, repo.objects, files);
            && Closed(hash, Repo(repo.heads, objects)) && Grows(repo.objects, objects) && Stores(contents, objects)
            && HasAll(hash, objects, files) && ContentAddressed(hash, objects)
  {
    if files != [] {
      hide Closed, Injective, Stores, ContentAddressed, Grows, HasAll, ContentsIn;
      var init, f := files[..|files| - 1], files[|files| - 1];
      ContentsInSplit(files, contents);
      PutFilesClosed(hash, repo, init, contents);
      var objects := PutFiles(hash, repo.objects, init);
      PutOne(hash, Repo(repo.heads, objects), f.content, contents);
      HasAllSnoc(hash, objects, init, f);
      GrowsTrans(repo.objects, objects, objects[Digest(hash, f.content) := f.content]);
    }
  }

  lemma {:induction false} MergeGood(hash: Hasher, es: seq<Entry>, files: seq<PushFile>, objects: map<string, string>)
    requires GoodEntries(es, objects) && GoodNames(files)
    requires HasAll(hash, objects, files)
    ensures GoodEntries(Merge(es, Listed(hash, files)), objects)
    decreases |files|
  {
    hide GoodEntries, Upsert;
    if files != [] {
      var init, f := files[..|files| - 1], files[|files| - 1];
      assert Listed(hash, files)[..|init|] == Listed(hash, init);
      MergeGood(hash, es, init, objects);
      GoodEntriesUpsert(Merge(es, Listed(hash, init)), Entry(f.name, Digest(hash, f.content)), objects);
    }
  }

  /** Storing a good manifest and then moving a head to it. */
  lemma CommitManifest(hash: Hasher, repo: Repo, branch: string, es: seq<Entry>)
    requires Closed(hash, repo) && GoodEntries(es, repo.objects) && NoCollision(hash, repo.objects, Print(es))
    ensures var h := Digest(hash, Print(es));
            var objects := repo.objects[h := Print(es)];
            Closed(hash, Repo(repo.heads[branch := h], objects)) && Grows(repo.objects, objects)
  {
    hide Closed, Print, GoodEntries;
    ClosedPut(hash, repo, Print(es));
    var objects := repo.objects[Digest(hash, Print(es)) := Print(es)];
    GoodEntriesGrow(es, repo.objects, objects);
    ClosedHead(hash, Repo(repo.heads, objects), branch, es);
  }

  lemma NewEntriesGood(hash: Hasher, repo: Repo, branch: string, files: seq<PushFile>, objects: map<string, string>)
    requires Closed(hash, repo) && GoodNames(files)
    requires Grows(repo.objects, objects) && HasAll(hash, objects, files)
    ensures GoodEntries(NewEntries(hash, repo, branch, files), objects)
  {
    hide Closed, GoodEntries, Merge, OldEntries, Grows, GoodNames, HasAll, Listed;
    var old_ := OldEntries(repo, Head(repo, branch));
    OldEntriesGood(hash, repo, branch);
    GoodEntriesGrow(old_, repo.objects, objects);
    MergeGood(hash, old_, files, objects);
  }

  /** A push keeps the store closed under references and never loses or rewrites an object. */
  lemma AtomicPushKeepsClosed(hash: Hasher, repo: Repo, branch: string, parent: string, files: seq<PushFile>,
                              luck: Luck, contents: set<string>)
    requires Closed(hash, repo) && GoodNames(files)
    requires Injective(hash, contents) && Stores(contents, repo.objects)
    requires ContentsIn(files, contents)
    requires Print(NewEntries(hash, repo, branch, files)) in contents
    ensures var o := AtomicPush(hash, repo, branch, parent, files, luck);
            Closed(hash, o.repo) && Grows(repo.objects, o.repo.objects)
  {
    hide Closed, Print, GoodEntries, GoodNames, Injective, Stores, HasAll, NewEntries, PutFiles, NoCollision, Rejects;
    PutFilesClosed(hash, repo, files, contents);
    var objects := PutFiles(hash, repo.objects, files);
    var es := NewEntries(hash, repo, branch, files);
    InjectiveNoCollision(hash, objects, contents, Print(es));
    NewEntriesGood(hash, repo, branch, files, objects);
    CommitManifest(hash, Repo(repo.heads, objects), branch, es);
    GrowsTrans(repo.objects, objects, objects[Digest(hash, Print(es)) := Print(es)]);
  }

  /** After an accepted push, PULL returns bytes that hash to the head and load as the exact merge of
      the manifest that the head named before, or of none, with the pushed files. */
  lemma PullAfterPush(hash: Hasher, repo: Repo, branch: string, parent: string, files: seq<PushFile>)
    requires Closed(hash, repo) && GoodNames(files)
    ensures var o := AtomicPush(hash, repo, branch, parent, files, Fine);
            var old_ := if branch in repo.heads && repo.heads[branch] in repo.objects
                        then Load(repo.objects[repo.heads[branch]]) else [];
            o.reply.Accepted? ==>
              && PullReply(o.repo, branch).Content?
              && Digest(hash, PullReply(o.repo, branch).bytes) == Head(o.repo, branch) == o.reply.hash
              && |old_| <= MAX_ENTRIES && Distinct(old_)
              && Load(PullReply(o.repo, branch).bytes) == Merge(old_, Listed(hash, files))
              && IsMerged(old_, Listed(hash, files), Load(PullReply(o.repo, branch).bytes))
  {
    hide Print, Load, IsMerged, GoodManifest, OldEntries, PutFiles, Merge;
    var old_ := OldEntries(repo, Head(repo, branch));
    OldEntriesGood(hash, repo, branch);
    OldEntriesAre(hash, repo, branch);
    MergeWellFormed(old_, Listed(hash, files));
    MergeExact(old_, Listed(hash, files));
    LoadPrint(NewEntries(hash, repo, branch, files));
  }

  /** In a closed repository the old entries are those of the manifest that the head names. */
  lemma OldEntriesAre(hash: Hasher, repo: Repo, branch: string)
    requires Closed(hash, repo)
    ensures OldEntries(repo, Head(repo, branch)) ==
            if branch in repo.heads && repo.heads[branch] in repo.objects
            then Load(repo.objects[repo.heads[branch]]) else []
  {
    hide Load, GoodManifest;
    if branch in repo.heads {
      assert Digest(hash, repo.objects[repo.heads[branch]]) == repo.heads[branch];
    }
  }

  /** The four answers to a PULL, whatever heads and objects are. */
  lemma PullAnswers(repo: Repo, branch: string)
    ensures branch !in repo.heads ==> PullReply(repo, branch) == NoCommits
    ensures branch in repo.heads && repo.heads[branch] == "" ==> PullReply(repo, branch) == NoCommits
    ensures branch in repo.heads && repo.heads[branch] != "" && repo.heads[branch] in repo.objects ==>
              PullReply(repo, branch) == Content(repo.objects[repo.heads[branch]])
    ensures branch in repo.heads && repo.heads[branch] != "" && repo.heads[branch] !in repo.objects ==>
              PullReply(repo, branch) == Missing
  {
  }

  /** Whatever bytes arrive, a name that scans is a name the manifest can hold. */
  lemma DecodedNameGood(stream: string)
    ensures DecodeFile(stream).Some? ==> GoodName(DecodeFile(stream).value.file)
  {
    var text := UpToNul(stream[..Min(|stream|, HEADER_SIZE)]);
    if DecodeFile(stream).Some? {
      ScannedIsSlice(text);
    }
  }

  lemma ScannedIsSlice(text: string)
    requires NoNul(text) && |text| < HEADER_SIZE
    requires ScanUnsigned(text).Match? && ScanWord(ScanUnsigned(text).rest, HEADER_SIZE).Match?
    ensures var name := ScanWord(ScanUnsigned(text).rest, HEADER_SIZE).value;
            IsWord(name) && |name| <= NAME_MAX
  {
    hide StrSpn, StrCSpn, ScanInt;
    ScanIntRest(text);
    var rest := ScanUnsigned(text).rest;
    assert NoNul(rest) && |rest| <= NAME_MAX;
  }

  lemma ScanIntRest(text: string)
    requires ScanInt(text).Match?
    ensures var rest := ScanInt(text).rest;
            |rest| <= |text| && rest == text[|text| - |rest|..]
  {
    hide StrSpn, Value;
  }

  lemma {:induction false} DecodedNamesGood(count: nat, stream: string)
    ensures DecodeFiles(count, stream).Some? ==> GoodNames(DecodeFiles(count, stream).value.files)
  {
    hide DecodeFile, GoodName;
    if count > 0 {
      DecodedNamesGood(count - 1, stream);
      if DecodeFiles(count - 1, stream).Some? {
        DecodedNameGood(DecodeFiles(count - 1, stream).value.rest);
      }
    }
  }

  // ---- a head that returns ------------------------------------------------------------------------

  /** The manifest of a branch that holds one file f with the given content. */
  function OneFileManifest(hash: Hasher, content: string): string {
    Print([Entry("f", Digest(hash, content))])
  }

  function OneFilePush(hash: Hasher, repo: Repo, parent: string, content: string): Outcome {
    AtomicPush(hash, repo, "main", parent, [PushFile("f", content)], Fine)
  }

  ghost predicate HeadIs(hash: Hasher, repo: Repo, content: string) {
    var h := Digest(hash, OneFileManifest(hash, content));
    Head(repo, "main") == h && h in repo.objects && repo.objects[h] == OneFileManifest(hash, content)
  }

  lemma OneFileEntries(hash: Hasher, repo: Repo, old_: seq<Entry>, content: string)
    requires OldEntries(repo, Head(repo, "main")) == old_ && (old_ == [] || (|old_| == 1 && old_[0].name == "f"))
    ensures NewEntries(hash, repo, "main", [PushFile("f", content)]) == [Entry("f", Digest(hash, content))]
  {
    hide Digest, OldEntries;
    var e := Entry("f", Digest(hash, content));
    assert Listed(hash, [PushFile("f", content)]) == [e];
    assert [e][..0] == [];
    assert Merge(old_, []) == old_;
  }

  lemma OneFileAccepted(hash: Hasher, repo: Repo, parent: string, content: string)
    requires Head(repo, "main") == "" || Head(repo, "main") == parent
    requires NewEntries(hash, repo, "main", [PushFile("f", content)]) == [Entry("f", Digest(hash, content))]
    ensures var o := OneFilePush(hash, repo, parent, content);
            o.reply == Accepted(Digest(hash, OneFileManifest(hash, content))) && HeadIs(hash, o.repo, content)
  {
    hide Digest, Print, NewEntries, PutFiles;
  }

  lemma FirstOneFile(hash: Hasher, parent: string, content: string)
    ensures var o := OneFilePush(hash, Repo(map[], map[]), parent, content);
            o.reply == Accepted(Digest(hash, OneFileManifest(hash, content))) && HeadIs(hash, o.repo, content)
  {
    hide Digest, Print, NewEntries, OneFilePush, HeadIs;
    OneFileEntries(hash, Repo(map[], map[]), [], content);
    OneFileAccepted(hash, Repo(map[], map[]), parent, content);
  }

  lemma NextOneFile(hash: Hasher, repo: Repo, before: string, content: string)
    requires HeadIs(hash, repo, before)
    ensures var o := OneFilePush(hash, repo, Digest(hash, OneFileManifest(hash, before)), content);
            o.reply == Accepted(Digest(hash, OneFileManifest(hash, content))) && HeadIs(hash, o.repo, content)
  {
    hide Print, Load, NewEntries, OneFilePush;
    var e := Entry("f", Digest(hash, before));
    assert WellFormed(e);
    LoadPrint([e]);
    OneFileEntries(hash, repo, [e], content);
    OneFileAccepted(hash, repo, Digest(hash, OneFileManifest(hash, before)), content);
  }

  /** Writing a file, changing it and changing it back brings the head back, after which a second
      push on the same parent is accepted. */
  lemma ParentAcceptedTwice(hash: Hasher, first: string, a: string, b: string)
    ensures var ha, hb := Digest(hash, OneFileManifest(hash, a)), Digest(hash, OneFileManifest(hash, b));
            var o1 := OneFilePush(hash, Repo(map[], map[]), first, a);
            var o2 := OneFilePush(hash, o1.repo, ha, b);
            var o3 := OneFilePush(hash, o2.repo, hb, a);
            var o4 := OneFilePush(hash, o3.repo, ha, b);
            o2.reply == Accepted(hb) && o3.reply == Accepted(ha) && o4.reply == Accepted(hb)
  {
    hide Digest, OneFileManifest, OneFilePush, HeadIs;
    FirstOneFile(hash, first, a);
    var ha, hb := Digest(hash, OneFileManifest(hash, a)), Digest(hash, OneFileManifest(hash, b));
    var o1 := OneFilePush(hash, Repo(map[], map[]), first, a);
    NextOneFile(hash, o1.repo, a, b);
    var o2 := OneFilePush(hash, o1.repo, ha, b);
    NextOneFile(hash, o2.repo, b, a);
    NextOneFile(hash, OneFilePush(hash, o2.repo, hb, a).repo, a, b);
  }
}
