/** From the bytes the proxy sends to the repository the server keeps. */
module PushEndToEnd {
  import opened CStrings
  import opened Manifest
  import opened Wire
  import opened WireRoundTrip
  import opened Store

  lemma ServePush(hash: Hasher, repo: Repo, branch: string, count: nat, parent: string, body: string, luck: Luck)
    requires GoodLine(branch, count, parent)
    ensures Serve(hash, repo, PushLine(branch, count, parent) + body, luck) ==
            if Rejects(repo, branch, parent) then Some(Served(repo, Conflict, body))
            else if luck == NoBuffer then Some(Served(repo, Dropped, body))
            else match DecodeFiles(count, body)
                 case None => None
                 case Some(read) =>
                   var o := AtomicPush(hash, repo, branch, parent, read.files, luck);
                   Some(Served(o.repo, o.reply, read.rest))
  {
    hide DecodeLine, DecodeCommand, DecodeFiles, PushLine, AtomicPush, Rejects;
    LineReads(branch, count, parent, body);
  }

  /** A complete push on the wire has on the repository the effect of one atomic push, and the next
      bytes of the stream are left alone. */
  lemma ServeCompletePush(hash: Hasher, repo: Repo, branch: string, parent: string, files: seq<PushFile>,
                          rest: string, luck: Luck)
    requires GoodLine(branch, |files|, parent) && AllFit(files)
    requires !Rejects(repo, branch, parent) && luck != NoBuffer
    ensures var o := AtomicPush(hash, repo, branch, parent, files, luck);
            Serve(hash, repo, PushLine(branch, |files|, parent) + (EncodeFiles(files) + rest), luck) ==
            Some(Served(o.repo, o.reply, rest))
  {
    hide *;
    ServePush(hash, repo, branch, |files|, parent, EncodeFiles(files) + rest, luck);
    DecodeAllFiles(files, rest);
  }

  /** What the proxy sends has on the repository the effect of one atomic push of the files it lists,
      with no byte left over, if and only if it skipped no entry; a push that is rejected or dropped
      leaves all the files unread. */
  lemma ServeSentPush(hash: Hasher, repo: Repo, es: seq<StatusEntry>, parent: string, luck: Luck)
    requires FullyDelivered(es) && AllFit(SentFiles(es))
    requires IsWord(parent) && |parent| <= PARENT_MAX && |es| <= INT_MAX
    ensures var o := AtomicPush(hash, repo, "main", parent, SentFiles(es), luck);
            Serve(hash, repo, Encode(es, parent), luck) ==
            if Rejects(repo, "main", parent) then Some(Served(repo, Conflict, EncodeFiles(SentFiles(es))))
            else if luck == NoBuffer then Some(Served(repo, Dropped, EncodeFiles(SentFiles(es))))
            else if NoneSkipped(es) then Some(Served(o.repo, o.reply, ""))
            else None
  {
    hide *;
    var files := SentFiles(es);
    EncodeIs(es, parent);
    MainLineIsGood(|es|, parent);
    EncodeSent(es);
    SentCount(es);
    ServePush(hash, repo, "main", |es|, parent, EncodeFiles(files), luck);
    if NoneSkipped(es) {
      DecodeAllFiles(files, "");
      assert EncodeFiles(files) + "" == EncodeFiles(files);
    } else {
      TooFewFiles(files, |es|);
    }
  }

  /** What has to be free of collisions for one connection: the store, the files, the new manifest. */
  ghost predicate NoClash(hash: Hasher, repo: Repo, branch: string, files: seq<PushFile>, contents: set<string>) {
    && Injective(hash, contents) && Stores(contents, repo.objects) && ContentsIn(files, contents)
    && Print(NewEntries(hash, repo, branch, files)) in contents
  }

  /** The files that a byte stream makes the server store. */
  function FilesOf(stream: string): seq<PushFile> {
    var head := DecodeLine(stream);
    match DecodeCommand(head.line)
    case Push(_, count, _) =>
      (match DecodeFiles(Rounds(count), head.rest)
       case None => []
       case Some(read) => read.files)
    case _ => []
  }

  function BranchOf(stream: string): string {
    match DecodeCommand(DecodeLine(stream).line)
    case Push(branch, _, _) => branch
    case Pull(branch) => branch
    case _ => ""
  }

  /** Whatever bytes a client sends, a closed repository stays closed and keeps every object. */
  lemma ServeKeepsClosed(hash: Hasher, repo: Repo, stream: string, luck: Luck, contents: set<string>)
    requires Closed(hash, repo) && NoClash(hash, repo, BranchOf(stream), FilesOf(stream), contents)
    ensures var served := Serve(hash, repo, stream, luck);
            served.Some? ==> Closed(hash, served.value.repo) && Grows(repo.objects, served.value.repo.objects)
  {
    hide Serve, AtomicPush, Closed, NoClash, GoodNames, Grows;
    GrowsItself(repo.objects);
    ServeIsPush(hash, repo, stream, luck);
    FilesGood(stream);
    ClashFreePush(hash, repo, BranchOf(stream), ParentOf(stream), FilesOf(stream), luck, contents);
  }

  function ParentOf(stream: string): string {
    match DecodeCommand(DecodeLine(stream).line)
    case Push(_, _, parent) => ParentWord(parent)
    case _ => ""
  }

  lemma DeclaredIsPush(hash: Hasher, repo: Repo, branch: string, count: int, word: Option<string>, rest: string,
                       luck: Luck)
    ensures var served := ServeDeclared(hash, repo, branch, count, word, rest, luck);
            var read := DecodeFiles(Rounds(count), rest);
            served.Some? ==>
              || served.value.repo == repo
              || (read.Some? &&
                  served.value.repo == AtomicPush(hash, repo, branch, ParentWord(word), read.value.files, luck).repo)
  {
    hide DecodeFiles, AtomicPush, Rejects, Head;
  }

  /** A connection leaves the repository as it was, or as one atomic push leaves it. */
  lemma ServeIsPush(hash: Hasher, repo: Repo, stream: string, luck: Luck)
    ensures var served := Serve(hash, repo, stream, luck);
            served.Some? ==>
              || served.value.repo == repo
              || served.value.repo ==
                 AtomicPush(hash, repo, BranchOf(stream), ParentOf(stream), FilesOf(stream), luck).repo
  {
    hide DecodeLine, DecodeCommand, DecodeFiles, AtomicPush, PullReply, Head, ServeDeclared;
    var head := DecodeLine(stream);
    var command := DecodeCommand(head.line);
    if command.Push? {
      DeclaredIsPush(hash, repo, command.branch, command.count, command.parent, head.rest, luck);
    }
  }

  lemma FilesGood(stream: string)
    ensures GoodNames(FilesOf(stream))
  {
    hide DecodeLine, DecodeCommand, DecodeFiles, GoodNames;
    NoNamesGood();
    var head := DecodeLine(stream);
    var command := DecodeCommand(head.line);
    if command.Push? {
      DecodedNamesGood(Rounds(command.count), head.rest);
    }
  }

  lemma ClashFreePush(hash: Hasher, repo: Repo, branch: string, parent: string, files: seq<PushFile>, luck: Luck,
                      contents: set<string>)
    requires Closed(hash, repo) && GoodNames(files) && NoClash(hash, repo, branch, files, contents)
    ensures var o := AtomicPush(hash, repo, branch, parent, files, luck);
            Closed(hash, o.repo) && Grows(repo.objects, o.repo.objects)
  {
    hide AtomicPush, Closed, Injective, Stores, ContentsIn, Print, NewEntries, GoodNames, Grows;
    AtomicPushKeepsClosed(hash, repo, branch, parent, files, luck, contents);
  }

  lemma GrowsItself(objects: map<string, string>)
    ensures Grows(objects, objects)
  {
  }

  lemma NoNamesGood()
    ensures GoodNames([])
  {
  }
}
