/** The connection handler as the program runs it, statement by statement, on a live socket. */
module PushServer {
  import opened CStrings
  import opened Manifest
  import opened Wire
  import opened Store

  lemma {:induction false} DecodeFilesPrefix(f: nat, count: nat, stream: string)
    requires f <= count && DecodeFiles(count, stream).Some?
    ensures DecodeFiles(f, stream).Some?
    decreases count
  {
    hide Digest, DecodeFile;
    if f < count {
      DecodeFilesPrefix(f, count - 1, stream);
    }
  }

  lemma NextFile(f: nat, count: nat, stream: string)
    requires f < count && DecodeFiles(count, stream).Some?
    ensures DecodeFiles(f, stream).Some?
    ensures var before := DecodeFiles(f, stream).value;
            && DecodeFile(before.rest).Some?
            && var one := DecodeFile(before.rest).value;
               DecodeFiles(f + 1, stream) == Some(FilesRead(before.files + [one.file], one.rest))
  {
    hide Digest, DecodeFile;
    DecodeFilesPrefix(f + 1, count, stream);
  }

  lemma NoFiles(hash: Hasher, objects: map<string, string>, es: seq<Entry>, stream: string)
    ensures PutFiles(hash, objects, []) == objects && Merge(es, Listed(hash, [])) == es
    ensures DecodeFiles(0, stream) == Some(FilesRead([], stream))
  {
  }

  /** The file loop after one more round: objects and table follow the decoded prefix. */
  lemma RoundAdvances(hash: Hasher, objects: map<string, string>, es: seq<Entry>, files: seq<PushFile>, f: PushFile)
    ensures PutFiles(hash, objects, files + [f]) == PutFiles(hash, objects, files)[Digest(hash, f.content) := f.content]
    ensures Merge(es, Listed(hash, files + [f])) ==
            Upsert(Merge(es, Listed(hash, files)), Entry(f.name, Digest(hash, f.content)))
  {
    hide Digest, Upsert;
    assert (files + [f])[..|files|] == files;
    var all := Listed(hash, files + [f]);
    assert all[..|files|] == Listed(hash, files);
  }

  /** What storing the files, then the manifest, then the head makes of a repository. */
  function Committed(hash: Hasher, repo: Repo, branch: string, es: seq<Entry>, files: seq<PushFile>, luck: Luck)
    : Outcome
  {
    var objects := PutFiles(hash, repo.objects, files);
    if luck == NoTempFile then Outcome(Repo(repo.heads, objects), Accepted(""))
    else
      var text := Print(Merge(es, Listed(hash, files)));
      var h := Digest(hash, text);
      Outcome(Repo(repo.heads[branch := h], objects[h := text]), Accepted(h))
  }

  class Server {
    const hash: Hasher
    var heads: map<string, string>
    var objects: map<string, string>

    constructor (hash: Hasher, heads: map<string, string>, objects: map<string, string>)
      ensures this.hash == hash && this.heads == heads && this.objects == objects
    {
      this.hash := hash;
      this.heads := heads;
      this.objects := objects;
    }

    function Repository(): Repo
      reads this
    {
      Repo(heads, objects)
    }

    method ReadBranchHead(branch: string) returns (head: string)
      ensures head == Head(Repository(), branch)
    {
      if branch in heads {
        head := heads[branch];
      } else {
        head := "";
      }
    }

    method ReceiveFile(socket: Socket) returns (file: PushFile)
      requires socket.Valid()
      requires DecodeFile(Bytes(socket.fragments)).Some?
      modifies socket
      ensures socket.Valid()
      ensures DecodeFile(old(Bytes(socket.fragments))) == Some(FileRead(file, Bytes(socket.fragments)))
    {
      hide Digest, ScanUnsigned, ScanWord, UpToNul, NoNul;
      ghost var stream := Bytes(socket.fragments);
      var fileHeader := socket.RecvAll(HEADER_SIZE);
      ghost var came := Min(|stream|, HEADER_SIZE);
      assert stream[..came] == fileHeader;
      var size := ScanUnsigned(UpToNul(fileHeader));
      var name := ScanWord(size.rest, HEADER_SIZE);
      ghost var body := Bytes(socket.fragments);
      var content := ReceiveBody(socket, size.value);
      ghost var n := Min(size.value, |body|);
      assert stream[came..came + n] == body[..n];
      assert stream[came + n..] == body[n..];
      file := PushFile(name.value, content);
    }

    /** One round of the file loop: receive, store under the hash, enter in the table. */
    method StoreFile(socket: Socket, entries: array<Entry>, count: nat) returns (numEntries: nat, ghost file: PushFile)
      requires socket.Valid() && entries.Length == MAX_ENTRIES && count <= MAX_ENTRIES
      requires DecodeFile(Bytes(socket.fragments)).Some?
      modifies `objects, socket, entries
      ensures socket.Valid() && numEntries <= MAX_ENTRIES
      ensures DecodeFile(old(Bytes(socket.fragments))) == Some(FileRead(file, Bytes(socket.fragments)))
      ensures objects == old(objects)[Digest(hash, file.content) := file.content]
      ensures entries[..numEntries] == Upsert(old(entries[..count]), Entry(file.name, Digest(hash, file.content)))
    {
      hide Digest, Upsert, DecodeFile, Bytes;
      var received := ReceiveFile(socket);
      var h := Digest(hash, received.content);
      objects := objects[h := received.content];
      numEntries := UpsertInPlace(entries, count, Entry(received.name, h));
      file := received;
    }

    method ReceiveFiles(socket: Socket, numFiles: int, entries: array<Entry>, count: nat) returns (numEntries: nat)
      requires socket.Valid() && entries.Length == MAX_ENTRIES && count <= MAX_ENTRIES
      requires DecodeFiles(Rounds(numFiles), Bytes(socket.fragments)).Some?
      modifies `objects, socket, entries
      ensures socket.Valid() && numEntries <= MAX_ENTRIES
      ensures var read := DecodeFiles(Rounds(numFiles), old(Bytes(socket.fragments))).value;
              && objects == PutFiles(hash, old(objects), read.files)
              && entries[..numEntries] == Merge(old(entries[..count]), Listed(hash, read.files))
              && Bytes(socket.fragments) == read.rest
    {
      hide Digest, Upsert, DecodeFile, DecodeFiles, Bytes, Merge, PutFiles, Listed;
      ghost var stream, objects0, es := Bytes(socket.fragments), objects, entries[..count];
      ghost var files: seq<PushFile> := [];
      NoFiles(hash, objects, es, stream);
      numEntries := count;
      var f := 0;
      while f < numFiles
        invariant 0 <= f <= Rounds(numFiles)
        invariant socket.Valid() && numEntries <= MAX_ENTRIES
        invariant objects == PutFiles(hash, objects0, files)
        invariant entries[..numEntries] == Merge(es, Listed(hash, files))
        invariant DecodeFiles(f, stream) == Some(FilesRead(files, Bytes(socket.fragments)))
      {
        NextFile(f, Rounds(numFiles), stream);
        ghost var file;
        numEntries, file := StoreFile(socket, entries, numEntries);
        RoundAdvances(hash, objects0, es, files, file);
        files := files + [file];
        f := f + 1;
      }
      assert f == Rounds(numFiles);
    }

    method LoadOldEntries(head: string, entries: array<Entry>) returns (numEntries: nat)
      requires entries.Length == MAX_ENTRIES
      modifies entries
      ensures numEntries <= MAX_ENTRIES && entries[..numEntries] == OldEntries(Repository(), head)
    {
      numEntries := 0;
      if head != "" {
        if head in objects {
          numEntries := LoadManifest(objects[head], entries);
        }
      }
    }

    method CommitEntries(branch: string, entries: array<Entry>, numEntries: nat, luck: Luck) returns (reply: Reply)
      requires numEntries <= entries.Length
      modifies this
      ensures var text := Print(entries[..numEntries]);
              if luck == NoTempFile then
                Repository() == old(Repository()) && reply == Accepted("")
              else
                && heads == old(heads)[branch := Digest(hash, text)]
                && objects == old(objects)[Digest(hash, text) := text]
                && reply == Accepted(Digest(hash, text))
    {
      hide Digest, Print;
      reply := Accepted("");
      if luck != NoTempFile {
        var text := PrintManifest(entries, numEntries);
        var manifestHash := Digest(hash, text);
        objects := objects[manifestHash := text];
        heads := heads[branch := manifestHash];
        reply := Accepted(manifestHash);
      }
    }

    /** The file loop and the manifest, over a table that is loaded already. */
    method ReceiveAndCommit(socket: Socket, branch: string, numFiles: int, entries: array<Entry>, count: nat,
                            luck: Luck)
      returns (reply: Reply)
      requires socket.Valid() && entries.Length == MAX_ENTRIES && count <= MAX_ENTRIES
      requires DecodeFiles(Rounds(numFiles), Bytes(socket.fragments)).Some?
      modifies this, socket, entries
      ensures socket.Valid()
      ensures var read := DecodeFiles(Rounds(numFiles), old(Bytes(socket.fragments))).value;
              && Bytes(socket.fragments) == read.rest
              && Outcome(Repository(), reply) ==
                 Committed(hash, old(Repository()), branch, old(entries[..count]), read.files, luck)
    {
      hide Digest, Print, Merge, DecodeFiles, PutFiles, Listed, Bytes;
      var numEntries := ReceiveFiles(socket, numFiles, entries, count);
      reply := CommitEntries(branch, entries, numEntries, luck);
    }

    /** Everything the handler does between taking and releasing branch_lock. */
    method HandlePush(socket: Socket, branch: string, numFiles: int, parent: string, luck: Luck)
      returns (reply: Reply)
      requires socket.Valid()
      requires Rejects(Repository(), branch, parent) || luck == NoBuffer
               || DecodeFiles(Rounds(numFiles), Bytes(socket.fragments)).Some?
      modifies this, socket
      ensures socket.Valid()
      ensures old(Rejects(Repository(), branch, parent)) || luck == NoBuffer ==>
                && Outcome(Repository(), reply) == AtomicPush(hash, old(Repository()), branch, parent, [], luck)
                && Bytes(socket.fragments) == old(Bytes(socket.fragments))
                && Repository() == old(Repository())
      ensures !old(Rejects(Repository(), branch, parent)) && luck != NoBuffer ==>
                var read := DecodeFiles(Rounds(numFiles), old(Bytes(socket.fragments))).value;
                && Outcome(Repository(), reply) == AtomicPush(hash, old(Repository()), branch, parent, read.files, luck)
                && Bytes(socket.fragments) == read.rest
    {
      hide Digest, OldEntries, DecodeFiles, Bytes, AtomicPush, Committed;
      AtomicPushCases(hash, Repository(), branch, parent, luck);
      var currentManifestHash := ReadBranchHead(branch);
      if currentManifestHash != "" && currentManifestHash != parent {
        return Conflict;
      }
      var entries := new Entry[MAX_ENTRIES](_ => Entry("", ""));
      var numEntries := LoadOldEntries(currentManifestHash, entries);
      if luck == NoBuffer {
        return Dropped;
      }
      reply := ReceiveAndCommit(socket, branch, numFiles, entries, numEntries, luck);
    }

    method HandlePull(branch: string) returns (reply: Reply)
      ensures reply == PullReply(Repository(), branch)
    {
      var lastCommit := ReadBranchHead(branch);
      if lastCommit == "" {
        return NoCommits;
      }
      if lastCommit !in objects {
        return Missing;
      }
      reply := Content(objects[lastCommit]);
    }

    method HandleClient(socket: Socket, luck: Luck) returns (reply: Reply)
      requires socket.Valid()
      requires Serve(hash, Repository(), Bytes(socket.fragments), luck).Some?
      modifies this, socket
      ensures socket.Valid()
      ensures Serve(hash, old(Repository()), old(Bytes(socket.fragments)), luck) ==
              Some(Served(Repository(), reply, Bytes(socket.fragments)))
    {
      hide Digest, DecodeLine, DecodeCommand, DecodeFiles, AtomicPush, ServeDeclared, Bytes, Rejects;
      ghost var repo := Repository();
      var header := ReadLine(socket);
      match DecodeCommand(header)
      case Push(branch, count, parent) =>
        DeclaredCases(hash, repo, branch, count, parent, Bytes(socket.fragments), luck);
        reply := HandlePush(socket, branch, count, ParentWord(parent), luck);
      case Pull(branch) =>
        reply := HandlePull(branch);
      case History(_) =>
        reply := NoCommits;
      case Other =>
        reply := Invalid;
    }
  }

  /** When a declared push is defined, and what HandlePush then has to achieve. */
  lemma DeclaredCases(hash: Hasher, repo: Repo, branch: string, count: int, word: Option<string>, rest: string,
                      luck: Luck)
    requires ServeDeclared(hash, repo, branch, count, word, rest, luck).Some?
    ensures var parent, read := ParentWord(word), DecodeFiles(Rounds(count), rest);
            var served := ServeDeclared(hash, repo, branch, count, word, rest, luck).value;
            if Rejects(repo, branch, parent) || luck == NoBuffer then
              && Outcome(repo, served.reply) == AtomicPush(hash, repo, branch, parent, [], luck)
              && served == Served(repo, served.reply, rest)
            else
              && read.Some?
              && var o := AtomicPush(hash, repo, branch, parent, read.value.files, luck);
                 served == Served(o.repo, o.reply, read.value.rest)
  {
    hide Digest, DecodeFiles, AtomicPush, Rejects, Head;
    AtomicPushCases(hash, repo, branch, ParentWord(word), luck);
  }

  /** The three ways a push ends before or after its files are read. */
  lemma AtomicPushCases(hash: Hasher, repo: Repo, branch: string, parent: string, luck: Luck)
    ensures Rejects(repo, branch, parent) ==>
              AtomicPush(hash, repo, branch, parent, [], luck) == Outcome(repo, Conflict)
    ensures !Rejects(repo, branch, parent) && luck == NoBuffer ==>
              AtomicPush(hash, repo, branch, parent, [], luck) == Outcome(repo, Dropped)
    ensures !Rejects(repo, branch, parent) && luck != NoBuffer ==>
              forall files :: AtomicPush(hash, repo, branch, parent, files, luck) ==
                              Committed(hash, repo, branch, OldEntries(repo, Head(repo, branch)), files, luck)
  {
    hide Digest, Print, Merge, OldEntries, Listed, PutFiles;
  }
}
