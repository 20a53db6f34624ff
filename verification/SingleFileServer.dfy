/** The older server: one file per push, which aborts when the stream is cut. */
module SingleFileServer {
  import opened CStrings
  import opened Manifest
  import opened Wire
  import opened Store

  /** Failures of the file system that the handler checks: mkstemp, the write with a given number, rename. */
  datatype Faults = Faults(mkstempFails: bool, failingWrite: Option<nat>, renameFails: bool)

  const NO_FAULTS := Faults(false, None, false)

  datatype Saved = Saved(hash: string) | NoTemporary | WriteFailed | ConnectionLost | MoveFailed | OtherReply

  datatype FirstRead = OnePush(branch: string, size: nat, name: string, initial: string) | NotPush | NotSet

  const NAME_SIZE: nat := 127

  /** What the first recv returns. */
  function FirstRecv(fragments: seq<string>): string {
    NextRecv(fragments, BUFFER_SIZE - 1)
  }

  /** sscanf(buffer, "%s %s %lu %s") and the search for the end of the header line.  NotPush: another
      command, or nothing came.  NotSet: a variable the handler reads is not assigned, or a word does not
      fit its array. */
  function DecodeFirst(buffer: string): FirstRead {
    if buffer == "" then NotPush else DecodeWords(buffer)
  }

  function DecodeWords(buffer: string): FirstRead {
    match ScanWord(UpToNul(buffer), UNLIMITED)
    case NoMatch => NotSet
    case Match(command, afterCommand) =>
      if |command| > COMMAND_MAX then NotSet
      else
        match ScanWord(afterCommand, UNLIMITED)
        case NoMatch => if command in {"PUSH", "PULL", "HISTORY"} then NotSet else NotPush
        case Match(branch, afterBranch) =>
          if |branch| > BRANCH_MAX then NotSet else DecodeSize(buffer, command == "PUSH", branch, afterBranch)
  }

  function DecodeSize(buffer: string, push: bool, branch: string, afterBranch: string): FirstRead {
    match ScanUnsigned(afterBranch)
    case NoMatch => if push then NotSet else NotPush
    case Match(size, afterSize) =>
      match ScanWord(afterSize, UNLIMITED)
      case NoMatch => if push then NotSet else NotPush
      case Match(name, _) =>
        if |name| > NAME_SIZE then NotSet
        else if push then OnePush(branch, size, name, InitialData(buffer))
        else NotPush
  }

  /** The payload bytes that came with the header; none when no newline is found. */
  function InitialData(buffer: string): string {
    var k := StrCSpn(buffer, {NUL, '\n'});
    if k < |buffer| && buffer[k] == '\n' then buffer[k + 1..] else ""
  }

  lemma BytesSnoc(pieces: seq<string>, piece: string)
    ensures Bytes(pieces + [piece]) == Bytes(pieces) + piece
    decreases |pieces|
  {
    if pieces == [] {
      assert [] + [piece] == [piece] && Bytes([piece]) == piece + Bytes([piece][1..]);
    } else {
      var all := pieces + [piece];
      assert all[0] == pieces[0] && all[1..] == pieces[1..] + [piece];
      BytesSnoc(pieces[1..], piece);
    }
  }

  /** The pieces given to write, one after another, from all the bytes that come: first those that came
      with the header, if any; then what each recv returns, called only while bytes are missing. */
  predicate Tries(initial: string, bytes: string, size: nat, tried: seq<string>) {
    && Bytes(tried) <= bytes
    && (tried != [] && initial != "" ==> tried[0] == initial)
    && (forall i :: 0 <= i < |tried| ==> tried[i] != "")
    && (forall i :: 0 <= i < |tried| && (i > 0 || initial == "") ==> |tried[i]| <= BUFFER_SIZE)
    && (forall i :: 0 <= i < |tried| && (i > 0 || initial == "") ==> |Bytes(tried[..i])| < size)
  }

  /** What a push does to the repository and which answer it gets, for every combination of failures, given
      all the bytes after its header line and the pieces of them that were given to write. */
  ghost predicate PushResult(hash: Hasher, repo: Repo, repo': Repo, branch: string, size: nat, initial: string,
                             bytes: string, faults: Faults, reply: Saved, tried: seq<string>) {
    && Tries(initial, bytes, size, tried)
    && reply == (if faults.mkstempFails then NoTemporary
                 else if faults.failingWrite.Some? && faults.failingWrite.value < |tried| then WriteFailed
                 else if |bytes| < size then ConnectionLost
                 else if faults.renameFails then MoveFailed
                 else Saved(Digest(hash, Bytes(tried))))
    && (reply == NoTemporary ==> tried == [])
    && (reply == WriteFailed ==> |tried| == faults.failingWrite.value + 1)
    && (reply == ConnectionLost ==> Bytes(tried) == bytes)
    && (reply == MoveFailed || reply.Saved? ==> |Bytes(tried)| >= size && initial <= Bytes(tried))
    && repo' == if reply.Saved? then Repo(repo.heads[branch := reply.hash], repo.objects[reply.hash := Bytes(tried)])
                else repo
  }

  /** Unlinking a temporary file leaves the others. */
  lemma TempGone(temps: map<nat, string>, temp: nat, content: string)
    requires temp !in temps
    ensures temps[temp := content] - {temp} == temps
  {
  }

  /** What receiving ends with: a failure, or enough bytes. */
  ghost predicate ReceiveResult(initial: string, bytes: string, size: nat, faults: Faults, failure: Option<Saved>,
                                tried: seq<string>) {
    && Tries(initial, bytes, size, tried)
    && failure == (if faults.mkstempFails then Some(NoTemporary)
                   else if faults.failingWrite.Some? && faults.failingWrite.value < |tried| then Some(WriteFailed)
                   else if |bytes| < size then Some(ConnectionLost)
                   else None)
    && (failure == Some(NoTemporary) ==> tried == [])
    && (failure == Some(WriteFailed) ==> |tried| == faults.failingWrite.value + 1)
    && (failure == Some(ConnectionLost) ==> Bytes(tried) == bytes)
    && (failure == None ==> |Bytes(tried)| >= size && initial <= Bytes(tried))
  }

  lemma FailedPush(hash: Hasher, repo: Repo, branch: string, size: nat, initial: string, bytes: string, faults: Faults,
                   failure: Saved, tried: seq<string>)
    requires ReceiveResult(initial, bytes, size, faults, Some(failure), tried)
    ensures PushResult(hash, repo, repo, branch, size, initial, bytes, faults, failure, tried)
  {
    hide Bytes, Tries, Digest;
  }

  lemma ReceivedPush(hash: Hasher, repo: Repo, branch: string, size: nat, initial: string, bytes: string,
                     faults: Faults, tried: seq<string>)
    requires ReceiveResult(initial, bytes, size, faults, None, tried)
    ensures faults.renameFails ==> PushResult(hash, repo, repo, branch, size, initial, bytes, faults, MoveFailed, tried)
    ensures !faults.renameFails ==>
              var content, h := Bytes(tried), Digest(hash, Bytes(tried));
              PushResult(hash, repo, Repo(repo.heads[branch := h], repo.objects[h := content]), branch, size, initial,
                         bytes, faults, Saved(h), tried)
  {
    hide Bytes, Tries, Digest;
  }

  lemma NothingTried(initial: string, bytes: string, size: nat)
    ensures Tries(initial, bytes, size, []) && Bytes([]) == ""
  {
  }

  lemma FirstTried(initial: string, bytes: string, size: nat)
    requires initial != "" && initial <= bytes
    ensures Tries(initial, bytes, size, [initial]) && Bytes([initial]) == initial
  {
    assert [initial][1..] == [];
  }

  lemma NextTried(initial: string, bytes: string, size: nat, tried: seq<string>, piece: string, rest: string)
    requires Tries(initial, bytes, size, tried) && (tried == [] ==> initial == "")
    requires piece != "" && |piece| <= BUFFER_SIZE && |Bytes(tried)| < size
    requires Bytes(tried) + (piece + rest) == bytes
    ensures Tries(initial, bytes, size, tried + [piece])
    ensures Bytes(tried + [piece]) == Bytes(tried) + piece && Bytes(tried + [piece]) + rest == bytes
  {
    hide Bytes;
    var all := tried + [piece];
    BytesSnoc(tried, piece);
    assert all[..|tried|] == tried;
    forall i | 0 <= i < |tried|
      ensures all[i] == tried[i] && all[..i] == tried[..i]
    {
    }
    assert Bytes(tried) + piece + rest == bytes;
  }

  class Server {
    const hash: Hasher
    var heads: map<string, string>
    var objects: map<string, string>
    var temps: map<nat, string>

    constructor (hash: Hasher, heads: map<string, string>, objects: map<string, string>)
      ensures this.hash == hash && this.heads == heads && this.objects == objects && temps == map[]
    {
      this.hash := hash;
      this.heads := heads;
      this.objects := objects;
      temps := map[];
    }

    function Repository(): Repo
      reads this
    {
      Repo(heads, objects)
    }

    /** Receives into the temporary file.  On failure the file is unlinked. */
    method ReceiveToTemp(socket: Socket, size: nat, initial: string, faults: Faults, temp: nat)
      returns (failure: Option<Saved>, ghost tried: seq<string>)
      requires socket.Valid() && temp !in temps
      modifies `temps, socket
      ensures socket.Valid()
      ensures temps == if failure.Some? then old(temps) else old(temps)[temp := Bytes(tried)]
      ensures ReceiveResult(initial, initial + old(Bytes(socket.fragments)), size, faults, failure, tried)
    {
      hide Bytes, Tries;
      ghost var stream, temps0 := initial + Bytes(socket.fragments), temps;
      tried := [];
      NothingTried(initial, stream, size);
      if faults.mkstempFails {
        return Some(NoTemporary), [];
      }
      temps := temps[temp := ""];
      var totalReceived := 0;
      var writes := 0;
      if |initial| > 0 {
        FirstTried(initial, stream, size);
        tried := [initial];
        if faults.failingWrite == Some(writes) {
          TempGone(temps0, temp, "");
          temps := temps - {temp};
          return Some(WriteFailed), tried;
        }
        temps := temps[temp := initial];
        writes := writes + 1;
        totalReceived := totalReceived + |initial|;
      }
      while totalReceived < size
        invariant socket.Valid()
        invariant temps == temps0[temp := Bytes(tried)]
        invariant totalReceived == |Bytes(tried)| && writes == |tried|
        invariant initial <= Bytes(tried) && (tried == [] ==> initial == "")
        invariant Bytes(tried) + Bytes(socket.fragments) == stream
        invariant Tries(initial, stream, size, tried)
        invariant faults.failingWrite.Some? ==> writes <= faults.failingWrite.value
        decreases |stream| - totalReceived
      {
        var buffer := socket.Recv(BUFFER_SIZE);
        ghost var before := tried;
        if buffer == "" {
          TempGone(temps0, temp, Bytes(tried));
          temps := temps - {temp};
          return Some(ConnectionLost), tried;
        }
        NextTried(initial, stream, size, tried, buffer, Bytes(socket.fragments));
        tried := tried + [buffer];
        if faults.failingWrite == Some(writes) {
          TempGone(temps0, temp, Bytes(before));
          temps := temps - {temp};
          return Some(WriteFailed), tried;
        }
        temps := temps[temp := temps[temp] + buffer];
        writes := writes + 1;
        totalReceived := totalReceived + |buffer|;
      }
      failure := None;
    }

    /** handle_push: in every outcome the temporary file is gone. */
    method HandlePush(socket: Socket, branch: string, size: nat, initial: string, faults: Faults, temp: nat)
      returns (reply: Saved, ghost tried: seq<string>)
      requires socket.Valid() && temp !in temps
      modifies this, socket
      ensures temps == old(temps)
      ensures PushResult(hash, old(Repository()), Repository(), branch, size, initial,
                         initial + old(Bytes(socket.fragments)), faults, reply, tried)
    {
      hide Bytes, Digest, Tries, ReceiveResult, PushResult;
      ghost var temps0, repo, bytes := temps, Repository(), initial + Bytes(socket.fragments);
      var failure: Option<Saved>;
      failure, tried := ReceiveToTemp(socket, size, initial, faults, temp);
      if failure.Some? {
        FailedPush(hash, repo, branch, size, initial, bytes, faults, failure.value, tried);
        return failure.value, tried;
      }
      var file := temps[temp];
      var h := Digest(hash, file);
      TempGone(temps0, temp, Bytes(tried));
      temps := temps - {temp};
      ReceivedPush(hash, repo, branch, size, initial, bytes, faults, tried);
      if faults.renameFails {
        return MoveFailed, tried;
      }
      objects := objects[h := file];
      heads := heads[branch := h];
      reply := Saved(h);
    }

    /** handle_client, for a connection whose first recv decodes. */
    method HandleClient(socket: Socket, faults: Faults, temp: nat)
      returns (reply: Saved, ghost tried: seq<string>)
      requires socket.Valid() && temp !in temps
      requires DecodeFirst(FirstRecv(socket.fragments)) != NotSet
      modifies this, socket
      ensures temps == old(temps)
      ensures var first := FirstRecv(old(socket.fragments));
              var read := DecodeFirst(first);
              if read.OnePush? then
                PushResult(hash, old(Repository()), Repository(), read.branch, read.size, read.initial,
                           read.initial + old(Bytes(socket.fragments))[|first|..], faults, reply, tried)
              else reply == OtherReply && Repository() == old(Repository())
    {
      hide DecodeWords, PushResult;
      FirstIsPrefix(socket.fragments);
      var buffer := FirstRecvOf(socket);
      var read := DecodeFirst(buffer);
      if read.OnePush? {
        reply, tried := HandlePush(socket, read.branch, read.size, read.initial, faults, temp);
      } else {
        reply, tried := OtherReply, [];
      }
    }
  }

  lemma FirstIsPrefix(fragments: seq<string>)
    ensures |FirstRecv(fragments)| <= |Bytes(fragments)|
    ensures Bytes(fragments)[..|FirstRecv(fragments)|] == FirstRecv(fragments)
  {
  }

  method FirstRecvOf(socket: Socket) returns (buffer: string)
    requires socket.Valid()
    modifies socket
    ensures socket.Valid() && buffer == FirstRecv(old(socket.fragments))
    ensures Bytes(socket.fragments) == old(Bytes(socket.fragments))[|buffer|..]
  {
    ghost var stream := Bytes(socket.fragments);
    ghost var first := FirstRecv(socket.fragments);
    FirstIsPrefix(socket.fragments);
    buffer := socket.Recv(BUFFER_SIZE - 1);
    assert buffer + Bytes(socket.fragments) == stream;
    assert stream[..|buffer|] == buffer && stream[|buffer|..] == Bytes(socket.fragments);
  }

  // ---- every split of the stream ------------------------------------------------------------------

  function OneFileLine(branch: string, size: nat, name: string): string {
    "PUSH " + branch + " " + Dec(size) + " " + name + "\n"
  }

  predicate GoodOneFile(branch: string, size: nat, name: string) {
    && IsWord(branch) && |branch| <= 31
    && IsWord(name) && |name| <= 127
    && size < 0x1_0000_0000_0000_0000 && |OneFileLine(branch, size, name)| <= 1048575
  }

  lemma LineClean(branch: string, size: nat, name: string)
    requires GoodOneFile(branch, size, name)
    ensures Free("PUSH " + branch + " " + Dec(size) + " " + name, {NUL, '\n'})
  {
    hide Dec;
    forall i | 0 <= i < |Dec(size)|
      ensures Dec(size)[i] !in {NUL, '\n'}
    {
      DigitIsPlain(Dec(size)[i]);
    }
    assert Free("PUSH ", {NUL, '\n'});
  }

  lemma SizeScans(buffer: string, branch: string, size: nat, name: string, rest: string)
    requires GoodOneFile(branch, size, name)
    ensures DecodeSize(buffer, true, branch, " " + Dec(size) + " " + name + ("\n" + rest)) ==
            OnePush(branch, size, name, InitialData(buffer))
  {
    hide ScanInt, ScanWord, Dec, InitialData;
    var afterSize := " " + name + ("\n" + rest);
    assert " " + Dec(size) + " " + name + ("\n" + rest) == " " + Dec(size) + afterSize;
    ScanIntStops(" ", size, afterSize);
    ScanWordStops(" ", name, "\n" + rest, UNLIMITED);
  }

  lemma FirstScans(branch: string, size: nat, name: string, rest: string, text: string)
    requires GoodOneFile(branch, size, name)
    requires text == OneFileLine(branch, size, name) + UpToNul(rest)
    ensures var w1 := ScanWord(text, UNLIMITED);
            && w1.Match? && w1.value == "PUSH"
            && var w2 := ScanWord(w1.rest, UNLIMITED);
               w2 == Match(branch, " " + Dec(size) + " " + name + ("\n" + UpToNul(rest)))
  {
    hide ScanWord, Dec, UpToNul;
    var afterBranch := " " + Dec(size) + " " + name + ("\n" + UpToNul(rest));
    var afterCommand := " " + branch + afterBranch;
    assert text == "" + "PUSH" + afterCommand;
    ScanWordStops("", "PUSH", afterCommand, UNLIMITED);
    ScanWordStops(" ", branch, afterBranch, UNLIMITED);
  }

  lemma LineThenNul(line: string, rest: string)
    requires NoNul(line)
    ensures UpToNul(line + rest) == line + UpToNul(rest)
  {
    hide StrCSpn;
    var r := UpToNul(rest);
    assert line + rest == (line + r) + rest[|r|..];
    UpToNulStops(line + r, rest[|r|..]);
  }

  lemma InitialIsRest(body: string, rest: string)
    requires Free(body, {NUL, '\n'})
    ensures InitialData(body + "\n" + rest) == rest
  {
    hide StrCSpn;
    assert body + "\n" + rest == body + ("\n" + rest);
    CSpnStops(body, "\n" + rest, {NUL, '\n'});
    assert (body + ("\n" + rest))[|body| + 1..] == rest;
  }

  /** A first buffer that starts with the header line decodes to the header and the bytes after it. */
  lemma FirstDecodes(branch: string, size: nat, name: string, rest: string)
    requires GoodOneFile(branch, size, name)
    ensures DecodeFirst(OneFileLine(branch, size, name) + rest) == OnePush(branch, size, name, rest)
    ensures InitialData(OneFileLine(branch, size, name) + rest) == rest
  {
    var body := "PUSH " + branch + " " + Dec(size) + " " + name;
    var line := OneFileLine(branch, size, name);
    LineClean(branch, size, name);
    hide ScanWord, UpToNul, DecodeSize, InitialData, OneFileLine;
    assert line == body + "\n" by {
      LineIs(branch, size, name);
    }
    assert NoNul(line);
    LineThenNul(line, rest);
    FirstScans(branch, size, name, rest, UpToNul(line + rest));
    SizeScans(line + rest, branch, size, name, UpToNul(rest));
    InitialIsRest(body, rest);
  }

  lemma NoInitial(body: string, tail: string)
    requires Free(body, {NUL, '\n'}) && (tail == "" || tail[0] == NUL)
    ensures InitialData(body + tail) == "" && UpToNul(body + tail) == body
  {
    hide StrCSpn;
    CSpnStops(body, tail, {NUL, '\n'});
    assert NoNul(body);
    UpToNulStops(body, tail);
  }

  lemma ShortSizeScans(buffer: string, branch: string, size: nat, name: string)
    requires GoodOneFile(branch, size, name)
    ensures DecodeSize(buffer, true, branch, " " + Dec(size) + " " + name) ==
            OnePush(branch, size, name, InitialData(buffer))
  {
    hide ScanInt, ScanWord, Dec, InitialData;
    var afterSize := " " + name;
    assert " " + Dec(size) + " " + name == " " + Dec(size) + afterSize;
    ScanIntStops(" ", size, afterSize);
    assert afterSize == " " + name + "";
    ScanWordStops(" ", name, "", UNLIMITED);
  }

  lemma ShortScans(branch: string, size: nat, name: string, text: string)
    requires GoodOneFile(branch, size, name) && text == "PUSH " + branch + " " + Dec(size) + " " + name
    ensures var w1 := ScanWord(text, UNLIMITED);
            && w1.Match? && w1.value == "PUSH"
            && ScanWord(w1.rest, UNLIMITED) == Match(branch, " " + Dec(size) + " " + name)
  {
    hide ScanWord, Dec;
    var afterBranch := " " + Dec(size) + " " + name;
    assert text == "" + "PUSH" + (" " + branch + afterBranch);
    ScanWordStops("", "PUSH", " " + branch + afterBranch, UNLIMITED);
    ScanWordStops(" ", branch, afterBranch, UNLIMITED);
  }

  /** Without a newline before the terminator no bytes are taken as the beginning of the file. */
  lemma FirstWithoutLine(branch: string, size: nat, name: string, body: string, tail: string)
    requires GoodOneFile(branch, size, name) && body == "PUSH " + branch + " " + Dec(size) + " " + name
    requires tail == "" || tail[0] == NUL
    ensures DecodeFirst(body + tail) == OnePush(branch, size, name, "")
  {
    LineClean(branch, size, name);
    hide ScanWord, UpToNul, DecodeSize, InitialData, Dec, Free;
    NoInitial(body, tail);
    ShortScans(branch, size, name, body);
    ShortSizeScans(body + tail, branch, size, name);
  }

  lemma OtherAlone(word: string)
    requires IsWord(word) && |word| <= COMMAND_MAX && word !in {"PUSH", "PULL", "HISTORY"}
    ensures DecodeFirst(word + "\n") == NotPush
  {
    assert NoNul(word + "\n");
    hide ScanWord, UpToNul, DecodeSize, Free, NoNul;
    UpToNulStops(word + "\n", "");
    assert word + "\n" + "" == word + "\n" == "" + word + "\n";
    ScanWordStops("", word, "\n", UNLIMITED);
    ScanWordNone("\n", UNLIMITED);
  }

  lemma OtherSteps(buffer: string, word: string, more: string, branch: string, rest: string)
    requires buffer != "" && UpToNul(buffer) == buffer && ScanWord(buffer, UNLIMITED) == Match(word, more)
    requires ScanWord(more, UNLIMITED) == Match(branch, rest) && ScanUnsigned(rest) == NoMatch
    requires word != "PUSH" && |word| <= COMMAND_MAX && |branch| <= BRANCH_MAX
    ensures DecodeFirst(buffer) == NotPush
  {
    hide ScanWord, ScanUnsigned, UpToNul, InitialData;
  }

  lemma WordAndBranch(word: string, branch: string)
    requires IsWord(word) && IsWord(branch)
    ensures var s, more := word + " " + branch + "\n", " " + branch + "\n";
            s != "" && NoNul(s) && s == "" + word + more && s + "" == s
  {
  }

  lemma OtherWithBranch(word: string, branch: string)
    requires IsWord(word) && |word| <= COMMAND_MAX && word != "PUSH"
    requires IsWord(branch) && |branch| <= BRANCH_MAX
    ensures DecodeFirst(word + " " + branch + "\n") == NotPush
  {
    assert |word| > 0 && Free(word, WHITESPACE) && |branch| > 0 && Free(branch, WHITESPACE);
    hide ScanWord, ScanUnsigned, UpToNul, DecodeFirst, Free, NoNul, IsWord;
    var s, more := word + " " + branch + "\n", " " + branch + "\n";
    WordAndBranch(word, branch);
    UpToNulStops(s, "");
    ScanWordStops("", word, more, UNLIMITED);
    ScanWordStops(" ", branch, "\n", UNLIMITED);
    ScanWordNone("\n", UNLIMITED);
    OtherSteps(s, word, more, branch, "\n");
  }

  /** A connection that sends nothing, or another command with or without a branch, is not a push. */
  lemma FirstOther(word: string, branch: string)
    requires IsWord(word) && |word| <= COMMAND_MAX && word !in {"PUSH", "PULL", "HISTORY"}
    requires IsWord(branch) && |branch| <= BRANCH_MAX
    ensures DecodeFirst("") == NotPush
    ensures DecodeFirst(word + "\n") == NotPush && DecodeFirst(word + " " + branch + "\n") == NotPush
  {
    hide DecodeWords;
    OtherAlone(word);
    OtherWithBranch(word, branch);
  }

  lemma LineIs(branch: string, size: nat, name: string)
    ensures OneFileLine(branch, size, name) == "PUSH " + branch + " " + Dec(size) + " " + name + "\n"
  {
  }

  /** For every split whose first recv holds the header line, the bytes handed to handle_push are
      the payload: those that came with the header, then the rest of the stream. */
  lemma SplitDecodes(fragments: seq<string>, branch: string, size: nat, name: string, payload: string)
    requires GoodOneFile(branch, size, name)
    requires fragments != [] && |fragments[0]| >= |OneFileLine(branch, size, name)|
    requires Bytes(fragments) == OneFileLine(branch, size, name) + payload
    ensures var first := FirstRecv(fragments);
            var initial := InitialData(first);
            && DecodeFirst(first) == OnePush(branch, size, name, initial)
            && initial + Bytes(fragments)[|first|..] == payload
  {
    hide OneFileLine, Dec, DecodeFirst, InitialData, Bytes;
    var line := OneFileLine(branch, size, name);
    var first := FirstRecv(fragments);
    FirstIsPrefix(fragments);
    var initial := first[|line|..];
    assert first[..|line|] == line by {
      assert Bytes(fragments)[..|first|][..|line|] == Bytes(fragments)[..|line|] == line;
    }
    assert first == line + initial;
    FirstDecodes(branch, size, name, initial);
    assert initial + Bytes(fragments)[|first|..] == payload by {
      assert line + (initial + Bytes(fragments)[|first|..]) == Bytes(fragments);
    }
  }

  lemma WholePrefix(a: string, b: string)
    requires a <= b && |a| >= |b|
    ensures a == b
  {
  }

  lemma SavedContent(hash: Hasher, repo: Repo, repo': Repo, branch: string, size: nat, initial: string, payload: string,
                     faults: Faults, reply: Saved, tried: seq<string>)
    requires PushResult(hash, repo, repo', branch, size, initial, payload, faults, reply, tried)
    ensures reply.Saved? ==>
              && Bytes(tried) <= payload && |Bytes(tried)| >= size && reply == Saved(Digest(hash, Bytes(tried)))
              && repo' == Repo(repo.heads[branch := reply.hash], repo.objects[reply.hash := Bytes(tried)])
    ensures !reply.Saved? ==> repo' == repo
  {
    hide Digest, Bytes;
  }

  lemma SavedWhen(hash: Hasher, repo: Repo, repo': Repo, branch: string, size: nat, initial: string, payload: string,
                  faults: Faults, reply: Saved, tried: seq<string>)
    requires PushResult(hash, repo, repo', branch, size, initial, payload, faults, reply, tried)
    ensures |payload| < size ==> !reply.Saved?
    ensures faults == NO_FAULTS ==> (reply.Saved? <==> |payload| >= size)
  {
    hide Digest, Bytes, Tries;
  }

  /** What the outcome means for the bytes that were sent. */
  lemma CutOrStored(hash: Hasher, repo: Repo, repo': Repo, branch: string, size: nat, initial: string, payload: string,
                    faults: Faults, reply: Saved, tried: seq<string>)
    requires PushResult(hash, repo, repo', branch, size, initial, payload, faults, reply, tried)
    ensures |payload| < size ==> !reply.Saved?
    ensures !reply.Saved? ==> repo' == repo
    ensures |payload| == size && reply.Saved? ==>
              && reply == Saved(Digest(hash, payload))
              && repo' ==
                 Repo(repo.heads[branch := Digest(hash, payload)], repo.objects[Digest(hash, payload) := payload])
    ensures faults == NO_FAULTS ==> (reply.Saved? <==> |payload| >= size)
  {
    hide *;
    SavedContent(hash, repo, repo', branch, size, initial, payload, faults, reply, tried);
    SavedWhen(hash, repo, repo', branch, size, initial, payload, faults, reply, tried);
    if reply.Saved? && |payload| == size {
      WholePrefix(Bytes(tried), payload);
    }
  }

  /** The whole connection, for every split of the stream and every fault of the file system: a cut
      stream or a failure changes nothing, a stream of exactly size bytes stores exactly those. */
  method ServeOneFile(server: Server, socket: Socket, faults: Faults, temp: nat,
                      ghost branch: string, ghost size: nat, ghost name: string, ghost payload: string)
    returns (reply: Saved, ghost tried: seq<string>)
    requires socket.Valid() && temp !in server.temps
    requires GoodOneFile(branch, size, name)
    requires socket.fragments != [] && |socket.fragments[0]| >= |OneFileLine(branch, size, name)|
    requires Bytes(socket.fragments) == OneFileLine(branch, size, name) + payload
    modifies server, socket
    ensures server.temps == old(server.temps)
    ensures PushResult(server.hash, old(server.Repository()), server.Repository(), branch, size,
                       InitialData(FirstRecv(old(socket.fragments))), payload, faults, reply, tried)
    ensures |payload| < size || !reply.Saved? ==> server.Repository() == old(server.Repository())
    ensures |payload| == size && reply.Saved? ==>
              && server.heads == old(server.heads)[branch := Digest(server.hash, payload)]
              && server.objects == old(server.objects)[Digest(server.hash, payload) := payload]
    ensures faults == NO_FAULTS ==> (reply.Saved? <==> |payload| >= size)
  {
    hide PushResult, DecodeFirst, InitialData, FirstRecv, OneFileLine, GoodOneFile, Bytes, Digest;
    ghost var repo := server.Repository();
    ghost var initial := InitialData(FirstRecv(socket.fragments));
    SplitDecodes(socket.fragments, branch, size, name, payload);
    reply, tried := server.HandleClient(socket, faults, temp);
    CutOrStored(server.hash, repo, server.Repository(), branch, size, initial, payload, faults, reply, tried);
  }
}
