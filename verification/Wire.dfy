/** The push wire format: what the proxy sends and how the server reads it back from a stream. */
module Wire {
  import opened CStrings
  import opened Sums

  const HEADER_SIZE: nat := 256
  const COMMAND_MAX: nat := 15
  const BRANCH_MAX: nat := 31
  const PARENT_MAX: nat := 40
  const UNLIMITED: nat := 0xFFFF_FFFF
  const INT_MAX: int := 0x7FFF_FFFF
  const OFF_MAX: nat := 0x7FFF_FFFF_FFFF_FFFF

  datatype PushFile = PushFile(name: string, content: string)

  // ---- sockets ----------------------------------------------------------------------------

  /** The bytes of a list of fragments. */
  function Bytes(fragments: seq<string>): string {
    if fragments == [] then "" else fragments[0] + Bytes(fragments[1..])
  }

  function Min(a: nat, b: nat): nat {
    if a <= b then a else b
  }

  /** What one recv of at most max bytes returns. */
  function NextRecv(fragments: seq<string>, max: nat): string {
    if fragments == [] then "" else fragments[0][..Min(|fragments[0]|, max)]
  }

  /** The receiving end of a connection: the fragments the network delivers, in order.  A recv
      never returns more than one fragment, so choosing the fragments chooses every recv size. */
  class Socket {
    var fragments: seq<string>

    ghost predicate Valid()
      reads this
    {
      forall i :: 0 <= i < |fragments| ==> fragments[i] != ""
    }

    constructor (fragments: seq<string>)
      requires forall i :: 0 <= i < |fragments| ==> fragments[i] != ""
      ensures Valid() && this.fragments == fragments
    {
      this.fragments := fragments;
    }

    /** recv(fd, buffer, max, 0): at least one byte unless the stream has ended. */
    method Recv(max: nat) returns (data: string)
      requires Valid() && max > 0
      modifies this
      ensures Valid()
      ensures |data| <= max && data + Bytes(fragments) == old(Bytes(fragments))
      ensures data == "" <==> old(Bytes(fragments)) == ""
      ensures data == NextRecv(old(fragments), max)
    {
      if fragments == [] {
        return "";
      }
      var first := fragments[0];
      ghost var tail := fragments[1..];
      if |first| <= max {
        data := first;
        fragments := fragments[1..];
      } else {
        data := first[..max];
        fragments := [first[max..]] + fragments[1..];
        assert fragments[1..] == tail;
        assert first[..max] + first[max..] == first;
      }
    }

    /** recv(fd, buffer, size, MSG_WAITALL): exactly size bytes unless the stream ends first. */
    method RecvAll(size: nat) returns (data: string)
      requires Valid()
      modifies this
      ensures Valid()
      ensures |data| == Min(size, old(|Bytes(fragments)|))
      ensures data + Bytes(fragments) == old(Bytes(fragments))
    {
      data := "";
      while |data| < size
        invariant Valid()
        invariant |data| <= size
        invariant data + Bytes(fragments) == old(Bytes(fragments))
        decreases size - |data|
      {
        var more := Recv(size - |data|);
        if more == "" {
          break;
        }
        data := data + more;
      }
    }
  }

  // ---- the sender -------------------------------------------------------------------------

  /** One entry of the status list.  file is None when open() fails; sends lists how many bytes
      the kernel accepts in each sendfile call, 0 standing for an error. */
  datatype StatusEntry = StatusEntry(path: Option<string>, changed: bool, file: Option<string>, sends: seq<nat>)

  predicate Sent(e: StatusEntry) {
    e.path.Some? && e.changed && e.file.Some?
  }

  /** snprintf into a zeroed 256-byte array. */
  function Pad(text: string): (r: string)
    ensures |r| == HEADER_SIZE
  {
    var n := Min(|text|, HEADER_SIZE - 1);
    text[..n] + seq(HEADER_SIZE - n, _ => NUL)
  }

  function FileHeader(name: string, size: nat): string {
    Dec(size) + " " + name
  }

  function PushLine(branch: string, count: nat, parent: string): string {
    "PUSH " + branch + " " + Dec(count) + " " + parent + "\n"
  }

  /** The sendfile calls before the first one that fails. */
  function BeforeError(sends: seq<nat>): (ok: seq<nat>)
    ensures ok <= sends && 0 !in ok
    ensures |ok| < |sends| ==> sends[|ok|] == 0
  {
    if sends == [] || sends[0] == 0 then [] else [sends[0]] + BeforeError(sends[1..])
  }

  /** How much of a file of the given size the sendfile loop puts on the wire. */
  function Delivered(sends: seq<nat>, size: nat): nat {
    Min(Sum(BeforeError(sends)), size)
  }

  function EncodeEntry(e: StatusEntry): string {
    if Sent(e) then
      Pad(FileHeader(e.path.value, |e.file.value|)) + e.file.value[..Delivered(e.sends, |e.file.value|)]
    else ""
  }

  function EncodeEntries(es: seq<StatusEntry>): string {
    if es == [] then "" else EncodeEntries(es[..|es| - 1]) + EncodeEntry(es[|es| - 1])
  }

  function Encode(es: seq<StatusEntry>, parent: string): string {
    PushLine("main", |es|, parent) + EncodeEntries(es)
  }

  lemma SumFront(x: nat, xs: seq<nat>)
    ensures Sum([x] + xs) == x + Sum(xs)
  {
    SumSplit([x], xs);
    SumOne(x);
  }

  /** The first of the sendfile calls that are left. */
  lemma NextSend(sends: seq<nat>, call: nat)
    requires call < |sends|
    ensures Sum(BeforeError(sends[call..])) ==
            if sends[call] == 0 then 0 else sends[call] + Sum(BeforeError(sends[call + 1..]))
  {
    var rest := sends[call..];
    assert rest[0] == sends[call] && rest[1..] == sends[call + 1..];
    SumFront(sends[call], BeforeError(sends[call + 1..]));
  }

  lemma NoSends()
    ensures Sum(BeforeError([])) == 0
  {
  }

  /** The loop sends on until the file is through or a call fails, however little each call takes. */
  method SendFile(file: string, sends: seq<nat>) returns (wire: string)
    ensures wire == file[..Min(Sum(BeforeError(sends)), |file|)]
  {
    hide BeforeError, Sum;
    NoSends();
    var bytesToSend: nat := |file|;
    var start: nat := 0;
    var call: nat := 0;
    wire := "";
    while bytesToSend > 0 && call < |sends|
      invariant start + bytesToSend == |file| && wire == file[..start]
      invariant call <= |sends|
      invariant start + Delivered(sends[call..], bytesToSend) == Delivered(sends, |file|)
      decreases |sends| - call
    {
      NextSend(sends, call);
      var sent := Min(sends[call], bytesToSend);
      if sent <= 0 {
        break;
      }
      wire := wire + file[start..start + sent];
      start := start + sent;
      bytesToSend := bytesToSend - sent;
      call := call + 1;
    }
  }

  lemma EncodeEntriesSnoc(es: seq<StatusEntry>, i: nat)
    requires i < |es|
    ensures EncodeEntries(es[..i + 1]) == EncodeEntries(es[..i]) + EncodeEntry(es[i])
  {
    hide EncodeEntry;
    assert es[..i + 1][..i] == es[..i];
  }

  method SendPush(entries: seq<StatusEntry>, parent: string) returns (wire: string)
    ensures wire == Encode(entries, parent)
  {
    hide Dec, Pad, Sum, BeforeError;
    wire := PushLine("main", |entries|, parent);
    ghost var line := wire;
    for i := 0 to |entries|
      invariant wire == line + EncodeEntries(entries[..i])
    {
      hide EncodeEntries;
      var entry := entries[i];
      ghost var was := wire;
      if entry.path.Some? && entry.changed {
        if entry.file.Some? {
          var header := Pad(FileHeader(entry.path.value, |entry.file.value|));
          var body := SendFile(entry.file.value, entry.sends);
          wire := wire + header + body;
          assert wire == was + (header + body);
        }
      }
      assert wire == was + EncodeEntry(entry);
      EncodeEntriesSnoc(entries, i);
      assert was + EncodeEntry(entry) == line + (EncodeEntries(entries[..i]) + EncodeEntry(entry));
    }
    assert entries[..|entries|] == entries;
  }

  // ---- the receiver, as a function of the byte stream --------------------------------------

  datatype FileRead = FileRead(file: PushFile, rest: string)

  /** One round of the file loop.  How much of the 256-byte header has come is not looked at, and
      sscanf reads up to the terminator.  None: the terminator has not come, or the header does not
      scan, so the program would go on with unset bytes or variables. */
  function DecodeFile(stream: string): Option<FileRead> {
    var n := Min(|stream|, HEADER_SIZE);
    if NoNul(stream[..n]) then None
    else
      match ScanUnsigned(UpToNul(stream[..n]))
      case NoMatch => None
      case Match(size, afterSize) =>
        match ScanWord(afterSize, HEADER_SIZE)
        case NoMatch => None
        case Match(name, _) =>
          var end := n + Min(size, |stream| - n);
          Some(FileRead(PushFile(name, stream[n..end]), stream[end..]))
  }

  datatype FilesRead = FilesRead(files: seq<PushFile>, rest: string)

  function DecodeFiles(count: nat, stream: string): Option<FilesRead> {
    if count == 0 then Some(FilesRead([], stream))
    else
      match DecodeFiles(count - 1, stream)
      case None => None
      case Some(before) =>
        match DecodeFile(before.rest)
        case None => None
        case Some(one) => Some(FilesRead(before.files + [one.file], one.rest))
  }

  datatype Command = Push(branch: string, count: int, parent: Option<string>) | Pull(branch: string)
                   | History(branch: string) | Other | Unset

  datatype LineRead = LineRead(line: string, rest: string)

  /** The header loop reads byte by byte up to a newline, 255 bytes or the end of the stream. */
  function DecodeLine(stream: string): LineRead {
    var k := StrCSpn(stream, {'\n'});
    if k < HEADER_SIZE - 1 then
      LineRead(stream[..k], if k < |stream| then stream[k + 1..] else "")
    else
      LineRead(stream[..HEADER_SIZE - 1], stream[HEADER_SIZE - 1..])
  }

  /** What sscanf(header, "%s %s %d %s") assigns; the count starts as 0.  Overrun: a word does not
      fit its array, or the number does not fit an int. */
  datatype Words = Overrun | Words(command: Option<string>, branch: Option<string>, count: int, parent: Option<string>)

  function ScanLine(text: string): Words {
    match ScanWord(text, UNLIMITED)
    case NoMatch => Words(None, None, 0, None)
    case Match(command, rest) => if |command| > COMMAND_MAX then Overrun else ScanBranch(command, rest)
  }

  function ScanBranch(command: string, text: string): Words {
    match ScanWord(text, UNLIMITED)
    case NoMatch => Words(Some(command), None, 0, None)
    case Match(branch, rest) => if |branch| > BRANCH_MAX then Overrun else ScanCount(command, branch, rest)
  }

  function ScanCount(command: string, branch: string, text: string): Words {
    match ScanInt(text)
    case NoMatch => Words(Some(command), Some(branch), 0, None)
    case Match(count, rest) =>
      if count < -INT_MAX - 1 || INT_MAX < count then Overrun
      else
        match ScanWord(rest, UNLIMITED)
        case NoMatch => Words(Some(command), Some(branch), count, None)
        case Match(parent, _) =>
          if |parent| > PARENT_MAX then Overrun else Words(Some(command), Some(branch), count, Some(parent))
  }

  /** The command line and the comparison of its first word.  Unset: a variable the selected handler
      reads was not assigned, or sscanf wrote out of bounds. */
  function DecodeCommand(line: string): Command {
    match ScanLine(UpToNul(line))
    case Overrun => Unset
    case Words(command, branch, count, parent) =>
      if command == None then Unset
      else if command.value != "PUSH" && command.value != "PULL" && command.value != "HISTORY" then Other
      else if branch == None then Unset
      else if command.value == "PUSH" then Push(branch.value, count, parent)
      else if command.value == "PULL" then Pull(branch.value)
      else History(branch.value)
  }

  /** A whole push as the server rebuilds it, with the bytes it leaves unread. */
  datatype Received = Received(branch: string, parent: string, files: seq<PushFile>, rest: string)

  function Rounds(count: int): nat {
    if count > 0 then count else 0
  }

  function Decode(stream: string): Option<Received> {
    var head := DecodeLine(stream);
    match DecodeCommand(head.line)
    case Push(branch, count, Some(parent)) =>
      (match DecodeFiles(Rounds(count), head.rest)
       case None => None
       case Some(read) => Some(Received(branch, parent, read.files, read.rest)))
    case _ => None
  }

  // ---- the receiving loops ----------------------------------------------------------------

  const BUFFER_SIZE: nat := 1048576

  lemma LineThenMore(line: string, rest: string)
    requires Free(line, {'\n'}) && |line| < HEADER_SIZE - 1
    ensures DecodeLine(line) == LineRead(line, "")
    ensures DecodeLine(line + ("\n" + rest)) == LineRead(line, rest)
  {
    hide StrCSpn, Free;
    CSpnStops(line, "", {'\n'});
    assert line + "" == line;
    CSpnStops(line, "\n" + rest, {'\n'});
    assert (line + ("\n" + rest))[|line| + 1..] == rest;
  }

  lemma LineFull(line: string, rest: string)
    requires Free(line, {'\n'}) && |line| == HEADER_SIZE - 1
    ensures DecodeLine(line + rest) == LineRead(line, rest)
  {
    assert forall i :: 0 <= i < |line| ==> (line + rest)[i] == line[i];
    assert StrCSpn(line + rest, {'\n'}) >= |line|;
  }

  method ReadLine(socket: Socket) returns (line: string)
    requires socket.Valid()
    modifies socket
    ensures socket.Valid()
    ensures DecodeLine(old(Bytes(socket.fragments))) == LineRead(line, Bytes(socket.fragments))
  {
    hide DecodeLine, Bytes;
    ghost var stream := Bytes(socket.fragments);
    line := "";
    while |line| < HEADER_SIZE - 1
      invariant socket.Valid()
      invariant |line| <= HEADER_SIZE - 1
      invariant Free(line, {'\n'})
      invariant stream == line + Bytes(socket.fragments)
      decreases HEADER_SIZE - |line|
    {
      ghost var before := Bytes(socket.fragments);
      var byte := socket.Recv(1);
      LineThenMore(line, Bytes(socket.fragments));
      if byte == "" || byte == "\n" {
        assert byte == "" ==> stream == line;
        return;
      }
      assert line + byte + Bytes(socket.fragments) == line + before;
      line := line + byte;
    }
    LineFull(line, Bytes(socket.fragments));
  }

  method ReceiveBody(socket: Socket, fileSize: nat) returns (content: string)
    requires socket.Valid()
    modifies socket
    ensures socket.Valid()
    ensures var stream := old(Bytes(socket.fragments));
            && content == stream[..Min(fileSize, |stream|)]
            && Bytes(socket.fragments) == stream[Min(fileSize, |stream|)..]
  {
    content := "";
    while |content| < fileSize
      invariant socket.Valid()
      invariant |content| <= fileSize
      invariant content + Bytes(socket.fragments) == old(Bytes(socket.fragments))
      decreases fileSize - |content|
    {
      var toRecv := if fileSize - |content| > BUFFER_SIZE then BUFFER_SIZE else fileSize - |content|;
      var buffer := socket.Recv(toRecv);
      if buffer == "" {
        break;
      }
      content := content + buffer;
    }
  }
}
