/** The receiver undoes the sender, however the network cuts the stream. */
module WireRoundTrip {
  import opened CStrings
  import opened Manifest
  import opened Sums
  import opened Wire

  /** What the sender needs of a file: a name without white space whose header fits the array. */
  predicate Fits(f: PushFile) {
    IsWord(f.name) && |FileHeader(f.name, |f.content|)| < HEADER_SIZE && |f.content| <= OFF_MAX
  }

  predicate AllFit(files: seq<PushFile>) {
    forall i :: 0 <= i < |files| ==> Fits(files[i])
  }

  function EncodeFile(f: PushFile): string {
    Pad(FileHeader(f.name, |f.content|)) + f.content
  }

  function EncodeFiles(files: seq<PushFile>): string {
    if files == [] then "" else EncodeFiles(files[..|files| - 1]) + EncodeFile(files[|files| - 1])
  }

  // ---- one file ---------------------------------------------------------------------------

  lemma HeaderNoNul(name: string, size: nat)
    requires IsWord(name)
    ensures NoNul(FileHeader(name, size))
  {
    hide Dec;
    forall i | 0 <= i < |Dec(size)|
      ensures Dec(size)[i] != NUL
    {
      DigitIsPlain(Dec(size)[i]);
    }
  }

  /** The first k bytes of the padded header are a terminated string equal to what was printed if
      they reach beyond the printed text, and hold no terminator if they do not. */
  lemma HeaderIsText(name: string, size: nat, k: nat)
    requires IsWord(name) && |FileHeader(name, size)| < HEADER_SIZE && k <= HEADER_SIZE
    ensures var text, h := FileHeader(name, size), Pad(FileHeader(name, size))[..k];
            if k > |text| then !NoNul(h) && UpToNul(h) == text else NoNul(h)
  {
    HeaderNoNul(name, size);
    hide Dec, StrCSpn, UpToNul, FileHeader;
    var text := FileHeader(name, size);
    if k > |text| {
      var fill := seq(k - |text|, _ => NUL);
      assert Pad(text)[..k] == text + fill;
      assert fill[0] == NUL && (text + fill)[|text|] == NUL;
      UpToNulStops(text, fill);
    } else {
      assert Pad(text)[..k] == text[..k];
    }
  }

  lemma HeaderScans(name: string, size: nat)
    requires IsWord(name) && |FileHeader(name, size)| < HEADER_SIZE && size < ULONG
    ensures ScanUnsigned(FileHeader(name, size)) == Match(size, " " + name)
    ensures ScanWord(" " + name, HEADER_SIZE) == Match(name, "")
  {
    hide ScanInt, ScanWord, Dec;
    assert FileHeader(name, size) == "" + Dec(size) + (" " + name);
    ScanIntStops("", size, " " + name);
    assert " " + name == " " + name + "";
    ScanWordStops(" ", name, "", HEADER_SIZE);
  }

  /** Behind a complete header the declared size, or what there is of it, is taken as the content. */
  lemma DecodeFileBody(name: string, size: nat, body: string)
    requires IsWord(name) && |FileHeader(name, size)| < HEADER_SIZE && size < ULONG
    ensures DecodeFile(Pad(FileHeader(name, size)) + body) ==
            Some(FileRead(PushFile(name, body[..Min(size, |body|)]), body[Min(size, |body|)..]))
  {
    hide ScanUnsigned, ScanWord, Dec, Pad, UpToNul, FileHeader, NoNul;
    HeaderIsText(name, size, HEADER_SIZE);
    HeaderScans(name, size);
    var h := Pad(FileHeader(name, size));
    var stream := h + body;
    assert h[..HEADER_SIZE] == h && stream[..HEADER_SIZE] == h;
    var end := HEADER_SIZE + Min(size, |body|);
    assert stream[HEADER_SIZE..end] == body[..Min(size, |body|)];
    assert stream[end..] == body[Min(size, |body|)..];
  }

  /** A stream that ends inside a header: if the terminator has come, an empty file is read. */
  lemma DecodeCutHeader(name: string, size: nat, k: nat)
    requires IsWord(name) && |FileHeader(name, size)| < HEADER_SIZE && size < ULONG && k <= HEADER_SIZE
    ensures DecodeFile(Pad(FileHeader(name, size))[..k]) ==
            if k > |FileHeader(name, size)| then Some(FileRead(PushFile(name, ""), "")) else None
  {
    hide ScanUnsigned, ScanWord, Dec, Pad, UpToNul, FileHeader, NoNul;
    HeaderIsText(name, size, k);
    HeaderScans(name, size);
    var stream := Pad(FileHeader(name, size))[..k];
    assert stream[..k] == stream && stream[k..] == "";
  }

  lemma DecodeOneFile(f: PushFile, rest: string)
    requires Fits(f)
    ensures DecodeFile(EncodeFile(f) + rest) == Some(FileRead(f, rest))
  {
    hide DecodeFile, FileHeader, Pad;
    var h := Pad(FileHeader(f.name, |f.content|));
    DecodeFileBody(f.name, |f.content|, f.content + rest);
    assert EncodeFile(f) + rest == h + (f.content + rest);
    assert (f.content + rest)[..|f.content|] == f.content;
    assert (f.content + rest)[|f.content|..] == rest;
  }

  // ---- all files --------------------------------------------------------------------------

  lemma {:induction false} DecodeAllFiles(files: seq<PushFile>, rest: string)
    requires AllFit(files)
    ensures DecodeFiles(|files|, EncodeFiles(files) + rest) == Some(FilesRead(files, rest))
    decreases |files|
  {
    hide DecodeFile, EncodeFile, Fits;
    if files == [] {
      assert "" + rest == rest;
    } else {
      var init, last := files[..|files| - 1], files[|files| - 1];
      assert EncodeFiles(files) + rest == EncodeFiles(init) + (EncodeFile(last) + rest);
      DecodeAllFiles(init, EncodeFile(last) + rest);
      DecodeOneFile(last, rest);
      assert init + [last] == files;
    }
  }

  lemma NoHeaderNoFile()
    ensures DecodeFile("") == None
  {
  }

  /** A receiver told to expect more files than were sent runs into the end of the stream. */
  lemma {:induction false} TooFewFiles(files: seq<PushFile>, count: nat)
    requires AllFit(files) && count > |files|
    ensures DecodeFiles(count, EncodeFiles(files)) == None
    decreases count
  {
    hide DecodeFile, EncodeFiles, Fits;
    NoHeaderNoFile();
    if count == |files| + 1 {
      DecodeAllFiles(files, "");
      assert EncodeFiles(files) + "" == EncodeFiles(files);
    } else {
      TooFewFiles(files, count - 1);
    }
  }

  // ---- the command line -------------------------------------------------------------------

  predicate GoodLine(branch: string, count: nat, parent: string) {
    && IsWord(branch) && |branch| <= BRANCH_MAX
    && IsWord(parent) && |parent| <= PARENT_MAX
    && count <= INT_MAX
    && |PushLine(branch, count, parent)| <= HEADER_SIZE - 1
  }

  lemma CountScans(branch: string, count: nat, parent: string)
    requires GoodLine(branch, count, parent)
    ensures ScanCount("PUSH", branch, " " + Dec(count) + " " + parent) ==
            Words(Some("PUSH"), Some(branch), count, Some(parent))
  {
    hide ScanInt, ScanWord, Dec;
    var afterCount := " " + parent;
    assert " " + Dec(count) + " " + parent == " " + Dec(count) + afterCount;
    ScanIntStops(" ", count, afterCount);
    assert afterCount == " " + parent + "";
    ScanWordStops(" ", parent, "", UNLIMITED);
  }

  lemma BranchScans(branch: string, rest: string)
    requires IsWord(branch) && |branch| <= BRANCH_MAX && (rest == "" || rest[0] == ' ')
    ensures ScanLine("PUSH " + branch + rest) == ScanCount("PUSH", branch, rest)
  {
    hide ScanWord, ScanCount;
    var line, afterCommand := "PUSH " + branch + rest, " " + branch + rest;
    assert line == "" + "PUSH" + afterCommand;
    ScanWordStops("", "PUSH", afterCommand, UNLIMITED);
    ScanWordStops(" ", branch, rest, UNLIMITED);
  }

  lemma PushLineScans(branch: string, count: nat, parent: string)
    requires GoodLine(branch, count, parent)
    ensures ScanLine("PUSH " + branch + " " + Dec(count) + " " + parent) ==
            Words(Some("PUSH"), Some(branch), count, Some(parent))
  {
    hide ScanLine, Dec, ScanCount;
    var rest := " " + Dec(count) + " " + parent;
    assert "PUSH " + branch + " " + Dec(count) + " " + parent == "PUSH " + branch + rest;
    BranchScans(branch, rest);
    CountScans(branch, count, parent);
  }

  lemma CommandScans(branch: string, count: nat, parent: string)
    requires GoodLine(branch, count, parent)
    requires NoNul("PUSH " + branch + " " + Dec(count) + " " + parent)
    ensures DecodeCommand("PUSH " + branch + " " + Dec(count) + " " + parent) == Push(branch, count, Some(parent))
  {
    hide Dec, ScanLine, UpToNul;
    var line := "PUSH " + branch + " " + Dec(count) + " " + parent;
    UpToNulStops(line, "");
    assert line + "" == line;
    PushLineScans(branch, count, parent);
  }

  lemma LineReads(branch: string, count: nat, parent: string, rest: string)
    requires GoodLine(branch, count, parent)
    ensures var head := DecodeLine(PushLine(branch, count, parent) + rest);
            DecodeCommand(head.line) == Push(branch, count, Some(parent)) && head.rest == rest
  {
    hide DecodeCommand, Dec;
    var line := "PUSH " + branch + " " + Dec(count) + " " + parent;
    forall i | 0 <= i < |Dec(count)|
      ensures Dec(count)[i] != NUL && Dec(count)[i] != '\n'
    {
      DigitIsPlain(Dec(count)[i]);
    }
    assert NoNul(line) && Free(line, {'\n'});
    var stream := PushLine(branch, count, parent) + rest;
    assert stream == line + ("\n" + rest);
    CSpnStops(line, "\n" + rest, {'\n'});
    assert stream[..|line|] == line && stream[|line| + 1..] == rest;
    CommandScans(branch, count, parent);
  }

  // ---- the whole push ---------------------------------------------------------------------

  function SentFiles(es: seq<StatusEntry>): seq<PushFile> {
    if es == [] then []
    else
      var e := es[|es| - 1];
      SentFiles(es[..|es| - 1]) + if Sent(e) then [PushFile(e.path.value, e.file.value)] else []
  }

  /** The kernel takes every byte of each file that is sent. */
  predicate FullyDelivered(es: seq<StatusEntry>) {
    forall i :: 0 <= i < |es| && Sent(es[i]) ==> Sum(BeforeError(es[i].sends)) >= |es[i].file.value|
  }

  predicate NoneSkipped(es: seq<StatusEntry>) {
    forall i :: 0 <= i < |es| ==> Sent(es[i])
  }

  lemma EntryIsFile(e: StatusEntry)
    requires Sent(e) && Sum(BeforeError(e.sends)) >= |e.file.value|
    ensures EncodeEntry(e) == EncodeFile(PushFile(e.path.value, e.file.value))
  {
    hide Pad, FileHeader, Sum, BeforeError;
    assert e.file.value[..|e.file.value|] == e.file.value;
  }

  lemma {:induction false} EncodeSent(es: seq<StatusEntry>)
    requires FullyDelivered(es)
    ensures EncodeEntries(es) == EncodeFiles(SentFiles(es))
  {
    hide Sum, BeforeError, EncodeFile, Pad, FileHeader;
    if es != [] {
      var init, e := es[..|es| - 1], es[|es| - 1];
      EncodeSent(init);
      if Sent(e) {
        EntryIsFile(e);
        hide EncodeEntry;
        assert SentFiles(es)[..|SentFiles(init)|] == SentFiles(init);
      } else {
        assert SentFiles(es) == SentFiles(init);
      }
    }
  }

  lemma {:induction false} SentCount(es: seq<StatusEntry>)
    ensures |SentFiles(es)| <= |es|
    ensures |SentFiles(es)| == |es| <==> NoneSkipped(es)
  {
    if es != [] {
      SentCount(es[..|es| - 1]);
      assert !Sent(es[|es| - 1]) ==> !NoneSkipped(es);
    }
  }

  lemma DecodeAfterLine(branch: string, count: nat, parent: string, body: string)
    requires GoodLine(branch, count, parent)
    ensures Decode(PushLine(branch, count, parent) + body) ==
            match DecodeFiles(count, body)
            case None => None
            case Some(read) => Some(Received(branch, parent, read.files, read.rest))
  {
    hide DecodeLine, DecodeCommand, DecodeFiles, PushLine;
    LineReads(branch, count, parent, body);
  }

  lemma MainLineIsGood(count: nat, parent: string)
    requires IsWord(parent) && |parent| <= PARENT_MAX && count <= INT_MAX
    ensures GoodLine("main", count, parent)
  {
    hide Dec;
    DecShort(count, 10);
    assert IsWord("main");
  }

  /** The server rebuilds exactly what the proxy sent, with no byte over, if and only if the
      sender skipped no entry; otherwise it waits for a header that is not sent, and runs out of stream
      once the connection is closed. */
  lemma PushRoundTrip(es: seq<StatusEntry>, parent: string)
    requires FullyDelivered(es) && AllFit(SentFiles(es))
    requires IsWord(parent) && |parent| <= PARENT_MAX && |es| <= INT_MAX
    ensures Decode(Encode(es, parent)) ==
            if NoneSkipped(es) then Some(Received("main", parent, SentFiles(es), "")) else None
  {
    hide *;
    var files := SentFiles(es);
    EncodeIs(es, parent);
    MainLineIsGood(|es|, parent);
    DecodeAfterLine("main", |es|, parent, EncodeEntries(es));
    EncodeSent(es);
    SentCount(es);
    if NoneSkipped(es) {
      DecodeAllFiles(files, "");
      assert EncodeFiles(files) + "" == EncodeFiles(files);
    } else {
      TooFewFiles(files, |es|);
    }
  }

  lemma EncodeIs(es: seq<StatusEntry>, parent: string)
    ensures Encode(es, parent) == PushLine("main", |es|, parent) + EncodeEntries(es)
  {
  }

  function Pow10(k: nat): nat {
    if k == 0 then 1 else 10 * Pow10(k - 1)
  }

  lemma {:induction false} DecShort(n: nat, k: nat)
    requires k > 0 && n < Pow10(k)
    ensures |Dec(n)| <= k
  {
    if n >= 10 {
      DecShort(n / 10, k - 1);
    }
  }

  /** The same for any branch name and any list of files, in front of any further bytes. */
  lemma PushDecodes(branch: string, parent: string, files: seq<PushFile>, rest: string)
    requires GoodLine(branch, |files|, parent) && AllFit(files)
    ensures Decode(PushLine(branch, |files|, parent) + EncodeFiles(files) + rest) ==
            Some(Received(branch, parent, files, rest))
  {
    hide *;
    var line := PushLine(branch, |files|, parent);
    assert line + EncodeFiles(files) + rest == line + (EncodeFiles(files) + rest);
    DecodeAfterLine(branch, |files|, parent, EncodeFiles(files) + rest);
    DecodeAllFiles(files, rest);
  }

  // ---- cut streams ---------------------------------------------------------------------------

  function InitOf(files: seq<PushFile>): seq<PushFile> {
    if files == [] then [] else files[..|files| - 1]
  }

  function LastOf(files: seq<PushFile>): PushFile {
    if files == [] then PushFile("", "") else files[|files| - 1]
  }

  /** How many bytes the files need for the last header to have come with its terminator. */
  function LastNamed(files: seq<PushFile>): nat {
    |EncodeFiles(InitOf(files))| + |FileHeader(LastOf(files).name, |LastOf(files).content|)| + 1
  }

  /** How many bytes of the last body come with the first c bytes of the files. */
  function LastKept(files: seq<PushFile>, c: nat): (k: nat)
    ensures k <= |LastOf(files).content|
  {
    var at := |EncodeFiles(InitOf(files))| + HEADER_SIZE;
    if c <= at then 0 else Min(c - at, |LastOf(files).content|)
  }

  /** The files with no more of the last one than has come with the first c bytes. */
  function Shortened(files: seq<PushFile>, c: nat): seq<PushFile> {
    InitOf(files) + [PushFile(LastOf(files).name, LastOf(files).content[..LastKept(files, c)])]
  }

  lemma CutLastBody(last: PushFile, k: nat)
    requires Fits(last) && HEADER_SIZE <= k < |EncodeFile(last)|
    ensures DecodeFile(EncodeFile(last)[..k]) ==
            Some(FileRead(PushFile(last.name, last.content[..k - HEADER_SIZE]), ""))
  {
    hide DecodeFile, Pad, FileHeader, IsWord;
    var body := last.content[..k - HEADER_SIZE];
    assert EncodeFile(last)[..k] == Pad(FileHeader(last.name, |last.content|)) + body;
    DecodeFileBody(last.name, |last.content|, body);
    assert body[..|body|] == body && body[|body|..] == "";
  }

  /** One file, cut after k bytes. */
  lemma CutLastFile(last: PushFile, k: nat)
    requires Fits(last) && k < |EncodeFile(last)|
    ensures DecodeFile(EncodeFile(last)[..k]) ==
            if k > |FileHeader(last.name, |last.content|)| then
              Some(FileRead(PushFile(last.name, last.content[..if k <= HEADER_SIZE then 0 else k - HEADER_SIZE]), ""))
            else None
  {
    hide DecodeFile, Pad, FileHeader, IsWord;
    if k <= HEADER_SIZE {
      assert EncodeFile(last)[..k] == Pad(FileHeader(last.name, |last.content|))[..k];
      DecodeCutHeader(last.name, |last.content|, k);
      assert last.content[..0] == "";
    } else {
      CutLastBody(last, k);
    }
  }

  lemma CutBeforeLast(files: seq<PushFile>, c: nat)
    requires files != [] && c < |EncodeFiles(InitOf(files))|
    requires var left := DecodeFiles(|files| - 1, EncodeFiles(InitOf(files))[..c]); left.Some? ==> left.value.rest == ""
    ensures c < |EncodeFiles(files)| && DecodeFiles(|files|, EncodeFiles(files)[..c]) == None
  {
    hide DecodeFile, EncodeFile;
    var init := InitOf(files);
    assert EncodeFiles(files)[..c] == EncodeFiles(init)[..c];
    NoHeaderNoFile();
    hide EncodeFiles;
  }

  lemma LastFits(files: seq<PushFile>)
    requires files != [] && AllFit(files)
    ensures AllFit(InitOf(files)) && Fits(LastOf(files)) && |InitOf(files)| == |files| - 1
    ensures EncodeFiles(files) == EncodeFiles(InitOf(files)) + EncodeFile(LastOf(files))
    ensures InitOf(files) == [] ==> EncodeFiles(InitOf(files)) == ""
    ensures LastNamed(files) > |EncodeFiles(InitOf(files))|
  {
    hide Fits, EncodeFile, FileHeader;
  }

  lemma CutBehind(a: string, b: string, c: nat)
    requires |a| <= c <= |a| + |b|
    ensures (a + b)[..c] == a + b[..c - |a|]
  {
  }

  lemma DecodeOneMore(init: seq<PushFile>, tail: string)
    requires AllFit(init)
    ensures DecodeFiles(|init| + 1, EncodeFiles(init) + tail) ==
            match DecodeFile(tail)
            case None => None
            case Some(one) => Some(FilesRead(init + [one.file], one.rest))
  {
    hide DecodeFile, EncodeFiles, AllFit;
    DecodeAllFiles(init, tail);
  }

  lemma EncodedLength(f: PushFile)
    ensures |EncodeFile(f)| == HEADER_SIZE + |f.content|
  {
    hide FileHeader;
  }

  lemma CutAfterInit(files: seq<PushFile>, c: nat)
    requires files != [] && AllFit(files) && |EncodeFiles(InitOf(files))| <= c < |EncodeFiles(files)|
    ensures DecodeFiles(|files|, EncodeFiles(files)[..c]) ==
            if c >= LastNamed(files) then Some(FilesRead(Shortened(files, c), "")) else None
  {
    hide DecodeFile, DecodeFiles, EncodeFile, EncodeFiles, FileHeader, Fits, AllFit, InitOf, LastOf;
    LastFits(files);
    var init, last := InitOf(files), LastOf(files);
    var k := c - |EncodeFiles(init)|;
    CutBehind(EncodeFiles(init), EncodeFile(last), c);
    DecodeOneMore(init, EncodeFile(last)[..k]);
    EncodedLength(last);
    CutLastFile(last, k);
    assert LastKept(files, c) == if k <= HEADER_SIZE then 0 else k - HEADER_SIZE;
  }

  /** Wherever the stream of files is cut: once the last header has come with its terminator, everything
      decodes, the last file with the bytes of its body that came; anywhere earlier the receiver ends on
      a header without a terminator. */
  lemma {:induction false} CutFiles(files: seq<PushFile>, c: nat)
    requires files != [] && AllFit(files) && c < |EncodeFiles(files)|
    ensures DecodeFiles(|files|, EncodeFiles(files)[..c]) ==
            if c >= LastNamed(files) then Some(FilesRead(Shortened(files, c), "")) else None
    decreases |files|
  {
    LastFits(files);
    hide EncodeFiles, DecodeFiles, AllFit, Shortened, InitOf, LastNamed;
    if c >= |EncodeFiles(InitOf(files))| {
      CutAfterInit(files, c);
    } else {
      CutFiles(InitOf(files), c);
      CutBeforeLast(files, c);
    }
  }

  /** A push whose stream ends inside its files is still decoded if and only if the last header has
      come with its terminator, and then the last file is what came of it. */
  lemma CutBodyDecodes(branch: string, parent: string, files: seq<PushFile>, c: nat)
    requires GoodLine(branch, |files|, parent) && files != [] && AllFit(files) && c < |EncodeFiles(files)|
    ensures Decode(PushLine(branch, |files|, parent) + EncodeFiles(files)[..c]) ==
            if c >= LastNamed(files) then Some(Received(branch, parent, Shortened(files, c), "")) else None
  {
    hide *;
    DecodeAfterLine(branch, |files|, parent, EncodeFiles(files)[..c]);
    CutFiles(files, c);
  }
}
