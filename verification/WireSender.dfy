/** What the proxy puts on the wire, in terms of its entries and files alone. */
module WireSender {
  import opened CStrings
  import opened Manifest
  import opened Sums
  import opened Wire
  import opened WireRoundTrip

  // ---- lists of entries and of files -----------------------------------------------------------------

  lemma NothingEncoded()
    ensures EncodeFiles([]) == "" && EncodeEntries([]) == ""
  {
  }

  lemma EncodeFilesSnoc(files: seq<PushFile>, f: PushFile)
    ensures EncodeFiles(files + [f]) == EncodeFiles(files) + EncodeFile(f)
  {
    hide EncodeFile;
    assert (files + [f])[..|files|] == files;
  }

  lemma EncodeFilesJoin(a: seq<PushFile>, b: seq<PushFile>, f: PushFile)
    requires EncodeFiles(a + b) == EncodeFiles(a) + EncodeFiles(b)
    ensures EncodeFiles(a + (b + [f])) == EncodeFiles(a) + EncodeFiles(b + [f])
  {
    hide *;
    Grouped(a, b, [f]);
    EncodeFilesSnoc(b, f);
    EncodeFilesSnoc(a + b, f);
    Grouped(EncodeFiles(a), EncodeFiles(b), EncodeFile(f));
  }

  lemma {:induction false} EncodeFilesSplit(a: seq<PushFile>, b: seq<PushFile>)
    ensures EncodeFiles(a + b) == EncodeFiles(a) + EncodeFiles(b)
  {
    hide *;
    if b == [] {
      NothingEncoded();
      assert a + b == a && EncodeFiles(a) + "" == EncodeFiles(a);
    } else {
      EncodeFilesSplit(a, b[..|b| - 1]);
      EncodeFilesJoin(a, b[..|b| - 1], b[|b| - 1]);
      assert b[..|b| - 1] + [b[|b| - 1]] == b;
    }
  }

  lemma EncodeEntriesJoin(a: seq<StatusEntry>, b: seq<StatusEntry>, e: StatusEntry)
    requires EncodeEntries(a + b) == EncodeEntries(a) + EncodeEntries(b)
    ensures EncodeEntries(a + (b + [e])) == EncodeEntries(a) + EncodeEntries(b + [e])
  {
    hide *;
    Grouped(a, b, [e]);
    EncodeEntriesLast(b, e);
    EncodeEntriesLast(a + b, e);
    Grouped(EncodeEntries(a), EncodeEntries(b), EncodeEntry(e));
  }

  lemma EncodeEntriesLast(es: seq<StatusEntry>, e: StatusEntry)
    ensures EncodeEntries(es + [e]) == EncodeEntries(es) + EncodeEntry(e)
  {
    hide EncodeEntry;
    assert (es + [e])[..|es|] == es;
  }

  lemma {:induction false} EncodeEntriesSplit(a: seq<StatusEntry>, b: seq<StatusEntry>)
    ensures EncodeEntries(a + b) == EncodeEntries(a) + EncodeEntries(b)
  {
    hide *;
    if b == [] {
      NothingEncoded();
      assert a + b == a && EncodeEntries(a) + "" == EncodeEntries(a);
    } else {
      EncodeEntriesSplit(a, b[..|b| - 1]);
      EncodeEntriesJoin(a, b[..|b| - 1], b[|b| - 1]);
      assert b[..|b| - 1] + [b[|b| - 1]] == b;
    }
  }

  // ---- one entry -----------------------------------------------------------------------------------

  /** A file on the wire, byte by byte: 256 bytes with its size and name in text, then its content. */
  lemma FileOnWire(f: PushFile)
    requires Fits(f)
    ensures var header, wire := Dec(|f.content|) + " " + f.name, EncodeFile(f);
            && |header| < 256 && |wire| == 256 + |f.content|
            && wire[..|header|] == header && wire[256..] == f.content
            && forall i :: |header| <= i < 256 ==> wire[i] == NUL
  {
    hide Dec;
  }

  /** An entry without a path, one that is not changed, and one that does not open add no byte. */
  lemma SkippedAddsNothing(before: seq<StatusEntry>, e: StatusEntry, after: seq<StatusEntry>)
    requires e.path == None || !e.changed || e.file == None
    ensures EncodeEntries(before + [e] + after) == EncodeEntries(before + after)
  {
    assert EncodeEntry(e) == "";
    hide *;
    EncodeEntriesSplit(before + [e], after);
    EncodeEntriesSplit(before, after);
    EncodeEntriesLast(before, e);
    assert EncodeEntries(before) + "" == EncodeEntries(before);
  }

  lemma AllBeforeError(sends: seq<nat>, after: seq<nat>)
    requires 0 !in sends && (after == [] || after[0] == 0)
    ensures BeforeError(sends + after) == sends
  {
    hide BeforeError;
    var all := sends + after;
    assert forall i :: 0 <= i < |sends| ==> all[i] == sends[i];
    assert after != [] ==> all[|sends|] == 0;
  }

  /** A changed file of which the kernel takes the given amounts before a call fails or none is left:
      the header announces its size, and so much of it follows. */
  lemma ChangedIsSent(path: string, content: string, sends: seq<nat>, after: seq<nat>)
    requires 0 !in sends && (after == [] || after[0] == 0)
    ensures EncodeEntry(StatusEntry(Some(path), true, Some(content), sends + after)) ==
            Pad(Dec(|content|) + " " + path) + content[..Min(Sum(sends), |content|)]
  {
    hide Dec, Sum, BeforeError, Pad;
    AllBeforeError(sends, after);
  }

  // ---- a whole push ----------------------------------------------------------------------------------

  /** Entries and files correspond: each entry is a changed file that opens, and the kernel takes all of
      its bytes, in however many calls. */
  ghost predicate Lists(es: seq<StatusEntry>, files: seq<PushFile>) {
    |es| == |files| &&
    forall i :: 0 <= i < |es| ==>
      && es[i].path == Some(files[i].name) && es[i].changed && es[i].file == Some(files[i].content)
      && 0 !in es[i].sends && Sum(es[i].sends) >= |files[i].content|
  }

  lemma ListedEntry(path: string, content: string, sends: seq<nat>)
    requires 0 !in sends && Sum(sends) >= |content|
    ensures EncodeEntry(StatusEntry(Some(path), true, Some(content), sends)) == EncodeFile(PushFile(path, content))
  {
    hide Dec, Sum, BeforeError, Pad;
    assert sends + [] == sends;
    ChangedIsSent(path, content, sends, []);
    assert content[..|content|] == content;
  }

  lemma {:induction false} ListedEntries(es: seq<StatusEntry>, files: seq<PushFile>)
    requires Lists(es, files)
    ensures EncodeEntries(es) == EncodeFiles(files)
  {
    if es != [] {
      hide EncodeEntry, EncodeFile, Sum;
      var e, f := es[|es| - 1], files[|files| - 1];
      ListedEntries(es[..|es| - 1], files[..|files| - 1]);
      assert e == StatusEntry(Some(f.name), true, Some(f.content), e.sends);
      ListedEntry(f.name, f.content, e.sends);
    }
  }

  /** What the proxy sends for a list of changed files that all open and get through: the command line
      with their number, then every file; and the server rebuilds exactly these files. */
  lemma ListedFilesDecode(es: seq<StatusEntry>, files: seq<PushFile>, parent: string)
    requires |es| == |files| && AllFit(files) && |es| <= INT_MAX
    requires IsWord(parent) && |parent| <= PARENT_MAX
    requires forall i :: 0 <= i < |es| ==>
               && es[i].path == Some(files[i].name) && es[i].changed && es[i].file == Some(files[i].content)
               && 0 !in es[i].sends && Sum(es[i].sends) >= |files[i].content|
    ensures Encode(es, parent) == "PUSH main " + Dec(|es|) + " " + parent + "\n" + EncodeFiles(files)
    ensures Decode(Encode(es, parent)) == Some(Received("main", parent, files, ""))
  {
    assert Lists(es, files);
    MainLineIs(|es|, parent);
    hide *;
    ListedEntries(es, files);
    EncodeIs(es, parent);
    MainLineIsGood(|es|, parent);
    PushDecodes("main", parent, files, "");
    var stream := PushLine("main", |es|, parent) + EncodeFiles(files);
    assert stream + "" == stream;
  }

  lemma MainLineIs(count: nat, parent: string)
    ensures PushLine("main", count, parent) == "PUSH main " + Dec(count) + " " + parent + "\n"
  {
    hide Dec;
  }
}
