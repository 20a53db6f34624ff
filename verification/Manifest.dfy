/** The manifest of a branch: its text form, the loader, and the in-place merge of pushed files. */
module Manifest {
  import opened CStrings

  const MAX_ENTRIES: nat := 1024
  const NAME_MAX: nat := 255
  const HASH_SIZE: nat := 40
  const LINE_BUF: nat := 512

  datatype Entry = Entry(name: string, hash: string)

  /** A text that one "%s" conversion reads back whole. */
  predicate IsWord(s: string) {
    s != "" && Free(s, WHITESPACE) && NoNul(s)
  }

  predicate WellFormed(e: Entry) {
    IsWord(e.name) && |e.name| <= NAME_MAX && IsWord(e.hash) && |e.hash| == HASH_SIZE
  }

  predicate AllWellFormed(es: seq<Entry>) {
    forall i :: 0 <= i < |es| ==> WellFormed(es[i])
  }

  predicate Distinct(es: seq<Entry>) {
    forall i, j :: 0 <= i < j < |es| ==> es[i].name != es[j].name
  }

  // ---- text form --------------------------------------------------------------------------

  function Line(e: Entry): string {
    e.name + " " + e.hash + "\n"
  }

  function Print(es: seq<Entry>): string {
    if es == [] then "" else Print(es[..|es| - 1]) + Line(es[|es| - 1])
  }

  /** Number of characters that fgets takes: up to and including a newline, at most 511. */
  function LineLen(text: string): (n: nat)
    ensures n <= |text| && n <= 511
    ensures text != "" ==> n > 0
    ensures forall i :: 0 <= i < n - 1 ==> text[i] != '\n'
    ensures n < |text| && n < 511 ==> n > 0 && text[n - 1] == '\n'
  {
    var k := StrCSpn(text, {'\n'});
    var n := if k < |text| then k + 1 else k;
    if n < LINE_BUF then n else LINE_BUF - 1
  }

  /** sscanf(line, "%255s %40s") when both conversions succeed. */
  function ScanEntry(line: string): Option<Entry> {
    match ScanWord(UpToNul(line), NAME_MAX)
    case NoMatch => None
    case Match(name, rest) =>
      match ScanWord(rest, HASH_SIZE)
      case NoMatch => None
      case Match(hash, _) => Some(Entry(name, hash))
  }

  function LoadFrom(text: string, acc: seq<Entry>): seq<Entry>
    decreases |text|
  {
    if text == "" || |acc| >= MAX_ENTRIES then acc
    else
      var n := LineLen(text);
      var e := ScanEntry(text[..n]);
      LoadFrom(text[n..], if e.Some? then acc + [e.value] else acc)
  }

  function Load(text: string): seq<Entry> {
    LoadFrom(text, [])
  }

  lemma LineEnds(body: string, rest: string)
    requires Free(body, {'\n'}) && |body| + 1 < LINE_BUF
    ensures LineLen(body + "\n" + rest) == |body + "\n"|
  {
    assert body + "\n" + rest == body + ("\n" + rest);
    CSpnStops(body, "\n" + rest, {'\n'});
  }

  lemma WordsScan(name: string, h: string)
    requires WellFormed(Entry(name, h))
    ensures ScanWord(name + (" " + h + "\n"), NAME_MAX) == Match(name, " " + h + "\n")
    ensures ScanWord(" " + h + "\n", HASH_SIZE) == Match(h, "\n")
  {
    hide ScanWord;
    var tail := " " + h + "\n";
    assert name + tail == "" + name + tail;
    ScanWordStops("", name, tail, NAME_MAX);
    ScanWordStops(" ", h, "\n", HASH_SIZE);
  }

  lemma LineShape(e: Entry)
    requires WellFormed(e)
    ensures var body := e.name + " " + e.hash;
            && Line(e) == body + "\n" && Line(e) == e.name + (" " + e.hash + "\n")
            && Free(body, {'\n'}) && |body| + 1 < LINE_BUF && NoNul(Line(e))
  {
  }

  lemma LineScans(e: Entry, rest: string)
    requires WellFormed(e)
    ensures LineLen(Line(e) + rest) == |Line(e)|
    ensures ScanEntry(Line(e)) == Some(e)
  {
    LineShape(e);
    hide LineLen, ScanWord, UpToNul, Free, NoNul, IsWord, Line;
    LineEnds(e.name + " " + e.hash, rest);
    assert Line(e) + "" == Line(e);
    UpToNulStops(Line(e), "");
    WordsScan(e.name, e.hash);
  }

  lemma {:induction false} PrintFront(es: seq<Entry>)
    requires es != []
    ensures Print(es) == Line(es[0]) + Print(es[1..])
  {
    if |es| > 1 {
      var init := es[..|es| - 1];
      PrintFront(init);
      assert es[1..][..|es| - 2] == init[1..];
    }
  }

  lemma {:induction false} PrintSplit(a: seq<Entry>, b: seq<Entry>)
    ensures Print(a + b) == Print(a) + Print(b)
  {
    hide Line;
    if b == [] {
      assert a + b == a && Print(a) + "" == Print(a);
    } else {
      var init, last := b[..|b| - 1], b[|b| - 1];
      PrintSplit(a, init);
      assert (a + b)[..|a + b| - 1] == a + init;
      Grouped(Print(a), Print(init), Line(last));
    }
  }

  lemma LineIs(e: Entry)
    ensures Line(e) == e.name + " " + e.hash + "\n"
  {
  }

  /** In a manifest the text of entry k is its name, a blank, its hash and a newline. */
  lemma PrintAt(es: seq<Entry>, k: nat)
    requires k < |es|
    ensures Print(es) == Print(es[..k]) + (es[k].name + " " + es[k].hash + "\n") + Print(es[k + 1..])
    ensures Print([]) == ""
  {
    NoEntriesNoText();
    hide *;
    AtPlace(es, k);
    PrintFront(es[k..]);
    PrintSplit(es[..k], es[k..]);
    LineIs(es[k]);
    Grouped(Print(es[..k]), Line(es[k]), Print(es[k + 1..]));
  }

  lemma NoEntriesNoText()
    ensures Print([]) == ""
  {
  }

  lemma LoadStep(acc: seq<Entry>, e: Entry, rest: string)
    requires WellFormed(e) && |acc| < MAX_ENTRIES
    ensures LoadFrom(Line(e) + rest, acc) == LoadFrom(rest, acc + [e])
  {
    LineScans(e, rest);
    var text := Line(e) + rest;
    assert text[..|Line(e)|] == Line(e) && text[|Line(e)|..] == rest;
  }

  lemma {:induction false} LoadPrintFrom(acc: seq<Entry>, es: seq<Entry>)
    requires AllWellFormed(es)
    requires |acc| + |es| <= MAX_ENTRIES
    ensures LoadFrom(Print(es), acc) == acc + es
    decreases |es|
  {
    if es != [] {
      var e, rest := es[0], es[1..];
      calc {
        LoadFrom(Print(es), acc);
        { PrintFront(es); }
        LoadFrom(Line(e) + Print(rest), acc);
        { LoadStep(acc, e, Print(rest)); }
        LoadFrom(Print(rest), acc + [e]);
        { LoadPrintFrom(acc + [e], rest); }
        acc + [e] + rest;
        { assert es == [e] + rest; }
        acc + es;
      }
    }
  }

  /** The loader recovers exactly the entries the writer printed. */
  lemma LoadPrint(es: seq<Entry>)
    requires AllWellFormed(es) && |es| <= MAX_ENTRIES
    ensures Load(Print(es)) == es
  {
    hide LoadFrom, Print;
    LoadPrintFrom([], es);
    assert [] + es == es;
  }

  /** However long the text, the loader fills at most the entry table. */
  lemma {:induction false} LoadBounded(text: string, acc: seq<Entry>)
    requires |acc| <= MAX_ENTRIES
    ensures |LoadFrom(text, acc)| <= MAX_ENTRIES
    decreases |text|
  {
    if text != "" && |acc| < MAX_ENTRIES {
      var n := LineLen(text);
      var e := ScanEntry(text[..n]);
      LoadBounded(text[n..], if e.Some? then acc + [e.value] else acc);
    }
  }

  /** The loader on any text, line by line: a line is what fgets takes, at most 511 characters; one
      without two words is skipped; and nothing is read once the table is full. */
  lemma LoadLines(body: string, rest: string, acc: seq<Entry>)
    requires Free(body, {'\n'}) && |body| <= 511
    requires |body| == 511 || (body != "" && rest == "") || (rest != "" && rest[0] == '\n')
    ensures LoadFrom("", acc) == acc
    ensures |acc| >= 1024 ==> LoadFrom(body + rest, acc) == acc
    ensures |acc| < 1024 ==>
              var n := if |body| < 511 && rest != "" then |body| + 1 else |body|;
              var e := ScanEntry((body + rest)[..n]);
              LoadFrom(body + rest, acc) == LoadFrom((body + rest)[n..], if e.Some? then acc + [e.value] else acc)
  {
    hide ScanEntry, StrCSpn;
    var text := body + rest;
    assert forall i :: 0 <= i < |body| ==> text[i] == body[i];
    assert rest != "" ==> text[|body|] == rest[0];
  }

  /** Two words on a line: name and hash are cut at 255 and 40 characters. */
  lemma EntryScans(lead: string, name: string, gap: string, h: string, rest: string)
    requires Free(name, WHITESPACE) && 0 < |name| <= 255 && h != "" && Free(h, WHITESPACE)
    requires (forall i :: 0 <= i < |lead| ==> lead[i] in WHITESPACE) && NoNul(lead + name + gap + h + rest)
    requires gap != "" && forall i :: 0 <= i < |gap| ==> gap[i] in WHITESPACE
    requires rest == "" || rest[0] in WHITESPACE
    ensures ScanEntry(lead + name + gap + h + rest) == Some(Entry(name, if |h| <= 40 then h else h[..40]))
  {
    hide ScanWord, UpToNul, Free;
    var text := lead + name + gap + h + rest;
    UpToNulStops(text, "");
    assert text + "" == text;
    assert text == lead + name + (gap + h + rest);
    assert (gap + h + rest)[0] == gap[0];
    ScanWordTakes(lead, name, gap + h + rest, NAME_MAX);
    assert name[..|name|] == name && name[|name|..] + (gap + h + rest) == gap + h + rest;
    ScanWordTakes(gap, h, rest, HASH_SIZE);
    assert |h| <= 40 ==> h[..|h|] == h;
  }

  /** Fewer than two words on a line give no entry. */
  lemma EntryMissing(lead: string, name: string, gap: string)
    requires Free(name, WHITESPACE) && |name| <= 255 && NoNul(lead + name + gap)
    requires forall i :: 0 <= i < |lead| ==> lead[i] in WHITESPACE
    requires forall i :: 0 <= i < |gap| ==> gap[i] in WHITESPACE
    ensures ScanEntry(lead + name + gap) == None
  {
    hide ScanWord, UpToNul, Free;
    var text := lead + name + gap;
    UpToNulStops(text, "");
    assert text + "" == text;
    if name == "" {
      ScanWordNone(text, NAME_MAX);
    } else {
      ScanWordTakes(lead, name, gap, NAME_MAX);
      assert name[..|name|] == name && name[|name|..] + gap == gap;
      ScanWordNone(gap, HASH_SIZE);
    }
  }

  lemma LoadFromStep(text: string, pos: nat, acc: seq<Entry>)
    requires pos < |text| && |acc| < MAX_ENTRIES
    ensures var n := LineLen(text[pos..]);
            var e := ScanEntry(text[pos..][..n]);
            LoadFrom(text[pos..], acc) == LoadFrom(text[pos + n..], if e.Some? then acc + [e.value] else acc)
  {
    hide ScanEntry, LineLen;
    assert text[pos..][LineLen(text[pos..])..] == text[pos + LineLen(text[pos..])..];
  }

  method LoadManifest(text: string, entries: array<Entry>) returns (count: nat)
    requires entries.Length == MAX_ENTRIES
    modifies entries
    ensures count <= MAX_ENTRIES
    ensures entries[..count] == Load(text)
  {
    hide ScanEntry, LineLen;
    count := 0;
    var pos := 0;
    while pos < |text|
      invariant 0 <= pos <= |text|
      invariant count <= MAX_ENTRIES
      invariant LoadFrom(text[pos..], entries[..count]) == Load(text)
      decreases |text| - pos
    {
      hide LoadFrom;
      ghost var acc := entries[..count];
      var n := LineLen(text[pos..]);
      if count >= MAX_ENTRIES {
        break;
      }
      var scanned := ScanEntry(text[pos..][..n]);
      if scanned.Some? {
        entries[count] := scanned.value;
        count := count + 1;
      }
      LoadFromStep(text, pos, acc);
      assert entries[..count] == if scanned.Some? then acc + [scanned.value] else acc;
      pos := pos + n;
    }
  }

  method PrintManifest(entries: array<Entry>, count: nat) returns (text: string)
    requires count <= entries.Length
    ensures text == Print(entries[..count])
  {
    text := "";
    for i := 0 to count
      invariant text == Print(entries[..i])
    {
      assert entries[..i + 1][..i] == entries[..i];
      text := text + entries[i].name + " " + entries[i].hash + "\n";
      assert Print(entries[..i + 1]) == Print(entries[..i]) + Line(entries[i]);
      assert text == Print(entries[..i]) + Line(entries[i]);
    }
  }

  // ---- merge ------------------------------------------------------------------------------

  function IndexOf(es: seq<Entry>, name: string): (k: nat)
    ensures k <= |es|
    ensures forall i :: 0 <= i < k ==> es[i].name != name
    ensures k < |es| ==> es[k].name == name
  {
    if es == [] || es[0].name == name then 0 else 1 + IndexOf(es[1..], name)
  }

  function Upsert(es: seq<Entry>, e: Entry): seq<Entry> {
    var k := IndexOf(es, e.name);
    if k < |es| then es[k := Entry(es[k].name, e.hash)]
    else if |es| < MAX_ENTRIES then es + [e]
    else es
  }

  function Merge(es: seq<Entry>, pushed: seq<Entry>): seq<Entry> {
    if pushed == [] then es
    else Upsert(Merge(es, pushed[..|pushed| - 1]), pushed[|pushed| - 1])
  }

  method UpsertInPlace(entries: array<Entry>, count: nat, e: Entry) returns (newCount: nat)
    requires entries.Length == MAX_ENTRIES && count <= MAX_ENTRIES
    modifies entries
    ensures newCount <= MAX_ENTRIES
    ensures entries[..newCount] == Upsert(old(entries[..count]), e)
  {
    newCount := count;
    var found := false;
    var i := 0;
    while i < count
      invariant 0 <= i <= count
      invariant entries[..] == old(entries[..])
      invariant forall j :: 0 <= j < i ==> entries[j].name != e.name
    {
      if entries[i].name == e.name {
        entries[i] := Entry(entries[i].name, e.hash);
        found := true;
        break;
      }
      i := i + 1;
    }
    ghost var was := old(entries[..count]);
    assert i < count ==> was[i].name == e.name;
    assert i == IndexOf(was, e.name);
    if !found && newCount < MAX_ENTRIES {
      entries[newCount] := e;
      newCount := newCount + 1;
      assert entries[..newCount] == was + [e];
    }
  }

  predicate HasName(es: seq<Entry>, name: string) {
    IndexOf(es, name) < |es|
  }

  /** The names a push adds, in the order of their first occurrence. */
  function NewNames(es: seq<Entry>, pushed: seq<Entry>): seq<string> {
    if pushed == [] then []
    else
      var prev := NewNames(es, pushed[..|pushed| - 1]);
      var name := pushed[|pushed| - 1].name;
      if HasName(es, name) || name in prev then prev else prev + [name]
  }

  /** The hash of the last pushed file that carries a name. */
  function LastHash(pushed: seq<Entry>, name: string): Option<string> {
    if pushed == [] then None
    else if pushed[|pushed| - 1].name == name then Some(pushed[|pushed| - 1].hash)
    else LastHash(pushed[..|pushed| - 1], name)
  }

  /** How many of the new names still fit in the table. */
  function Kept(es: seq<Entry>, pushed: seq<Entry>): nat
    requires |es| <= MAX_ENTRIES
  {
    var added := |NewNames(es, pushed)|;
    if added <= MAX_ENTRIES - |es| then added else MAX_ENTRIES - |es|
  }

  /** The hash a name has after a merge: the last pushed one, else the one it had. */
  function MergedHash(es: seq<Entry>, pushed: seq<Entry>, name: string): string {
    match LastHash(pushed, name)
    case Some(h) => h
    case None => if HasName(es, name) then es[IndexOf(es, name)].hash else ""
  }

  /** Exact outcome of a merge: old entries keep their place, new names follow in order of first
      occurrence until the table is full, and every listed name has its last pushed hash. */
  ghost predicate IsMerged(es: seq<Entry>, pushed: seq<Entry>, merged: seq<Entry>)
    requires |es| <= MAX_ENTRIES
  {
    && |merged| == |es| + Kept(es, pushed)
    && (forall i :: 0 <= i < |es| ==> merged[i].name == es[i].name)
    && (forall i :: |es| <= i < |merged| ==> merged[i].name == NewNames(es, pushed)[i - |es|])
    && (forall i :: 0 <= i < |merged| ==> merged[i].hash == MergedHash(es, pushed, merged[i].name))
  }

  lemma Snoc(es: seq<Entry>, before: seq<Entry>, e: Entry)
    ensures var prev := NewNames(es, before);
            NewNames(es, before + [e]) ==
              if HasName(es, e.name) || e.name in prev then prev else prev + [e.name]
    ensures forall name :: MergedHash(es, before + [e], name) ==
              if name == e.name then e.hash else MergedHash(es, before, name)
    ensures forall name :: LastHash(before + [e], name) ==
              if name == e.name then Some(e.hash) else LastHash(before, name)
    ensures Merge(es, before + [e]) == Upsert(Merge(es, before), e)
  {
    assert (before + [e])[..|before|] == before;
  }

  ghost predicate AreNew(es: seq<Entry>, pushed: seq<Entry>, ns: seq<string>) {
    && (forall i :: 0 <= i < |ns| ==> !HasName(es, ns[i]) && LastHash(pushed, ns[i]).Some?)
    && (forall i, j :: 0 <= i < j < |ns| ==> ns[i] != ns[j])
  }

  lemma {:induction false} NewNamesAreNew(es: seq<Entry>, pushed: seq<Entry>)
    ensures AreNew(es, pushed, NewNames(es, pushed))
  {
    if pushed != [] {
      var before := pushed[..|pushed| - 1];
      var e := pushed[|pushed| - 1];
      assert pushed == before + [e];
      NewNamesAreNew(es, before);
      Snoc(es, before, e);
    }
  }

  /** The merge is exact, at the limit as below it. */
  lemma {:induction false} MergeExact(es: seq<Entry>, pushed: seq<Entry>)
    requires Distinct(es) && |es| <= MAX_ENTRIES
    ensures IsMerged(es, pushed, Merge(es, pushed))
    ensures Distinct(Merge(es, pushed))
  {
    if pushed == [] {
      forall i | 0 <= i < |es|
        ensures es[i].hash == MergedHash(es, pushed, es[i].name)
      {
        assert IndexOf(es, es[i].name) == i;
      }
    } else {
      var before := pushed[..|pushed| - 1];
      var e := pushed[|pushed| - 1];
      assert pushed == before + [e];
      MergeExact(es, before);
      NewNamesAreNew(es, before);
      Snoc(es, before, e);
      var m := Merge(es, before);
      var k := IndexOf(m, e.name);
      if k < |m| {
        UpdateExact(es, before, e, m, k);
      } else {
        AppendExact(es, before, e, m);
      }
    }
  }

  /** Updating a listed name: no name is added and the position is kept. */
  lemma UpdateExact(es: seq<Entry>, before: seq<Entry>, e: Entry, m: seq<Entry>, k: nat)
    requires |es| <= MAX_ENTRIES
    requires IsMerged(es, before, m) && Distinct(m)
    requires k < |m| && m[k].name == e.name
    ensures var m' := m[k := Entry(m[k].name, e.hash)];
            IsMerged(es, before + [e], m') && Distinct(m')
  {
    hide LastHash, NewNames, Merge, MergedHash;
    Snoc(es, before, e);
    var ns := NewNames(es, before);
    if k < |es| {
      assert es[k].name == e.name;
      assert HasName(es, e.name);
    } else {
      assert ns[k - |es|] == e.name;
    }
    assert NewNames(es, before + [e]) == ns;
  }

  lemma UnlistedIsNew(es: seq<Entry>, before: seq<Entry>, e: Entry, m: seq<Entry>)
    requires |es| <= MAX_ENTRIES
    requires IsMerged(es, before, m)
    requires forall i :: 0 <= i < |m| ==> m[i].name != e.name
    ensures !HasName(es, e.name)
    ensures forall i :: 0 <= i < |m| - |es| ==> NewNames(es, before)[i] != e.name
    ensures |m| < MAX_ENTRIES ==> NewNames(es, before + [e]) == NewNames(es, before) + [e.name]
  {
    Snoc(es, before, e);
    var ns := NewNames(es, before);
    assert forall i :: 0 <= i < |es| ==> m[i].name == es[i].name;
    forall i | 0 <= i < |m| - |es|
      ensures ns[i] != e.name
    {
      assert m[|es| + i].name == ns[i];
    }
  }

  /** A name that is not listed: appended while there is room, dropped when the table is full. */
  lemma AppendExact(es: seq<Entry>, before: seq<Entry>, e: Entry, m: seq<Entry>)
    requires |es| <= MAX_ENTRIES
    requires IsMerged(es, before, m) && Distinct(m)
    requires forall i :: 0 <= i < |m| ==> m[i].name != e.name
    ensures var m' := if |m| < MAX_ENTRIES then m + [e] else m;
            IsMerged(es, before + [e], m') && Distinct(m')
  {
    hide LastHash, NewNames, Merge, MergedHash;
    Snoc(es, before, e);
    UnlistedIsNew(es, before, e, m);
    var ns, ns' := NewNames(es, before), NewNames(es, before + [e]);
    assert ns <= ns';
    var m' := if |m| < MAX_ENTRIES then m + [e] else m;
    forall i | |es| <= i < |m'|
      ensures m'[i].name == ns'[i - |es|]
    {
      assert i < |m| ==> m[i].name == ns[i - |es|];
    }
    forall i | 0 <= i < |m'|
      ensures m'[i].hash == MergedHash(es, before + [e], m'[i].name)
    {
      assert i < |m| ==> m[i].hash == MergedHash(es, before, m[i].name);
    }
  }

  // ---- the outcome of a merge, entry by entry -------------------------------------------------

  predicate LastOfItsName(pushed: seq<Entry>, j: int) {
    0 <= j < |pushed| && forall i :: j < i < |pushed| ==> pushed[i].name != pushed[j].name
  }

  lemma {:induction false} LastHashAt(pushed: seq<Entry>, j: nat)
    requires LastOfItsName(pushed, j)
    ensures LastHash(pushed, pushed[j].name) == Some(pushed[j].hash)
    decreases |pushed|
  {
    if j < |pushed| - 1 {
      LastHashAt(pushed[..|pushed| - 1], j);
    }
  }

  lemma {:induction false} LastHashNone(pushed: seq<Entry>, name: string)
    requires forall i :: 0 <= i < |pushed| ==> pushed[i].name != name
    ensures LastHash(pushed, name) == None
  {
    if pushed != [] {
      LastHashNone(pushed[..|pushed| - 1], name);
    }
  }

  lemma IndexKept(es: seq<Entry>, e: Entry, name: string)
    ensures IndexOf(es, name) < |es| ==> IndexOf(es + [e], name) == IndexOf(es, name)
    ensures IndexOf(es, name) == |es| && e.name == name ==> IndexOf(es + [e], name) == |es|
  {
    var all := es + [e];
    assert all[|es|] == e && forall i :: 0 <= i < |es| ==> all[i] == es[i];
  }

  /** The new names are the pushed names that are not listed yet, by their first occurrence. */
  ghost predicate ByFirst(es: seq<Entry>, pushed: seq<Entry>, ns: seq<string>) {
    && (forall j :: 0 <= j < |pushed| ==> HasName(es, pushed[j].name) || pushed[j].name in ns)
    && (forall i :: 0 <= i < |ns| ==> IndexOf(pushed, ns[i]) < |pushed|)
    && (forall i, j :: 0 <= i < j < |ns| ==> IndexOf(pushed, ns[i]) < IndexOf(pushed, ns[j]))
  }

  lemma ByFirstSnoc(es: seq<Entry>, before: seq<Entry>, e: Entry, ns: seq<string>)
    requires ByFirst(es, before, ns)
    ensures ByFirst(es, before + [e], if HasName(es, e.name) || e.name in ns then ns else ns + [e.name])
  {
    hide HasName;
    var all := before + [e];
    var ns' := if HasName(es, e.name) || e.name in ns then ns else ns + [e.name];
    forall i | 0 <= i < |ns|
      ensures ns'[i] == ns[i] && IndexOf(all, ns'[i]) == IndexOf(before, ns[i])
    {
      IndexKept(before, e, ns[i]);
    }
    if |ns'| > |ns| {
      NotYet(es, before, e, ns);
      IndexKept(before, e, e.name);
    }
  }

  lemma NotYet(es: seq<Entry>, before: seq<Entry>, e: Entry, ns: seq<string>)
    requires ByFirst(es, before, ns) && !HasName(es, e.name) && e.name !in ns
    ensures IndexOf(before, e.name) == |before|
  {
    forall j | 0 <= j < |before|
      ensures before[j].name != e.name
    {
    }
  }

  lemma {:induction false} NewNamesByFirst(es: seq<Entry>, pushed: seq<Entry>)
    ensures ByFirst(es, pushed, NewNames(es, pushed))
  {
    if pushed != [] {
      var before, e := pushed[..|pushed| - 1], pushed[|pushed| - 1];
      assert pushed == before + [e];
      hide ByFirst, HasName;
      NewNamesByFirst(es, before);
      ByFirstSnoc(es, before, e, NewNames(es, before));
    }
  }

  /** What merging does to each entry, for any list of pushed entries: old ones keep their place, and
      their hash unless their name is pushed; the last pushed hash of a name counts; every name of the
      table is old or pushed; the added ones stand in the order in which they first occur; and all are
      added unless the table is full. */
  lemma MergeEntries(es: seq<Entry>, pushed: seq<Entry>)
    requires Distinct(es) && |es| <= 1024
    ensures var m := Merge(es, pushed);
            && |es| <= |m| <= 1024
            && (forall i :: 0 <= i < |es| ==> m[i].name == es[i].name)
            && (forall i :: 0 <= i < |es| && (forall j :: 0 <= j < |pushed| ==> pushed[j].name != es[i].name) ==>
                  m[i] == es[i])
            && (forall k, j :: 0 <= k < |m| && LastOfItsName(pushed, j) && pushed[j].name == m[k].name ==>
                  m[k].hash == pushed[j].hash)
            && (forall k :: |es| <= k < |m| ==> IndexOf(pushed, m[k].name) < |pushed|)
            && (forall k, l :: |es| <= k < l < |m| ==> IndexOf(pushed, m[k].name) < IndexOf(pushed, m[l].name))
            && (|m| < 1024 ==>
                  forall j :: 0 <= j < |pushed| ==> IndexOf(m, pushed[j].name) < |m|)
  {
    hide Merge, NewNames, LastHash, MergedHash, HasName;
    MergeExact(es, pushed);
    MergeOld(es, pushed);
    MergeLast(es, pushed);
    MergeNew(es, pushed);
  }

  lemma MergeOld(es: seq<Entry>, pushed: seq<Entry>)
    requires Distinct(es) && |es| <= MAX_ENTRIES && IsMerged(es, pushed, Merge(es, pushed))
    ensures var m := Merge(es, pushed);
            forall i :: 0 <= i < |es| && (forall j :: 0 <= j < |pushed| ==> pushed[j].name != es[i].name) ==>
              m[i] == es[i]
  {
    hide Merge, NewNames, LastHash;
    var m := Merge(es, pushed);
    forall i | 0 <= i < |es| && (forall j :: 0 <= j < |pushed| ==> pushed[j].name != es[i].name)
      ensures m[i] == es[i]
    {
      LastHashNone(pushed, es[i].name);
      assert IndexOf(es, es[i].name) == i;
      assert m[i].hash == MergedHash(es, pushed, m[i].name);
    }
  }

  lemma MergeLast(es: seq<Entry>, pushed: seq<Entry>)
    requires |es| <= MAX_ENTRIES && IsMerged(es, pushed, Merge(es, pushed))
    ensures var m := Merge(es, pushed);
            forall k, j :: 0 <= k < |m| && LastOfItsName(pushed, j) && pushed[j].name == m[k].name ==>
              m[k].hash == pushed[j].hash
  {
    hide Merge, NewNames, LastHash;
    var m := Merge(es, pushed);
    forall k, j | 0 <= k < |m| && LastOfItsName(pushed, j) && pushed[j].name == m[k].name
      ensures m[k].hash == pushed[j].hash
    {
      LastHashAt(pushed, j);
      assert m[k].hash == MergedHash(es, pushed, m[k].name);
    }
  }

  lemma MergeNew(es: seq<Entry>, pushed: seq<Entry>)
    requires |es| <= MAX_ENTRIES && IsMerged(es, pushed, Merge(es, pushed))
    ensures var m := Merge(es, pushed);
            && (forall k :: |es| <= k < |m| ==> IndexOf(pushed, m[k].name) < |pushed|)
            && (forall k, l :: |es| <= k < l < |m| ==> IndexOf(pushed, m[k].name) < IndexOf(pushed, m[l].name))
            && (|m| < MAX_ENTRIES ==>
                  forall j :: 0 <= j < |pushed| ==> IndexOf(m, pushed[j].name) < |m|)
  {
    hide Merge, NewNames, MergedHash;
    var m, ns := Merge(es, pushed), NewNames(es, pushed);
    NewNamesByFirst(es, pushed);
    forall k | |es| <= k < |m|
      ensures m[k].name == ns[k - |es|]
    {
    }
    if |m| < MAX_ENTRIES {
      forall j | 0 <= j < |pushed|
        ensures IndexOf(m, pushed[j].name) < |m|
      {
        PushedIsIn(es, pushed, m, j);
      }
    }
  }

  lemma PushedIsIn(es: seq<Entry>, pushed: seq<Entry>, m: seq<Entry>, j: nat)
    requires |es| <= MAX_ENTRIES && IsMerged(es, pushed, m) && |m| < MAX_ENTRIES
    requires ByFirst(es, pushed, NewNames(es, pushed)) && j < |pushed|
    ensures IndexOf(m, pushed[j].name) < |m|
  {
    hide NewNames, MergedHash;
    var ns := NewNames(es, pushed);
    if HasName(es, pushed[j].name) {
      assert m[IndexOf(es, pushed[j].name)].name == pushed[j].name;
    } else {
      var i :| 0 <= i < |ns| && ns[i] == pushed[j].name;
      assert m[|es| + i].name == ns[|es| + i - |es|];
    }
  }

  function AsMap(es: seq<Entry>): map<string, string> {
    if es == [] then map[] else AsMap(es[..|es| - 1])[es[|es| - 1].name := es[|es| - 1].hash]
  }

  lemma {:induction false} AsMapAt(es: seq<Entry>, name: string)
    ensures name in AsMap(es) <==> LastHash(es, name).Some?
    ensures name in AsMap(es) ==> LastHash(es, name) == Some(AsMap(es)[name])
  {
    if es != [] {
      AsMapAt(es[..|es| - 1], name);
    }
  }

  lemma {:induction false} AsMapUpdate(es: seq<Entry>, k: nat, h: string)
    requires Distinct(es) && k < |es|
    ensures AsMap(es[k := Entry(es[k].name, h)]) == AsMap(es)[es[k].name := h]
  {
    var last := |es| - 1;
    var es' := es[k := Entry(es[k].name, h)];
    if k == last {
      assert es'[..last] == es[..last];
    } else {
      AsMapUpdate(es[..last], k, h);
      assert es'[..last] == es[..last][k := Entry(es[k].name, h)];
    }
  }

  lemma UpsertAsMap(m: seq<Entry>, e: Entry)
    requires Distinct(m)
    requires IndexOf(m, e.name) == |m| ==> |m| < MAX_ENTRIES
    ensures AsMap(Upsert(m, e)) == AsMap(m)[e.name := e.hash]
  {
    var k := IndexOf(m, e.name);
    if k < |m| {
      AsMapUpdate(m, k, e.hash);
    } else {
      assert (m + [e])[..|m|] == m;
    }
  }

  lemma RoomForUnlisted(es: seq<Entry>, before: seq<Entry>, e: Entry)
    requires Distinct(es) && |es| + |NewNames(es, before + [e])| <= MAX_ENTRIES
    ensures var m := Merge(es, before);
            && Distinct(m)
            && (IndexOf(m, e.name) == |m| ==> |m| < MAX_ENTRIES)
            && |es| + |NewNames(es, before)| <= MAX_ENTRIES
  {
    Snoc(es, before, e);
    MergeExact(es, before);
    var m := Merge(es, before);
    if IndexOf(m, e.name) == |m| {
      UnlistedIsNew(es, before, e, m);
    }
  }

  /** While every new name fits, the merged table is the old map overridden by the pushed one. */
  lemma {:induction false} MergeIsOverride(es: seq<Entry>, pushed: seq<Entry>)
    requires Distinct(es) && |es| + |NewNames(es, pushed)| <= MAX_ENTRIES
    ensures AsMap(Merge(es, pushed)) == AsMap(es) + AsMap(pushed)
  {
    if pushed != [] {
      var before := pushed[..|pushed| - 1];
      var e := pushed[|pushed| - 1];
      assert pushed == before + [e];
      Snoc(es, before, e);
      calc {
        AsMap(Merge(es, pushed));
        AsMap(Upsert(Merge(es, before), e));
        { RoomForUnlisted(es, before, e); UpsertAsMap(Merge(es, before), e); }
        AsMap(Merge(es, before))[e.name := e.hash];
        { MergeIsOverride(es, before); }
        (AsMap(es) + AsMap(before))[e.name := e.hash];
        AsMap(es) + AsMap(before)[e.name := e.hash];
        AsMap(es) + AsMap(pushed);
      }
    }
  }

  lemma {:induction false} MergeWellFormed(es: seq<Entry>, pushed: seq<Entry>)
    requires AllWellFormed(es) && AllWellFormed(pushed) && |es| <= MAX_ENTRIES
    ensures AllWellFormed(Merge(es, pushed)) && |Merge(es, pushed)| <= MAX_ENTRIES
  {
    if pushed != [] {
      MergeWellFormed(es, pushed[..|pushed| - 1]);
    }
  }
}
