/** Printing into a caller's buffer: exact lengths first, then one memcpy after another. */
module RequestPrinter {
  import opened CStrings
  import opened HeaderTable
  import opened HttpText
  import opened HttpMessage
  import opened Tokenizer
  import opened LineTokenizer
  import opened HeaderReader

  /** The buffer holds what has been printed so far, and behind it what it held before. */
  ghost predicate Printed(mem: string, before: string, done: string) {
    |mem| == |before| && |done| <= |before| && mem == done + before[|done|..]
  }

  /** memcpy(out + at, s, |s|). */
  method Put(out: array<char>, at: nat, s: string, ghost before: string, ghost done: string)
    requires Printed(out[..], before, done) && at == |done| && at + |s| <= out.Length
    modifies out
    ensures Printed(out[..], before, done + s)
  {
    var k := 0;
    while k < |s|
      invariant k <= |s|
      invariant Printed(out[..], before, done + s[..k])
    {
      PutChar(out[..], before, done + s[..k], s[k]);
      out[at + k] := s[k];
      k := k + 1;
      assert done + s[..k] == done + s[..k - 1] + [s[k - 1]];
    }
    assert s[..k] == s;
  }

  lemma PutChar(mem: string, before: string, done: string, c: char)
    requires Printed(mem, before, done) && |done| < |mem|
    ensures Printed(mem[|done| := c], before, done + [c])
  {
  }

  /** memcpy(out + at, str, strlen(str)) for a string of the request's own buffers. */
  method PutStr(out: array<char>, at: nat, src: array<char>, i: nat, ghost before: string, ghost done: string,
                ghost s: string)
    returns (next: nat)
    requires src != out && StrAt(src[..], i, s)
    requires Printed(out[..], before, done) && at == |done| && at + |s| <= out.Length
    modifies out
    ensures Printed(out[..], before, done + s) && next == at + |s|
  {
    var n := StrLen(src, i, s);
    SliceIs(src[..], i, s, 0, n);
    hide StrAt, Printed;
    Put(out, at, src[i..i + n], before, done);
    next := at + n;
  }

  // ---- the headers -------------------------------------------------------------------------------

  function LineLen(slot: Slot): nat {
    match slot.key
    case None => 0
    case Some(key) => |key| + |slot.value| + 4
  }

  function SlotLine(slot: Slot): string {
    match slot.key
    case None => ""
    case Some(key) => HeaderLine(Header(key, slot.value))
  }

  lemma PrintSlot(slots: seq<Slot>, i: nat)
    requires i < |slots|
    ensures PrintHeaders(Live(slots[..i + 1])) == PrintHeaders(Live(slots[..i])) + SlotLine(slots[i])
  {
    assert slots[..i + 1] == slots[..i] + [slots[i]];
    LiveSnoc(slots[..i], slots[i]);
    var hs := Live(slots[..i]);
    if slots[i].key.Some? {
      var h := Header(slots[i].key.value, slots[i].value);
      assert (hs + [h])[..|hs|] == hs;
    }
  }

  lemma {:induction false} PrintedSoFar(slots: seq<Slot>, i: nat)
    requires i <= |slots|
    ensures |PrintHeaders(Live(slots[..i]))| <= |PrintHeaders(Live(slots))|
    decreases |slots| - i
  {
    if i == |slots| {
      assert slots[..i] == slots;
    } else {
      PrintSlot(slots, i);
      PrintedSoFar(slots, i + 1);
    }
  }

  /** ParsedHeader_headersLen. */
  method HeadersLen(table: Table) returns (len: nat)
    requires table.Valid()
    ensures len == |PrintHeaders(table.Contents()) + CRLF|
  {
    hide PrintHeaders, Live;
    ghost var slots := table.headers[..table.headersUsed];
    var i := 0;
    len := 0;
    EmptySlots(slots);
    while i < table.headersUsed
      invariant i <= table.headersUsed
      invariant len == |PrintHeaders(Live(slots[..i]))|
    {
      PrintSlot(slots, i);
      len := len + LineLen(table.headers[i]);
      i := i + 1;
    }
    assert slots[..i] == slots;
    len := len + 2;
  }

  lemma EmptySlots(slots: seq<Slot>)
    ensures PrintHeaders(Live(slots[..0])) == ""
  {
  }

  lemma AppendAfter(done: string, text: string, before: string, line: string)
    requires text == before + line
    ensures done + text == done + before + line
  {
  }

  lemma PrintSlotAfter(done: string, slots: seq<Slot>, i: nat)
    requires i < |slots|
    ensures done + PrintHeaders(Live(slots[..i + 1])) == done + PrintHeaders(Live(slots[..i])) + SlotLine(slots[i])
    ensures |PrintHeaders(Live(slots[..i]))| + |SlotLine(slots[i])| <= |PrintHeaders(Live(slots))|
  {
    hide PrintHeaders, Live, SlotLine;
    PrintedSoFar(slots, i + 1);
    PrintSlot(slots, i);
    AppendAfter(done, PrintHeaders(Live(slots[..i + 1])), PrintHeaders(Live(slots[..i])), SlotLine(slots[i]));
  }

  method WriteSlots(table: Table, out: array<char>, at: nat, ghost before: string, ghost done: string)
    returns (current: nat)
    requires table.headersUsed <= table.headers.Length
    requires Printed(out[..], before, done) && at == |done| && at + |PrintHeaders(table.Contents())| <= out.Length
    modifies out
    ensures Printed(out[..], before, done + PrintHeaders(table.Contents()))
    ensures current == at + |PrintHeaders(table.Contents())|
  {
    hide PrintHeaders, Live, Printed, SlotLine;
    ghost var slots := table.headers[..table.headersUsed];
    var i := 0;
    current := at;
    EmptySlots(slots);
    assert done + "" == done;
    while i < table.headersUsed
      invariant i <= table.headersUsed
      invariant current == |done + PrintHeaders(Live(slots[..i]))|
      invariant Printed(out[..], before, done + PrintHeaders(Live(slots[..i])))
    {
      PrintSlotAfter(done, slots, i);
      current := WriteSlot(table.headers[i], out, current, before, done + PrintHeaders(Live(slots[..i])));
      i := i + 1;
    }
    assert slots[..i] == slots;
  }

  /** ParsedHeader_printHeaders. */
  method WriteHeaders(table: Table, out: array<char>, at: nat, len: nat, ghost before: string, ghost done: string)
    returns (ret: int)
    requires table.Valid()
    requires Printed(out[..], before, done) && at == |done| && at + len <= out.Length
    modifies out
    ensures var text := PrintHeaders(table.Contents()) + CRLF;
            if len >= |text| then ret == 0 && Printed(out[..], before, done + text)
            else ret == -1 && out[..] == old(out[..])
  {
    var need := HeadersLen(table);
    if len < need {
      return -1;
    }
    hide PrintHeaders, Live, Printed;
    ghost var text := PrintHeaders(table.Contents());
    var current := WriteSlots(table, out, at, before, done);
    Put(out, current, CRLF, before, done + text);
    assert done + text + CRLF == done + (text + CRLF);
    return 0;
  }

  method WriteSlot(slot: Slot, out: array<char>, at: nat, ghost before: string, ghost done: string) returns (next: nat)
    requires Printed(out[..], before, done) && at == |done| && at + |SlotLine(slot)| <= out.Length
    modifies out
    ensures Printed(out[..], before, done + SlotLine(slot)) && next == at + |SlotLine(slot)|
  {
    hide Printed;
    match slot.key
    case None =>
      assert done + "" == done;
      next := at;
    case Some(key) =>
      Put(out, at, key, before, done);
      Put(out, at + |key|, ": ", before, done + key);
      Put(out, at + |key| + 2, slot.value, before, done + key + ": ");
      Put(out, at + |key| + 2 + |slot.value|, CRLF, before, done + key + ": " + slot.value);
      assert done + key + ": " + slot.value + CRLF == done + SlotLine(slot);
      next := at + |key| + |slot.value| + 4;
  }

  // ---- the request line ----------------------------------------------------------------------------

  lemma LineAssembles(l: Line)
    ensures PrintLine(l) + CRLF
            == "" + l.method_ + " " + l.protocol + "://" + l.host + PortText(l.port) + l.path + " " + l.version + CRLF
  {
    hide PortText;
    var hp, rest := l.host + PortText(l.port), l.path + " " + l.version + CRLF;
    assert Address(l) == l.protocol + "://" + l.host + PortText(l.port) + l.path;
  }

  ghost predicate Holds(buf: array<char>, fields: Fields, path: array<char>, l: Line)
    reads buf, path
  {
    FieldsAt(buf[..], fields, l) && path[..] == l.path + [NUL] && NoNul(l.path)
  }

  /** ParsedRequest_requestLineLen. */
  method RequestLineLen(buf: array<char>, fields: Fields, path: array<char>, ghost l: Line) returns (len: nat)
    requires Holds(buf, fields, path, l)
    ensures len == |PrintLine(l) + CRLF|
  {
    hide StrAt;
    WholeAt(path[..], l.path);
    var method_ := StrLen(buf, fields.method_, l.method_);
    var protocol := StrLen(buf, fields.protocol, l.protocol);
    var host := StrLen(buf, fields.host, l.host);
    var version := StrLen(buf, fields.version, l.version);
    len := method_ + 1 + protocol + 3 + host + 1 + version + 2;
    if fields.port.Some? {
      var port := StrLen(buf, fields.port.value, l.port.value);
      len := len + port + 1;
    }
    var plen := StrLen(path, 0, l.path);
    len := len + plen;
  }

  /** The memcpy calls of ParsedRequest_printRequestLine. */
  method WriteLine(buf: array<char>, fields: Fields, path: array<char>, out: array<char>, ghost l: Line,
                   ghost before: string)
    returns (current: nat)
    requires Holds(buf, fields, path, l) && out != buf && out != path
    requires out[..] == before && |PrintLine(l) + CRLF| <= out.Length
    modifies out
    ensures Printed(out[..], before, PrintLine(l) + CRLF) && current == |PrintLine(l) + CRLF|
  {
    hide StrAt, Printed, PrintLine;
    LineAssembles(l);
    ghost var done := "";
    StartPrinting(before);
    current := PutStr(out, 0, buf, fields.method_, before, done, l.method_);
    done := done + l.method_;
    Put(out, current, " ", before, done);
    done, current := done + " ", current + 1;
    current := PutStr(out, current, buf, fields.protocol, before, done, l.protocol);
    done := done + l.protocol;
    Put(out, current, "://", before, done);
    done, current := done + "://", current + 3;
    current := PutStr(out, current, buf, fields.host, before, done, l.host);
    done := done + l.host;
    current := WritePort(buf, fields.port, out, current, before, done, l.port);
    done := done + PortText(l.port);
    WholeAt(path[..], l.path);
    current := PutStr(out, current, path, 0, before, done, l.path);
    done := done + l.path;
    Put(out, current, " ", before, done);
    done, current := done + " ", current + 1;
    current := PutStr(out, current, buf, fields.version, before, done, l.version);
    done := done + l.version;
    Put(out, current, CRLF, before, done);
    current := current + 2;
  }

  lemma StartPrinting(before: string)
    ensures Printed(before, before, "")
  {
  }

  method WritePort(buf: array<char>, port: Option<nat>, out: array<char>, at: nat,
                   ghost before: string, ghost done: string, ghost text: Option<string>)
    returns (current: nat)
    requires out != buf && (port.Some? <==> text.Some?) && (port.Some? ==> StrAt(buf[..], port.value, text.value))
    requires Printed(out[..], before, done) && at == |done| && at + |PortText(text)| <= out.Length
    modifies out
    ensures Printed(out[..], before, done + PortText(text)) && current == at + |PortText(text)|
  {
    hide StrAt, Printed;
    current := at;
    if port.Some? {
      Put(out, at, ":", before, done);
      current := PutStr(out, at + 1, buf, port.value, before, done + ":", text.value);
      assert done + ":" + text.value == done + PortText(text);
    } else {
      assert done + "" == done;
    }
  }
}
