/** The request object: parsing fills it in place, unparsing prints it into a caller's buffer. */
module RequestObject {
  import opened CStrings
  import opened HeaderTable
  import opened HttpText
  import opened HttpMessage
  import opened HttpRequest
  import opened Tokenizer
  import opened LineTokenizer
  import opened HeaderReader
  import opened RequestPrinter

  method CopyWithNul(s: string) returns (a: array<char>)
    ensures fresh(a) && a[..] == s + [NUL]
  {
    a := new char[|s| + 1];
    var k := 0;
    while k < |s|
      invariant k <= |s|
      invariant forall j :: 0 <= j < k ==> a[j] == s[j]
    {
      a[k] := s[k];
      k := k + 1;
    }
    a[k] := NUL;
  }

  lemma CopyIsText(mem: string, input: string)
    requires mem == input + [NUL]
    ensures StrAt(mem, 0, UpToNul(input))
  {
    var text := UpToNul(input);
    assert mem[..|text|] == text;
  }

  /** What the copied request falls into: the request line, and the rest behind its CRLF. */
  lemma CopyParts(mem: string, text: string)
    requires StrAt(mem, 0, text) && Find(text, CRLF) >= 0
    ensures var n := Find(text, CRLF);
            && n + 2 <= |text| < |mem| && mem[..n] == text[..n] && NoNul(text[..n]) && NoCrLf(text[..n])
            && StrAt(mem, n + 2, text[n + 2..])
  {
    hide Find, NoCrLf;
    TextParts(text);
    StrAtTail(mem, 0, text, Find(text, CRLF) + 2);
    SliceIs(mem, 0, text, 0, Find(text, CRLF));
  }

  lemma LineIsGood(text: string)
    requires NoNul(text) && NoCrLf(text)
    ensures SplitLine(text).Accepted? ==> NoNul(SplitLine(text).line.path)
  {
    hide SplitLine, NoCrLf, NoNul;
    AcceptedLineGood(text);
  }

  class ParsedRequest {
    var buf: array?<char>
    var path: array<char>
    var fields: Fields
    const headers: Table
    ghost var line: Line

    ghost predicate Valid()
      reads this, buf, path, headers, headers.headers
    {
      headers.Valid() && (buf != null ==> Holds(buf, fields, path, line))
    }

    ghost function Contents(): Request
      reads this, headers, headers.headers
      requires headers.headersUsed <= headers.headers.Length
    {
      Request(line, headers.Contents())
    }

    /** ParsedRequest_create. */
    constructor ()
      ensures Valid() && buf == null && headers.Contents() == []
      ensures fresh(headers) && fresh(headers.headers) && fresh(path)
    {
      buf, path, fields := null, new char[0], Fields(0, 0, 0, None, 0);
      headers := new Table();
      line := Line("", "", "", None, "", "");
    }

    /** The request line: the buffer is given back when it is refused. */
    method ParseLine(text: string) returns (ok: bool)
      requires buf == null && NoNul(text) && NoCrLf(text) && SplitLine(text) != OutOfBounds
      modifies this
      ensures match SplitLine(text)
              case Accepted(l) => ok && buf != null && line == l && Holds(buf, fields, path, l)
              case _ => !ok && buf == null
    {
      hide SplitLine, FieldsAt, NoCrLf, NoNul;
      buf := CopyWithNul(text);
      LineIsGood(text);
      var cut;
      cut, path := LineInPlace(buf, text);
      ok := cut.Some?;
      if ok {
        fields, line := cut.value, SplitLine(text).line;
      } else {
        buf := null;
      }
    }

    ghost predicate Outcome(result: ParseResult, ret: int)
      reads this, headers, headers.headers
      requires headers.headersUsed <= headers.headers.Length
    {
      match result
      case Refused => ret == -1 && buf == null && headers.Contents() == []
      case Undefined => false
      case HeaderRefused(r) => ret == -1 && buf != null && Contents() == r
      case Parsed(r) => ret == 0 && buf != null && Contents() == r
    }

    method ParseCopy(tmpBuf: array<char>, ghost text: string) returns (ret: int)
      requires Valid() && buf == null && headers.Contents() == []
      requires StrAt(tmpBuf[..], 0, text) && ParseText(text) != Undefined
      modifies this, headers, headers.headers
      ensures Valid() && Outcome(ParseText(text), ret)
    {
      hide StrAt, Find, SplitLine, ReadHeaders, Holds, NoCrLf, OccursAt;
      var index := StrStr(tmpBuf, 0, BLANK, text);
      if index == None {
        return -1;
      }
      BlankHasCrLf(text);
      CopyParts(tmpBuf[..], text);
      index := StrStr(tmpBuf, 0, CRLF, text);
      var ok := ParseLine(tmpBuf[..index.value]);
      if !ok {
        return -1;
      }
      ret := ReadHeaderLines(headers, tmpBuf, index.value + 2, text[index.value + 2..]);
    }

    /** ParsedRequest_parse.  The text is only copied from; an object that already holds a request
        is left alone. */
    method Parse(input: string) returns (ret: int)
      requires Valid()
      requires buf == null ==> headers.Contents() == [] && ParseRequest(input) != Undefined
      modifies this, headers, headers.headers
      ensures Valid()
      ensures old(buf) != null ==> ret == -1 && unchanged(this) && unchanged(headers) && unchanged(headers.headers)
      ensures old(buf) == null ==> Outcome(ParseRequest(input), ret)
    {
      if buf != null {
        return -1;
      }
      if |input| < MIN_REQ_LEN || |input| > MAX_REQ_LEN {
        return -1;
      }
      hide StrAt, UpToNul, ParseText, Holds;
      var tmpBuf := CopyWithNul(input);
      CopyIsText(tmpBuf[..], input);
      ret := ParseCopy(tmpBuf, UpToNul(input));
    }

    /** ParsedRequest_totalLen. */
    method TotalLen() returns (len: nat)
      requires Valid()
      ensures len == if buf == null then 0 else |Print(Contents())|
    {
      if buf == null {
        return 0;
      }
      hide PrintLine, PrintHeaders, FieldsAt;
      var lineLen := RequestLineLen(buf, fields, path, line);
      var headersLen := HeadersLen(headers);
      len := lineLen + headersLen;
    }

    /** ParsedRequest_unparse: success exactly when the whole text fits.  A failure leaves at most
        the request line behind. */
    method Unparse(out: array<char>, buflen: nat) returns (ret: int)
      requires Valid() && buflen <= out.Length && out != buf && out != path
      modifies out
      ensures Valid() && (buf != null ==> Contents() == old(Contents()))
      ensures ret == if buf != null && buflen >= |Print(Contents())| then 0 else -1
      ensures ret == 0 ==> Printed(out[..], old(out[..]), Print(Contents()))
      ensures ret == -1 ==>
                || out[..] == old(out[..])
                || (buf != null && Printed(out[..], old(out[..]), PrintLine(line) + CRLF))
    {
      if buf == null {
        return -1;
      }
      hide PrintLine, PrintHeaders, FieldsAt, Printed;
      ghost var before := out[..];
      var lineLen := RequestLineLen(buf, fields, path, line);
      if buflen < lineLen {
        return -1;
      }
      var tmp := WriteLine(buf, fields, path, out, line, before);
      ret := WriteHeaders(headers, out, tmp, buflen - tmp, before, PrintLine(line) + CRLF);
    }

    /** ParsedRequest_unparse_headers. */
    method UnparseHeaders(out: array<char>, buflen: nat) returns (ret: int)
      requires Valid() && buflen <= out.Length && out != buf && out != path
      modifies out
      ensures Valid()
      ensures var text := PrintHeaders(headers.Contents()) + CRLF;
              && ret == (if buf != null && buflen >= |text| then 0 else -1)
              && (ret == 0 ==> Printed(out[..], old(out[..]), text))
              && (ret == -1 ==> out[..] == old(out[..]))
    {
      if buf == null {
        return -1;
      }
      hide PrintHeaders, FieldsAt;
      StartPrinting(out[..]);
      assert "" + (PrintHeaders(headers.Contents()) + CRLF) == PrintHeaders(headers.Contents()) + CRLF;
      ret := WriteHeaders(headers, out, 0, buflen, out[..], "");
    }
  }
}
