/** Which requests are refused, and how: incomplete ones, sizes out of range, header lines without a
    colon. */
module HttpRefusals {
  import opened CStrings
  import opened HeaderTable
  import opened HttpText
  import opened HttpMessage
  import opened HttpRequest

  // ---- sizes and the blank line ----------------------------------------------------------------------

  /** A text without a blank line is refused, whatever else it is. */
  lemma IncompleteRefused(input: string)
    requires Find(UpToNul(input), "\r\n\r\n") < 0
    ensures ParseRequest(input) == Refused
  {
    hide Find, UpToNul, SplitLine, ReadHeaders;
  }

  lemma SizeRefused(input: string)
    requires |input| < 4 || 65535 < |input|
    ensures ParseRequest(input) == Refused
  {
    hide ParseText;
  }

  lemma BlankIsCrLfs(s: string, i: int)
    ensures OccursAt(s, BLANK, i) <==> OccursAt(s, CRLF, i) && OccursAt(s, CRLF, i + 2)
  {
    CrLfOccurs(s, i);
    CrLfOccurs(s, i + 2);
    if 0 <= i <= |s| - 4 {
      assert s[i..i + 4] == [s[i], s[i + 1], s[i + 2], s[i + 3]];
    }
  }

  /** Behind a line without CRLF, a CRLF begins at its end or in what follows. */
  lemma CrLfBehind(a: string, b: string, i: int)
    requires NoCrLf(a) && OccursAt(a + CRLF + b, CRLF, i)
    ensures i == |a| || (i >= |a| + 2 && OccursAt(b, CRLF, i - |a| - 2))
  {
    var s := a + CRLF + b;
    CrLfOccurs(s, i);
    CrLfOccurs(b, i - |a| - 2);
    assert forall k :: 0 <= k < |a| ==> s[k] == a[k];
    assert forall k :: 0 <= k < |b| ==> s[|a| + 2 + k] == b[k];
  }

  lemma BlankBehind(a: string, b: string, i: int)
    requires NoCrLf(a) && OccursAt(a + CRLF + b, BLANK, i)
    ensures (i == |a| && OccursAt(b, CRLF, 0)) || (i >= |a| + 2 && OccursAt(b, BLANK, i - |a| - 2))
  {
    hide OccursAt, NoCrLf;
    BlankIsCrLfs(a + CRLF + b, i);
    CrLfBehind(a, b, i);
    CrLfBehind(a, b, i + 2);
    BlankIsCrLfs(b, i - |a| - 2);
  }

  lemma LineNotBlank(h: Header, rest: string)
    requires GoodHeader(h)
    ensures HeaderLine(h) + rest == (h.key + ": " + h.value) + CRLF + rest
    ensures !OccursAt(HeaderLine(h) + rest, CRLF, 0)
  {
    HeaderLineEnds(h, rest);
    CrLfOccurs(HeaderLine(h) + rest, 0);
    hide Find, NoCrLf, NoNul;
  }

  lemma OneCrLf(i: int)
    ensures !OccursAt(CRLF, BLANK, i)
  {
  }

  /** The printed form of headers behind a line has its only blank line at the very end. */
  lemma {:induction false} BlankAtEnd(line: string, hs: seq<Header>, i: int)
    requires NoCrLf(line) && AllGood(hs) && OccursAt(Message(line, hs), BLANK, i)
    ensures i == |Message(line, hs)| - 4
    decreases |hs|
  {
    hide OccursAt, NoCrLf, GoodHeader, HeaderLine;
    var tail := PrintHeaders(hs) + CRLF;
    BlankBehind(line, tail, i);
    if hs == [] {
      assert tail == CRLF;
      OneCrLf(i - |line| - 2);
    } else {
      PrintHeadersFront(hs);
      var h, rest := hs[0], PrintHeaders(hs[1..]) + CRLF;
      assert GoodHeader(h) && AllGood(hs[1..]);
      assert tail == HeaderLine(h) + rest;
      LineNotBlank(h, rest);
      HeaderBodyClean(h);
      assert tail == Message(h.key + ": " + h.value, hs[1..]);
      BlankAtEnd(h.key + ": " + h.value, hs[1..], i - |line| - 2);
    }
  }

  lemma OccursInFront(s: string, pat: string, k: nat, i: int)
    requires k <= |s| && OccursAt(s[..k], pat, i)
    ensures OccursAt(s, pat, i) && i + |pat| <= k
  {
    assert s[..k][i..i + |pat|] == s[i..i + |pat|];
  }

  lemma NoBlankInFront(line: string, hs: seq<Header>, k: nat)
    requires NoCrLf(line) && AllGood(hs) && k < |Message(line, hs)|
    ensures Find(Message(line, hs)[..k], BLANK) < 0
  {
    hide Message, OccursAt, NoCrLf, AllGood;
    var s := Message(line, hs);
    var i := Find(s[..k], BLANK);
    if i >= 0 {
      OccursInFront(s, BLANK, k, i);
      BlankAtEnd(line, hs, i);
      assert false;
    }
  }

  lemma FrontNoNul(s: string, k: nat)
    requires UpToNul(s) == s && k <= |s|
    ensures UpToNul(s[..k]) == s[..k]
  {
    UpToNulWhole(s[..k]);
  }

  /** So no proper prefix of a printed request is accepted: one that has come in part is refused. */
  lemma PrefixRefused(r: Request, k: nat)
    requires Good(r) && k < |Print(r)|
    ensures ParseRequest(Print(r)[..k]) == Refused
  {
    hide Message, ParseRequest, PrintLine, SplitLine, GoodLine, NoNul, NoCrLf, PrintHeaders, ReadHeaders, UpToNul, Find;
    LineRoundTrip(r.line);
    GoodHeadersRead(r.headers);
    MessageNoNul(PrintLine(r.line), r.headers);
    NoBlankInFront(PrintLine(r.line), r.headers, k);
    FrontNoNul(Print(r), k);
    IncompleteRefused(Print(r)[..k]);
  }

  // ---- a header line without a colon ---------------------------------------------------------------------

  lemma ColonMissing(text: string, hs: seq<Header>)
    requires text != "" && !AtCrLf(text) && Free(text, {':'})
    ensures ReadHeaders(text, hs) == NoColon(hs)
  {
    hide StrCSpn;
    CSpnStops(text, "", {':'});
    assert text + "" == text;
  }

  lemma {:induction false} PrintedThenMissing(hs: seq<Header>, acc: seq<Header>, text: string)
    requires AllGood(hs) && DistinctKeys(acc + hs)
    requires text != "" && !AtCrLf(text) && Free(text, {':'})
    ensures ReadHeaders(PrintHeaders(hs) + text, acc) == NoColon(acc + hs)
    decreases |hs|
  {
    if hs == [] {
      assert "" + text == text && acc + hs == acc;
      ColonMissing(text, acc);
    } else {
      var h, rest := hs[0], hs[1..];
      assert GoodHeader(h) && AllGood(rest);
      SetNew(acc, hs);
      hide AllGood, GoodHeader, SetHeader, ReadHeaders, PrintHeaders, HeaderLine, DistinctKeys, Free;
      PrintHeadersFront(hs);
      Grouped(HeaderLine(h), PrintHeaders(rest), text);
      HeaderLineReads(h, PrintHeaders(rest) + text, acc);
      PrintedThenMissing(rest, acc + [h], text);
    }
  }

  lemma MissingSteps(input: string, n: nat, line: Line, hs: seq<Header>)
    requires UpToNul(input) == input && 4 <= |input| <= 65535 && Find(input, BLANK) >= 0
    requires Find(input, CRLF) == n && n + 2 <= |input|
    requires SplitLine(input[..n]) == Accepted(line) && ReadHeaders(input[n + 2..], []) == NoColon(hs)
    ensures ParseRequest(input) == HeaderRefused(Request(line, hs))
  {
    hide UpToNul, Find, SplitLine, ReadHeaders, OccursAt;
  }

  lemma EndsBlank(front: string)
    ensures Find(front + BLANK, BLANK) >= 0
  {
    assert OccursAt(front + BLANK, BLANK, |front|);
  }

  lemma MissingNoNul(line: string, headers: string, junk: string)
    requires NoNul(line) && NoNul(headers) && NoNul(junk)
    ensures var s := line + CRLF + (headers + (junk + BLANK)); UpToNul(s) == s
  {
    var s := line + CRLF + (headers + (junk + BLANK));
    assert NoNul(junk + BLANK) && NoNul(headers + (junk + BLANK)) && NoNul(line + CRLF);
    UpToNulWhole(s);
  }

  lemma JunkShape(junk: string)
    requires junk != "" && NoCrLf(junk) && Free(junk, {':'})
    ensures var text := junk + BLANK; text != "" && !AtCrLf(text) && Free(text, {':'})
  {
    var text := junk + BLANK;
    assert text[0] == junk[0];
    assert |junk| > 1 ==> text[1] == junk[1];
    assert |junk| == 1 ==> text[1] == '\r';
  }

  lemma MissingShape(line: string, headers: string, junk: string)
    requires NoCrLf(line)
    ensures var tail := headers + (junk + BLANK);
            var s := line + CRLF + tail;
            && Find(s, CRLF) == |line| && |line| + 2 <= |s| && s[..|line|] == line && s[|line| + 2..] == tail
            && Find(s, BLANK) >= 0 && |s| >= 4
  {
    hide Find, NoCrLf;
    var tail, front := headers + (junk + BLANK), line + CRLF + (headers + junk);
    FindCrLf(line, tail);
    assert line + CRLF + tail == front + BLANK;
    EndsBlank(front);
  }

  lemma HeadersThenMissing(hs: seq<Header>, text: string)
    requires GoodHeaders(hs) && text != "" && !AtCrLf(text) && Free(text, {':'})
    ensures ReadHeaders(PrintHeaders(hs) + text, []) == NoColon(hs)
  {
    assert [] + hs == hs;
    PrintedThenMissing(hs, [], text);
  }

  /** Headers behind which a line has no colon: -1 is returned, while the request line and the headers
      before it stay in the object. */
  lemma ColonlessRefused(r: Request, junk: string)
    requires Good(r) && junk != "" && NoCrLf(junk) && NoNul(junk) && Free(junk, {':'})
    requires |PrintLine(r.line) + CRLF + (PrintHeaders(r.headers) + (junk + BLANK))| <= 65535
    ensures ParseRequest(PrintLine(r.line) + CRLF + (PrintHeaders(r.headers) + (junk + BLANK))) == HeaderRefused(r)
  {
    GoodParts(r);
    hide *;
    var line, headers := PrintLine(r.line), PrintHeaders(r.headers);
    LineRoundTrip(r.line);
    GoodHeadersRead(r.headers);
    MissingNoNul(line, headers, junk);
    MissingShape(line, headers, junk);
    JunkShape(junk);
    HeadersThenMissing(r.headers, junk + BLANK);
    MissingSteps(line + CRLF + (headers + (junk + BLANK)), |line|, r.line, r.headers);
  }

  lemma GoodParts(r: Request)
    requires Good(r)
    ensures GoodLine(r.line) && GoodHeaders(r.headers) && r == Request(r.line, r.headers)
  {
  }
}
