/** Whole requests: parsing undoes printing, and printing what was parsed is a normal form. */
module HttpRequest {
  import opened CStrings
  import opened HeaderTable
  import opened HttpText
  import opened HttpMessage
  import opened HttpNormal
  import opened HttpReread

  /** Refused: -1 and no request.  HeaderRefused: -1, but the request line and the headers read so
      far stay in the object.  Undefined: a pointer leaves the buffer. */
  datatype ParseResult = Refused | Undefined | HeaderRefused(request: Request) | Parsed(request: Request)

  function Message(line: string, hs: seq<Header>): string {
    line + CRLF + (PrintHeaders(hs) + CRLF)
  }

  function Print(r: Request): string {
    Message(PrintLine(r.line), r.headers)
  }

  predicate Good(r: Request) {
    GoodLine(r.line) && GoodHeaders(r.headers)
  }

  lemma BlankHasCrLf(text: string)
    requires Find(text, BLANK) >= 0
    ensures Find(text, CRLF) >= 0
  {
    var i := Find(text, BLANK);
    assert text[i..i + 4][0] == text[i] && text[i..i + 4][1] == text[i + 1];
    CrLfOccurs(text, i);
  }

  function ParseText(text: string): ParseResult {
    if Find(text, BLANK) < 0 then Refused
    else
      BlankHasCrLf(text);
      var n := Find(text, CRLF);
      match SplitLine(text[..n])
      case Rejected => Refused
      case OutOfBounds => Undefined
      case Accepted(line) =>
        match ReadHeaders(text[n + 2..], [])
        case PastEnd => Undefined
        case NoColon(hs) => HeaderRefused(Request(line, hs))
        case Headers(hs) => Parsed(Request(line, hs))
  }

  function ParseRequest(input: string): ParseResult {
    if |input| < MIN_REQ_LEN || |input| > MAX_REQ_LEN then Refused else ParseText(UpToNul(input))
  }

  // ---- the printed form --------------------------------------------------------------------------

  lemma {:induction false} PrintHeadersSplit(a: seq<Header>, b: seq<Header>)
    ensures PrintHeaders(a + b) == PrintHeaders(a) + PrintHeaders(b)
  {
    hide HeaderLine;
    if b == [] {
      assert a + b == a && PrintHeaders(a) + "" == PrintHeaders(a);
    } else {
      var init, last := b[..|b| - 1], b[|b| - 1];
      PrintHeadersSplit(a, init);
      assert (a + b)[..|a + b| - 1] == a + init;
      Grouped(PrintHeaders(a), PrintHeaders(init), HeaderLine(last));
    }
  }

  lemma HeaderLineIs(h: Header)
    ensures HeaderLine(h) == h.key + ": " + h.value + "\r\n"
  {
  }

  /** The text of header k stands behind those of the headers before it: key, colon, blank, value, CRLF. */
  lemma PrintHeadersAt(hs: seq<Header>, k: nat)
    requires k < |hs|
    ensures PrintHeaders(hs) ==
            PrintHeaders(hs[..k]) + (hs[k].key + ": " + hs[k].value + "\r\n") + PrintHeaders(hs[k + 1..])
    ensures PrintHeaders([]) == ""
  {
    NothingPrinted();
    hide *;
    AtPlace(hs, k);
    PrintHeadersFront(hs[k..]);
    PrintHeadersSplit(hs[..k], hs[k..]);
    HeaderLineIs(hs[k]);
    Grouped(PrintHeaders(hs[..k]), HeaderLine(hs[k]), PrintHeaders(hs[k + 1..]));
  }

  lemma NothingPrinted()
    ensures PrintHeaders([]) == ""
  {
  }

  /** The request line in the absolute form, CRLF, the header lines, CRLF. */
  lemma PrintedForm(r: Request)
    ensures r.line.port == None ==>
              Print(r) == r.line.method_ + " " + r.line.protocol + "://" + r.line.host + r.line.path + " "
                          + r.line.version + "\r\n" + PrintHeaders(r.headers) + "\r\n"
    ensures r.line.port.Some? ==>
              Print(r) == r.line.method_ + " " + r.line.protocol + "://" + r.line.host + ":" + r.line.port.value
                          + r.line.path + " " + r.line.version + "\r\n" + PrintHeaders(r.headers) + "\r\n"
  {
    hide PrintHeaders;
  }

  // ---- parsing undoes printing -------------------------------------------------------------------

  lemma {:induction false} PrintHeadersNoNul(hs: seq<Header>)
    requires AllGood(hs)
    ensures NoNul(PrintHeaders(hs))
  {
    if hs != [] {
      PrintHeadersNoNul(hs[..|hs| - 1]);
      HeaderBodyClean(hs[|hs| - 1]);
    }
  }

  lemma MessageEndsBlank(line: string, hs: seq<Header>)
    ensures |Message(line, hs)| >= MIN_REQ_LEN && OccursAt(Message(line, hs), BLANK, |Message(line, hs)| - 4)
  {
    if hs != [] {
      var h := hs[|hs| - 1];
      hide PrintHeaders;
    }
  }

  lemma PartsNoNul(a: string, b: string)
    requires NoNul(a) && NoNul(b)
    ensures NoNul(a + CRLF + (b + CRLF))
  {
    var s := a + CRLF + (b + CRLF);
    assert forall i :: 0 <= i < |a| ==> s[i] == a[i];
    assert forall i :: 0 <= i < |b| ==> s[|a| + 2 + i] == b[i];
  }

  lemma UpToNulWhole(s: string)
    requires NoNul(s)
    ensures UpToNul(s) == s
  {
    assert s + "" == s;
    UpToNulStops(s, "");
  }

  lemma MessageNoNul(line: string, hs: seq<Header>)
    requires NoNul(line) && NoNul(PrintHeaders(hs))
    ensures UpToNul(Message(line, hs)) == Message(line, hs)
  {
    hide PrintHeaders, NoNul, UpToNul;
    PartsNoNul(line, PrintHeaders(hs));
    UpToNulWhole(Message(line, hs));
  }

  lemma MessageLine(line: string, hs: seq<Header>)
    requires NoCrLf(line)
    ensures var s, n := Message(line, hs), |line|;
            Find(s, CRLF) == n && n + 2 <= |s| && s[..n] == line && s[n + 2..] == PrintHeaders(hs) + CRLF
  {
    hide PrintHeaders, Find, NoCrLf;
    FindCrLf(line, PrintHeaders(hs) + CRLF);
  }

  lemma MessageIsWhole(line: string, hs: seq<Header>)
    ensures |Message(line, hs)| >= MIN_REQ_LEN && Find(Message(line, hs), BLANK) >= 0
  {
    MessageEndsBlank(line, hs);
    hide Message, Find;
  }

  lemma ParseSteps(text: string, n: nat, r: Request)
    requires UpToNul(text) == text && |text| >= MIN_REQ_LEN && Find(text, BLANK) >= 0
    requires Find(text, CRLF) == n && n + 2 <= |text|
    requires SplitLine(text[..n]) == Accepted(r.line) && ReadHeaders(text[n + 2..], []) == Headers(r.headers)
    ensures ParseRequest(text) == if |text| <= MAX_REQ_LEN then Parsed(r) else Refused
  {
    hide UpToNul, Find, SplitLine, ReadHeaders, OccursAt;
  }

  lemma MessageParses(line: string, r: Request)
    requires NoNul(line) && NoCrLf(line) && SplitLine(line) == Accepted(r.line)
    requires NoNul(PrintHeaders(r.headers)) && ReadHeaders(PrintHeaders(r.headers) + CRLF, []) == Headers(r.headers)
    ensures var text := Message(line, r.headers);
            ParseRequest(text) == if |text| <= MAX_REQ_LEN then Parsed(r) else Refused
  {
    hide *;
    var hs := r.headers;
    MessageNoNul(line, hs);
    MessageLine(line, hs);
    MessageIsWhole(line, hs);
    ParseSteps(Message(line, hs), |line|, r);
  }

  lemma GoodHeadersRead(hs: seq<Header>)
    requires GoodHeaders(hs)
    ensures NoNul(PrintHeaders(hs)) && ReadHeaders(PrintHeaders(hs) + CRLF, []) == Headers(hs)
  {
    assert [] + hs == hs;
    PrintHeadersNoNul(hs);
    PrintedHeadersRead(hs, []);
  }

  /** Every good request that fits the size limit is parsed back exactly from its printed form;
      one that does not fit is refused. */
  lemma RoundTrip(r: Request)
    requires Good(r)
    ensures ParseRequest(Print(r)) == if |Print(r)| <= MAX_REQ_LEN then Parsed(r) else Refused
  {
    hide Message, ParseRequest, PrintLine, SplitLine, GoodLine, GoodHeaders, NoNul, NoCrLf, PrintHeaders, ReadHeaders;
    LineRoundTrip(r.line);
    GoodHeadersRead(r.headers);
    MessageParses(PrintLine(r.line), r);
  }

  // ---- printing what was parsed is a normal form ---------------------------------------------------

  function HeaderText(input: string): string {
    var text := UpToNul(input);
    var n := Find(text, CRLF);
    if n < 0 then "" else text[n + 2..]
  }

  lemma TextParts(text: string)
    requires NoNul(text) && Find(text, CRLF) >= 0
    ensures var n := Find(text, CRLF);
            && n + 2 <= |text| && NoNul(text[..n]) && NoCrLf(text[..n]) && NoNul(text[n + 2..])
  {
    hide Find, NoCrLf;
    BeforeFirstCrLf(text);
  }

  lemma PartsGood(text: string, n: nat)
    requires n + 2 <= |text| && NoNul(text[..n]) && NoCrLf(text[..n]) && NoNul(text[n + 2..])
    requires SplitLine(text[..n]).Accepted?
    requires ReadHeaders(text[n + 2..], []).Headers? && ColonOnEveryLine(text[n + 2..])
    ensures Good(Request(SplitLine(text[..n]).line, ReadHeaders(text[n + 2..], []).headers))
  {
    hide SplitLine, GoodLine, NoCrLf, ColonOnEveryLine, ReadHeaders, NoNul, GoodHeader;
    AcceptedLineGood(text[..n]);
    ColonLinesRead(text[n + 2..], []);
  }

  lemma AcceptedIsGood(input: string)
    requires ParseRequest(input).Parsed? && ColonOnEveryLine(HeaderText(input))
    ensures Good(ParseRequest(input).request)
  {
    hide Find, UpToNul, SplitLine, Good, NoCrLf, ColonOnEveryLine, ReadHeaders, NoNul, OccursAt;
    var text := UpToNul(input);
    BlankHasCrLf(text);
    TextParts(text);
    PartsGood(text, Find(text, CRLF));
  }

  lemma NothingSettled()
    ensures Settled([], {})
  {
  }

  lemma PartsNormal(text: string, n: nat)
    requires n + 2 <= |text| && NoNul(text[..n]) && NoCrLf(text[..n]) && NoNul(text[n + 2..])
    requires SplitLine(text[..n]).Accepted? && ReadHeaders(text[n + 2..], []).Headers?
    ensures GoodLine(SplitLine(text[..n]).line) && Normal(ReadHeaders(text[n + 2..], []).headers)
  {
    hide SplitLine, GoodLine, NoCrLf, ReadHeaders, NoNul, Settled, Normal;
    AcceptedLineGood(text[..n]);
    NothingSettled();
    ParsedIsNormal(text[n + 2..], []);
  }

  lemma AcceptedIsNormal(input: string)
    requires ParseRequest(input).Parsed?
    ensures GoodLine(ParseRequest(input).request.line) && Normal(ParseRequest(input).request.headers)
  {
    hide Find, UpToNul, SplitLine, GoodLine, NoCrLf, ReadHeaders, NoNul, OccursAt, Normal;
    var text := UpToNul(input);
    BlankHasCrLf(text);
    TextParts(text);
    PartsNormal(text, Find(text, CRLF));
  }

  /** Extra slashes, an empty path or port, repeated headers and keys that span lines are rewritten
      once: for every accepted input, the printed form parses to the same request exactly when it
      fits the size limit, and is refused otherwise. */
  lemma Normaliser(input: string)
    requires ParseRequest(input).Parsed?
    ensures var r := ParseRequest(input).request;
            && (ParseRequest(Print(r)) == Parsed(r) <==> |Print(r)| <= MAX_REQ_LEN)
            && (|Print(r)| > MAX_REQ_LEN ==> ParseRequest(Print(r)) == Refused)
  {
    AcceptedIsNormal(input);
    hide ParseRequest, Message, PrintLine, SplitLine, GoodLine, Normal, NoNul, NoCrLf, PrintHeaders, ReadHeaders;
    var r := ParseRequest(input).request;
    LineRoundTrip(r.line);
    NormalRoundTrip(r.headers);
    MessageParses(PrintLine(r.line), r);
  }

  // ---- why the size limit appears ------------------------------------------------------------------

  function ShortAddress(l: Line): string {
    l.protocol + ":" + (l.host + PortText(l.port)) + l.path
  }

  lemma ShortTokens(protocol: string, hp: string, path: string)
    requires protocol != "" && Free(protocol, COLON_SLASH) && hp != "" && Free(hp, SLASH)
    requires path != "" && path[0] == '/'
    ensures var addr := protocol + ":" + hp + path;
            var p := StrTok(addr, COLON_SLASH);
            && p == Token(0, |protocol|, |protocol| + 1) && Text(addr, p) == protocol
            && var s := Rest(addr, p);
               var h := StrTok(s, SLASH);
               h.Token? && Text(s, h) == hp && Rest(s, h) == path[1..]
  {
    hide StrTok, Free;
    ShortShape(protocol, hp, path);
    TokFirst(protocol, ":" + hp + path, COLON_SLASH);
    TokFirst(hp, path, SLASH);
  }

  lemma ShortShape(protocol: string, hp: string, path: string)
    ensures protocol + ":" + hp + path == protocol + (":" + hp + path)
    ensures (":" + hp + path)[1..] == hp + path
  {
  }

  lemma ShortRem(protocol: string, hp: string, path: string, version: string)
    requires protocol != "" && NoNul(hp) && NoNul(path) && hp != "" && path != "" && |version| >= 5
    ensures var addr := protocol + ":" + hp + path;
            RemLen(addr, Token(0, |protocol|, |protocol| + 1), version) == |hp| + |path| - 2
  {
    hide StrCSpn, UpToNul;
    var p := Token(0, |protocol|, |protocol| + 1);
    var rest, tail := hp + path, [NUL] + version + [NUL];
    assert AddressMemory(protocol + ":" + hp + path, p, version)[|protocol| + 3..] == rest[2..] + tail;
    assert NoNul(rest);
    UpToNulStops(rest[2..], tail);
  }

  /** One delimiter between protocol and host does as well as three, and the parsed request is the
      same; but the check for a missing path counts three, so a path of two characters is refused. */
  lemma ShortAddressSplits(l: Line)
    requires GoodLine(l)
    ensures SplitAddress(ShortAddress(l), l.version) == if |l.path| == 2 then Rejected else Accepted(l)
  {
    HostPortClean(l);
    var hp := l.host + PortText(l.port);
    FreeMore(l.protocol, {' ', ':', '/'}, COLON_SLASH);
    FreeMore(hp, {' ', '/'}, SLASH);
    assert l.path == "/" + l.path[1..];
    hide StrTok, RemLen, SplitTail, GoodLine, PortText, NoCrLf;
    ShortTokens(l.protocol, hp, l.path);
    ShortRem(l.protocol, hp, l.path, l.version);
    HostPortSplits(l, l.path[1..]);
  }

  lemma ShortClean(l: Line)
    requires GoodLine(l)
    ensures var a := ShortAddress(l); a != "" && Free(a, SPACE) && NoNul(a) && NoCrLf(a)
  {
    HostPortClean(l);
    var hp := l.host + PortText(l.port);
    FreeMore(l.protocol, {' ', ':', '/'}, SPACE);
    FreeMore(hp, {' ', '/'}, SPACE);
    hide PortText;
    var a := l.protocol + ":";
    FreeConcat(l.protocol, ":", SPACE);
    FreeConcat(a, hp, SPACE);
    FreeConcat(a + hp, l.path, SPACE);
    NoCrLfConcat(l.protocol, ":");
    NoCrLfConcat(a, hp);
    NoCrLfConcat(a + hp, l.path);
  }

  function ShortPrint(r: Request): string {
    Message("GET" + " " + ShortAddress(r.line) + " " + r.line.version, r.headers)
  }

  /** The same request in two characters less than its printed form. */
  lemma ShortFormParses(r: Request)
    requires Good(r) && |r.line.path| != 2 && |Print(r)| <= MAX_REQ_LEN + 2
    ensures ParseRequest(ShortPrint(r)) == Parsed(r)
  {
    var l := r.line;
    var line := "GET" + " " + ShortAddress(l) + " " + l.version;
    assert |ShortPrint(r)| == |Print(r)| - 2;
    ShortAddressSplits(l);
    ShortClean(l);
    hide Message, ParseRequest, SplitLine, SplitAddress, ShortAddress, GoodHeaders, NoNul, NoCrLf, Free;
    SplitsFrom(ShortAddress(l), l.version);
    TextClean(ShortAddress(l), l.version);
    GoodHeadersRead(r.headers);
    hide ReadHeaders, PrintHeaders;
    MessageParses(line, r);
  }

  /** So printing can push an accepted request over the size limit, after which it is refused. */
  lemma PrintingCanOverflow(path: string)
    requires path == "/" + seq(65510, i => 'x')
    ensures var r := Request(Line("GET", "http", "h", None, path, "HTTP/1.1"), []);
            ParseRequest(ShortPrint(r)) == Parsed(r) && ParseRequest(Print(r)) == Refused
  {
    var r := Request(Line("GET", "http", "h", None, path, "HTTP/1.1"), []);
    assert Good(r);
    assert |Print(r)| == MAX_REQ_LEN + 1;
    hide *;
    ShortFormParses(r);
    RoundTrip(r);
  }
}
