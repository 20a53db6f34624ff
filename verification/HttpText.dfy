/** Request texts: the tokens of the request line, the header lines, and the printed form. */
module HttpText {
  import opened CStrings

  const MIN_REQ_LEN: nat := 4
  const MAX_REQ_LEN: nat := 65535

  // ---- strtok_r on a C string -------------------------------------------------------------------

  /** One strtok_r call on string s: the token is s[start..end], the next call starts at next. */
  datatype Token = NoToken | Token(start: nat, end: nat, next: nat)

  function StrTok(s: string, delims: set<char>): (t: Token)
    ensures t.Token? ==> t.start < t.end <= t.next <= |s|
    ensures t.Token? ==> t.next == if t.end < |s| then t.end + 1 else t.end
    ensures t.Token? ==> Free(s[t.start..t.end], delims)
  {
    var start := StrSpn(s, delims);
    if start == |s| then NoToken
    else
      var end := start + StrCSpn(s[start..], delims);
      Token(start, end, if end < |s| then end + 1 else end)
  }

  function Text(s: string, t: Token): string
    requires t.Token? && t.start <= t.end <= |s|
  {
    s[t.start..t.end]
  }

  function Rest(s: string, t: Token): string
    requires t.Token? && t.next <= |s|
  {
    s[t.next..]
  }

  lemma TokStops(lead: string, a: string, b: string, delims: set<char>)
    requires forall i :: 0 <= i < |lead| ==> lead[i] in delims
    requires a != "" && Free(a, delims)
    requires b == "" || b[0] in delims
    ensures var s := lead + a + b;
            var t := StrTok(s, delims);
            && t == Token(|lead|, |lead| + |a|, |lead| + |a| + if b == "" then 0 else 1)
            && Text(s, t) == a && Rest(s, t) == if b == "" then "" else b[1..]
  {
    assert a[0] !in delims;
    hide StrSpn, StrCSpn, Free;
    LeadShape(lead, a, b);
    assert (a + b)[0] == a[0];
    SpnStops(lead, a + b, delims);
    CSpnStops(a, b, delims);
  }

  lemma LeadShape(lead: string, a: string, b: string)
    ensures var s := lead + a + b;
            && s == lead + (a + b) && s[|lead|..] == a + b && s[|lead|..|lead| + |a|] == a
            && s[|lead| + |a|..] == b && (b != "" ==> s[|lead| + |a| + 1..] == b[1..])
  {
  }

  /** The first token of a text that does not begin with a delimiter. */
  lemma TokFirst(a: string, b: string, delims: set<char>)
    requires a != "" && Free(a, delims) && b != "" && b[0] in delims
    ensures var t := StrTok(a + b, delims);
            t == Token(0, |a|, |a| + 1) && Text(a + b, t) == a && Rest(a + b, t) == b[1..]
  {
    hide StrTok, Free;
    assert "" + a + b == a + b;
    TokStops("", a, b, delims);
  }

  // ---- the request line ----------------------------------------------------------------------------

  datatype Line = Line(method_: string, protocol: string, host: string, port: Option<string>, path: string,
                       version: string)

  datatype LineRead = Rejected | OutOfBounds | Accepted(line: Line)

  const SPACE: set<char> := {' '}
  const COLON_SLASH: set<char> := {':', '/'}
  const COLON: set<char> := {':'}
  const SLASH: set<char> := {'/'}

  /** Memory from the address on, after strtok_r has cut off the protocol: the delimiters behind
      the address and the protocol are NUL now, and the version string follows. */
  function AddressMemory(addr: string, p: Token, version: string): string
    requires p.Token? && p.end <= |addr|
  {
    (if p.end < |addr| then addr[p.end := NUL] else addr) + [NUL] + version + [NUL]
  }

  /** strlen(full_addr + strlen(protocol) + 3), taken before the host is tokenised. */
  function RemLen(addr: string, p: Token, version: string): nat
    requires p.Token? && p.start <= p.end <= |addr| && |version| >= 5
  {
    |UpToNul(AddressMemory(addr, p, version)[p.end - p.start + 3..])|
  }

  function SplitLine(text: string): LineRead {
    var m := StrTok(text, SPACE);
    if m.NoToken? || Text(text, m) != "GET" then Rejected
    else
      var s := Rest(text, m);
      var a := StrTok(s, SPACE);
      if a.NoToken? then Rejected
      else if a.end == |s| then OutOfBounds
      else if |Rest(s, a)| < 5 || Rest(s, a)[..5] != "HTTP/" then Rejected
      else SplitAddress(Text(s, a), Rest(s, a))
  }

  function SplitAddress(addr: string, version: string): LineRead
    requires |version| >= 5
  {
    var p := StrTok(addr, COLON_SLASH);
    if p.NoToken? then Rejected
    else
      var s := Rest(addr, p);
      var h := StrTok(s, SLASH);
      if h.NoToken? || |Text(s, h)| == RemLen(addr, p, version) then Rejected
      else SplitTail(Text(addr, p), Text(s, h), Rest(s, h), version)
  }

  /** The path behind the host, then the port inside it. */
  function SplitTail(protocol: string, hostPort: string, tail: string, version: string): LineRead {
    var q := StrTok(tail, SPACE);
    if q.Token? && Text(tail, q)[0] == '/' then Rejected
    else
      var path := if q.NoToken? then "/" else "/" + Text(tail, q);
      var h := StrTok(hostPort, COLON);
      if h.NoToken? then Rejected
      else
        var s := Rest(hostPort, h);
        var o := StrTok(s, SLASH);
        var port := if o.NoToken? then None else Some(Text(s, o));
        Accepted(Line("GET", protocol, Text(hostPort, h), port, path, version))
  }

  function PortText(port: Option<string>): string {
    match port
    case None => ""
    case Some(p) => ":" + p
  }

  function Address(l: Line): string {
    l.protocol + "://" + (l.host + PortText(l.port)) + l.path
  }

  function PrintLine(l: Line): string {
    l.method_ + " " + Address(l) + " " + l.version
  }

  /** Clean: a field that cannot be confused with a delimiter of the text around it. */
  predicate Clean(s: string, delims: set<char>) {
    Free(s, delims) && NoNul(s) && NoCrLf(s)
  }

  predicate GoodPath(path: string) {
    path != "" && path[0] == '/' && Clean(path, SPACE) && (|path| > 1 ==> path[1] != '/')
  }

  predicate GoodLine(l: Line) {
    && l.method_ == "GET"
    && l.protocol != "" && Clean(l.protocol, {' ', ':', '/'})
    && l.host != "" && Clean(l.host, {' ', ':', '/'})
    && (l.port.Some? ==> l.port.value != "" && Clean(l.port.value, {' ', '/'}))
    && GoodPath(l.path)
    && |l.version| >= 5 && l.version[..5] == "HTTP/" && Clean(l.version, {})
  }

  lemma FreeMore(s: string, more: set<char>, less: set<char>)
    requires Free(s, more) && less <= more
    ensures Free(s, less)
  {
  }

  lemma FreeConcat(a: string, b: string, bad: set<char>)
    ensures Free(a + b, bad) <==> Free(a, bad) && Free(b, bad)
  {
    var s := a + b;
    assert forall i :: 0 <= i < |a| ==> s[i] == a[i];
    assert forall i :: 0 <= i < |b| ==> s[|a| + i] == b[i];
  }

  lemma FreeSlice(s: string, lo: nat, hi: nat, bad: set<char>)
    requires Free(s, bad) && lo <= hi <= |s|
    ensures Free(s[lo..hi], bad)
  {
  }

  // ---- parsing undoes printing: the request line ------------------------------------------------

  lemma HostPortSplits(l: Line, tail: string)
    requires GoodLine(l) && l.path == "/" + tail
    ensures SplitTail(l.protocol, l.host + PortText(l.port), tail, l.version) == Accepted(l)
  {
    hide StrTok, NoNul, NoCrLf;
    PathSplits(l.path, tail);
    FreeMore(l.host, {' ', ':', '/'}, COLON);
    var hostPort := l.host + PortText(l.port);
    assert hostPort == "" + l.host + PortText(l.port);
    TokStops("", l.host, PortText(l.port), COLON);
    PortSplits(l.port);
  }

  lemma PathSplits(path: string, tail: string)
    requires GoodPath(path) && path == "/" + tail
    ensures var q := StrTok(tail, SPACE);
            if tail == "" then q.NoToken? else q.Token? && Text(tail, q) == tail
  {
    if tail != "" {
      assert tail == path[1..];
      FreeSlice(path, 1, |path|, SPACE);
      assert "" + tail + "" == tail;
      TokStops("", tail, "", SPACE);
    }
  }

  lemma PortSplits(port: Option<string>)
    requires port.Some? ==> port.value != "" && Free(port.value, {' ', '/'})
    ensures var s := if port.Some? then port.value else "";
            var o := StrTok(s, SLASH);
            if port.Some? then o.Token? && Text(s, o) == port.value else o.NoToken?
  {
    if port.Some? {
      FreeMore(port.value, {' ', '/'}, SLASH);
      assert "" + port.value + "" == port.value;
      TokStops("", port.value, "", SLASH);
    }
  }

  lemma HostPortClean(l: Line)
    requires GoodLine(l)
    ensures var hp := l.host + PortText(l.port); hp != "" && Free(hp, {' ', '/'}) && NoNul(hp) && NoCrLf(hp)
  {
    FreeMore(l.host, {' ', ':', '/'}, {' ', '/'});
    if l.port.Some? {
      var p := l.port.value;
      FreeConcat(":", p, {' ', '/'});
      FreeConcat(l.host, ":" + p, {' ', '/'});
      assert NoNul(":" + p) && NoNul(l.host + (":" + p));
      NoCrLfConcat(":", p);
      NoCrLfConcat(l.host, ":" + p);
    } else {
      assert l.host + "" == l.host;
    }
  }

  /** The remainder measured before the host is cut is the host, port and path together. */
  lemma RemIsHostAndPath(protocol: string, hp: string, path: string, version: string)
    requires protocol != "" && NoNul(hp) && NoNul(path) && |version| >= 5
    ensures var addr := protocol + "://" + hp + path;
            RemLen(addr, Token(0, |protocol|, |protocol| + 1), version) == |hp| + |path|
  {
    hide StrCSpn, UpToNul;
    var addr := protocol + "://" + hp + path;
    var p := Token(0, |protocol|, |protocol| + 1);
    var rest := hp + path;
    assert AddressMemory(addr, p, version)[|protocol| + 3..] == rest + ([NUL] + version + [NUL]);
    assert NoNul(rest);
    UpToNulStops(rest, [NUL] + version + [NUL]);
  }

  lemma AddressSplits(l: Line)
    requires GoodLine(l)
    ensures SplitAddress(Address(l), l.version) == Accepted(l)
  {
    HostPortClean(l);
    var hp := l.host + PortText(l.port);
    FreeMore(l.protocol, {' ', ':', '/'}, COLON_SLASH);
    FreeMore(hp, {' ', '/'}, SLASH);
    var tail := l.path[1..];
    assert l.path == "/" + tail;
    hide StrTok, RemLen, SplitTail, GoodLine, PortText, NoCrLf;
    AddressTokens(l.protocol, hp, l.path, l.version);
    RemIsHostAndPath(l.protocol, hp, l.path, l.version);
    HostPortSplits(l, tail);
  }

  lemma AddressTokens(protocol: string, hp: string, path: string, version: string)
    requires protocol != "" && Free(protocol, COLON_SLASH) && hp != "" && Free(hp, SLASH)
    requires path != "" && path[0] == '/'
    ensures var addr := protocol + "://" + hp + path;
            var p := StrTok(addr, COLON_SLASH);
            && p == Token(0, |protocol|, |protocol| + 1) && Text(addr, p) == protocol
            && var s := Rest(addr, p);
               var h := StrTok(s, SLASH);
               h.Token? && Text(s, h) == hp && Rest(s, h) == path[1..]
  {
    hide StrTok, Free, Text, Rest;
    AddressShape(protocol, hp, path);
    TokFirst(protocol, "://" + hp + path, COLON_SLASH);
    SlashesFirst(hp, path);
  }

  lemma AddressShape(protocol: string, hp: string, path: string)
    ensures protocol + "://" + hp + path == protocol + ("://" + hp + path)
    ensures ("://" + hp + path)[1..] == "//" + hp + path
  {
  }

  lemma SlashesFirst(hp: string, path: string)
    requires hp != "" && Free(hp, SLASH) && path != "" && path[0] == '/'
    ensures var h := StrTok("//" + hp + path, SLASH);
            h.Token? && Text("//" + hp + path, h) == hp && Rest("//" + hp + path, h) == path[1..]
  {
    hide StrTok, Free;
    TokStops("//", hp, path, SLASH);
  }

  lemma AddressClean(l: Line)
    requires GoodLine(l)
    ensures Address(l) != "" && Free(Address(l), SPACE) && NoNul(Address(l)) && NoCrLf(Address(l))
  {
    HostPortClean(l);
    var hp := l.host + PortText(l.port);
    FreeMore(l.protocol, {' ', ':', '/'}, SPACE);
    FreeMore(hp, {' ', '/'}, SPACE);
    hide PortText;
    var a := l.protocol + "://";
    FreeConcat(l.protocol, "://", SPACE);
    FreeConcat(a, hp, SPACE);
    FreeConcat(a + hp, l.path, SPACE);
    NoCrLfConcat(l.protocol, "://");
    NoCrLfConcat(a, hp);
    NoCrLfConcat(a + hp, l.path);
  }

  lemma TextClean(addr: string, version: string)
    requires NoNul(addr) && NoCrLf(addr) && NoNul(version) && NoCrLf(version)
    ensures var text := "GET" + " " + addr + " " + version; NoNul(text) && NoCrLf(text)
  {
    NoCrLfConcat("GET ", addr);
    NoCrLfConcat("GET " + addr, " ");
    NoCrLfConcat("GET " + addr + " ", version);
    assert "GET" + " " + addr + " " + version == "GET " + addr + " " + version;
  }

  lemma SplitsFrom(addr: string, version: string)
    requires addr != "" && Free(addr, SPACE) && |version| >= 5 && version[..5] == "HTTP/"
    ensures SplitLine("GET" + " " + addr + " " + version) == SplitAddress(addr, version)
  {
    hide StrTok, SplitAddress;
    LineTokens(addr, version);
  }

  /** Parsing the printed request line gives back every field. */
  lemma LineRoundTrip(l: Line)
    requires GoodLine(l)
    ensures SplitLine(PrintLine(l)) == Accepted(l)
    ensures NoNul(PrintLine(l)) && NoCrLf(PrintLine(l))
  {
    hide Address, SplitAddress, SplitLine, GoodPath, NoNul, NoCrLf, Free;
    AddressClean(l);
    AddressSplits(l);
    SplitsFrom(Address(l), l.version);
    TextClean(Address(l), l.version);
  }

  lemma LineShape(addr: string, version: string)
    ensures "GET" + " " + addr + " " + version == "GET" + (" " + addr + " " + version)
    ensures (" " + addr + " " + version)[1..] == addr + (" " + version)
    ensures (" " + version)[1..] == version
  {
  }

  lemma LineTokens(addr: string, version: string)
    requires addr != "" && Free(addr, SPACE) && version != ""
    ensures var text := "GET" + " " + addr + " " + version;
            var m := StrTok(text, SPACE);
            && m.Token? && Text(text, m) == "GET"
            && var s := Rest(text, m);
               var a := StrTok(s, SPACE);
               a.Token? && a.end < |s| && Text(s, a) == addr && Rest(s, a) == version
  {
    assert Free("GET", SPACE);
    hide StrTok, Text, Rest, Free;
    LineShape(addr, version);
    TokFirst("GET", " " + addr + " " + version, SPACE);
    TokFirst(addr, " " + version, SPACE);
  }

  // ---- what the tokeniser accepts is good --------------------------------------------------------

  lemma CleanSlice(s: string, lo: nat, hi: nat)
    requires NoNul(s) && NoCrLf(s) && lo <= hi <= |s|
    ensures NoNul(s[lo..hi]) && NoCrLf(s[lo..hi])
  {
  }

  lemma TokenClean(s: string, delims: set<char>)
    requires NoNul(s) && NoCrLf(s)
    ensures var t := StrTok(s, delims);
            t.Token? ==> Text(s, t) != "" && Free(Text(s, t), delims) && NoNul(Text(s, t)) && NoCrLf(Text(s, t))
                         && NoNul(Rest(s, t)) && NoCrLf(Rest(s, t))
  {
    var t := StrTok(s, delims);
    if t.Token? {
      CleanSlice(s, t.start, t.end);
      CleanSlice(s, t.next, |s|);
      assert s[t.next..|s|] == s[t.next..];
    }
  }

  /** Tokens and rests of a text free of some characters are free of them. */
  lemma TokenFree(s: string, delims: set<char>, bad: set<char>)
    requires Free(s, bad)
    ensures var t := StrTok(s, delims); t.Token? ==> Free(Text(s, t), bad + delims) && Free(Rest(s, t), bad)
  {
    var t := StrTok(s, delims);
    if t.Token? {
      FreeSlice(s, t.start, t.end, bad);
      FreeSlice(s, t.next, |s|, bad);
      assert s[t.next..|s|] == s[t.next..];
    }
  }

  lemma SplitTailGood(protocol: string, hostPort: string, tail: string, version: string)
    requires protocol != "" && Clean(protocol, {' ', ':', '/'})
    requires Clean(hostPort, {' ', '/'}) && Clean(tail, SPACE)
    requires |version| >= 5 && version[..5] == "HTTP/" && Clean(version, {})
    ensures var r := SplitTail(protocol, hostPort, tail, version); r.Accepted? ==> GoodLine(r.line)
  {
    var r := SplitTail(protocol, hostPort, tail, version);
    if r.Accepted? {
      TailPath(tail);
      TokenClean(hostPort, COLON);
      TokenFree(hostPort, COLON, {' ', '/'});
      assert {' ', '/'} + COLON == {' ', ':', '/'};
      var s := Rest(hostPort, StrTok(hostPort, COLON));
      TokenClean(s, SLASH);
      TokenFree(s, SLASH, {' ', '/'});
      assert {' ', '/'} + SLASH == {' ', '/'};
      hide StrTok, GoodPath;
    }
  }

  lemma TailPath(tail: string)
    requires Clean(tail, SPACE)
    ensures var q := StrTok(tail, SPACE);
            (q.Token? ==> Text(tail, q)[0] != '/') ==> GoodPath(if q.NoToken? then "/" else "/" + Text(tail, q))
  {
    var q := StrTok(tail, SPACE);
    if q.Token? {
      TokenClean(tail, SPACE);
      FreeConcat("/", Text(tail, q), SPACE);
      NoCrLfConcat("/", Text(tail, q));
      assert NoNul("/" + Text(tail, q));
    }
  }

  lemma SplitAddressGood(addr: string, version: string)
    requires Clean(addr, SPACE)
    requires |version| >= 5 && version[..5] == "HTTP/" && Clean(version, {})
    ensures var r := SplitAddress(addr, version); r.Accepted? ==> GoodLine(r.line)
  {
    TokenClean(addr, COLON_SLASH);
    TokenFree(addr, COLON_SLASH, SPACE);
    assert SPACE + COLON_SLASH == {' ', ':', '/'} && SPACE + SLASH == {' ', '/'};
    var p := StrTok(addr, COLON_SLASH);
    if p.Token? {
      var s := Rest(addr, p);
      TokenClean(s, SLASH);
      TokenFree(s, SLASH, SPACE);
      var h := StrTok(s, SLASH);
      if h.Token? {
        hide StrTok, GoodLine, RemLen;
        SplitTailGood(Text(addr, p), Text(s, h), Rest(s, h), version);
      }
    }
  }

  /** Every accepted request line, however irregular, is parsed into good fields. */
  lemma AcceptedLineGood(text: string)
    requires NoNul(text) && NoCrLf(text)
    ensures SplitLine(text).Accepted? ==> GoodLine(SplitLine(text).line)
  {
    TokenClean(text, SPACE);
    var m := StrTok(text, SPACE);
    if m.Token? {
      var s := Rest(text, m);
      TokenClean(s, SPACE);
      var a := StrTok(s, SPACE);
      if a.Token? {
        hide StrTok, GoodLine, SplitAddress;
        if |Rest(s, a)| >= 5 && Rest(s, a)[..5] == "HTTP/" {
          SplitAddressGood(Text(s, a), Rest(s, a));
        }
      }
    }
  }
}
