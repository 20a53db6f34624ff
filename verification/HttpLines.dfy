/** Request lines as they come in, with any number of blanks and slashes: which are accepted, with which
    fields, and which are refused. */
module HttpLines {
  import opened CStrings
  import opened HttpText

  // ---- tokens ------------------------------------------------------------------------------------------

  predicate All(s: string, cs: set<char>) {
    forall i :: 0 <= i < |s| ==> s[i] in cs
  }

  lemma NoTok(s: string, delims: set<char>)
    ensures All(s, delims) <==> StrTok(s, delims).NoToken?
  {
    if All(s, delims) {
      assert s + "" == s;
      SpnStops(s, "", delims);
    } else {
      var i :| 0 <= i < |s| && s[i] !in delims;
      assert StrSpn(s, delims) <= i;
    }
  }

  lemma TokAt(s: string, lead: string, a: string, b: string, delims: set<char>)
    requires s == lead + a + b && All(lead, delims) && a != "" && Free(a, delims) && (b == "" || b[0] in delims)
    ensures var t := StrTok(s, delims);
            && t.Token? && Text(s, t) == a && Rest(s, t) == (if b == "" then "" else b[1..])
            && t.start == |lead| && t.end == |lead| + |a|
  {
    hide StrTok, Text, Rest, Free;
    TokStops(lead, a, b, delims);
  }

  // ---- method, address and version ------------------------------------------------------------------------

  /** A line without any word, or whose first word is not GET, is refused. */
  lemma OtherMethodRefused(lead: string, word: string, rest: string)
    requires All(lead, SPACE) && Free(word, SPACE) && word != "GET" && (rest == "" || rest[0] == ' ')
    requires word == "" ==> rest == ""
    ensures SplitLine(lead + word + rest) == Rejected
  {
    hide StrTok, Free;
    if word == "" {
      assert lead + word + rest == lead;
      NoTok(lead, SPACE);
    } else {
      TokStops(lead, word, rest, SPACE);
    }
  }

  /** A line of GET alone is refused. */
  lemma NoAddressRefused(lead: string, gap: string)
    requires All(lead, SPACE) && All(gap, SPACE)
    ensures SplitLine(lead + "GET" + gap) == Rejected
  {
    assert Free("GET", SPACE);
    var s := if gap == "" then "" else gap[1..];
    assert All(s, SPACE);
    hide StrTok, Free, All;
    AllBlank(gap);
    TokStops(lead, "GET", gap, SPACE);
    NoTok(s, SPACE);
  }

  lemma AllBlank(gap: string)
    requires All(gap, SPACE)
    ensures gap == "" || gap[0] in SPACE
  {
  }

  lemma LooseShape(gap: string, addr: string, version: string)
    requires gap != "" && All(gap, SPACE)
    ensures var behind := gap + addr + " " + version;
            && behind != "" && behind[0] == ' ' && behind[1..] == gap[1..] + addr + (" " + version)
            && All(gap[1..], SPACE) && (" " + version)[1..] == version && |gap[1..]| + |addr| < |behind[1..]|
  {
    var behind := gap + addr + " " + version;
    assert behind[0] == gap[0];
  }

  lemma LooseSteps(text: string, s: string, addr: string, version: string)
    requires var m := StrTok(text, SPACE); m.Token? && Text(text, m) == "GET" && Rest(text, m) == s
    requires var a := StrTok(s, SPACE); a.Token? && a.end < |s| && Text(s, a) == addr && Rest(s, a) == version
    ensures SplitLine(text) ==
            if |version| < 5 || version[..5] != "HTTP/" then Rejected else SplitAddress(addr, version)
  {
    hide StrTok, SplitAddress, Text, Rest;
  }

  /** Blanks in front of the method and between method and address do not matter; what follows the one
      blank behind the address is the version, which has to begin with HTTP/. */
  lemma LooseLine(lead: string, gap: string, addr: string, version: string)
    requires All(lead, SPACE) && gap != "" && All(gap, SPACE) && addr != "" && Free(addr, SPACE)
    ensures SplitLine(lead + "GET" + (gap + addr + " " + version)) ==
            if |version| < 5 || version[..5] != "HTTP/" then Rejected else SplitAddress(addr, version)
  {
    assert Free("GET", SPACE);
    hide *;
    var behind := gap + addr + " " + version;
    LooseShape(gap, addr, version);
    TokAt(lead + "GET" + behind, lead, "GET", behind, SPACE);
    TokAt(behind[1..], gap[1..], addr, " " + version, SPACE);
    LooseSteps(lead + "GET" + behind, behind[1..], addr, version);
  }

  // ---- the address ----------------------------------------------------------------------------------------

  /** An address that is all slashes and colons, or has only those behind its protocol, is refused. */
  lemma NoHostRefused(lead: string, protocol: string, tail: string, version: string)
    requires All(lead, COLON_SLASH) && Free(protocol, COLON_SLASH) && |version| >= 5
    requires tail == "" || (tail[0] in COLON_SLASH && All(tail[1..], SLASH))
    requires protocol == "" ==> tail == ""
    ensures SplitAddress(lead + protocol + tail, version) == Rejected
  {
    hide StrTok, RemLen, Free, All, SplitTail;
    if protocol == "" {
      assert lead + protocol + tail == lead;
      NoTok(lead, COLON_SLASH);
    } else {
      TokAt(lead + protocol + tail, lead, protocol, tail, COLON_SLASH);
      var s := if tail == "" then "" else tail[1..];
      NoSlashes();
      NoTok(s, SLASH);
    }
  }

  lemma NoSlashes()
    ensures All("", SLASH)
  {
  }

  lemma NoPathSteps(addr: string, p: Token, hostPort: string, version: string)
    requires |version| >= 5 && p.Token? && p.start <= p.end <= |addr| && p.next <= |addr|
    requires StrTok(addr, COLON_SLASH) == p
    requires var h := StrTok(Rest(addr, p), SLASH); h.Token? && Text(Rest(addr, p), h) == hostPort
    requires RemLen(addr, p, version) == |hostPort|
    ensures SplitAddress(addr, version) == Rejected
  {
    hide StrTok, RemLen, SplitTail, Text, Rest;
  }

  lemma NoPathTokens(protocol: string, hostPort: string)
    requires protocol != "" && Free(protocol, COLON_SLASH) && hostPort != "" && Free(hostPort, SLASH)
    ensures var addr := protocol + "://" + hostPort;
            var p := Token(0, |protocol|, |protocol| + 1);
            && StrTok(addr, COLON_SLASH) == p
            && var h := StrTok(Rest(addr, p), SLASH);
               h.Token? && Text(Rest(addr, p), h) == hostPort
  {
    hide StrTok, Free;
    var addr, tail := protocol + "://" + hostPort, "://" + hostPort;
    assert addr == "" + protocol + tail && addr[|protocol| + 1..] == "//" + hostPort + "";
    TokStops("", protocol, tail, COLON_SLASH);
    TokStops("//", hostPort, "", SLASH);
  }

  /** protocol://host without a slash behind it is refused, for want of a path. */
  lemma NoPathRefused(protocol: string, hostPort: string, version: string)
    requires protocol != "" && Free(protocol, COLON_SLASH) && hostPort != "" && Free(hostPort, SLASH) && NoNul(hostPort)
    requires |version| >= 5
    ensures SplitAddress(protocol + "://" + hostPort, version) == Rejected
  {
    hide StrTok, RemLen, Free, SplitAddress, NoNul, Text, Rest;
    NoPathTokens(protocol, hostPort);
    var addr := protocol + "://" + hostPort;
    assert addr + "" == addr;
    NothingIsClean();
    RemIsHostAndPath(protocol, hostPort, "", version);
    NoPathSteps(addr, Token(0, |protocol|, |protocol| + 1), hostPort, version);
  }

  lemma NothingIsClean()
    ensures NoNul("")
  {
  }

  lemma LooseTokens(lead: string, protocol: string, d: char, slashes: string, hostPort: string, tail: string)
    requires All(lead, COLON_SLASH) && protocol != "" && Free(protocol, COLON_SLASH) && d in COLON_SLASH
    requires All(slashes, SLASH) && hostPort != "" && Free(hostPort, SLASH)
    ensures var addr := lead + protocol + ([d] + (slashes + hostPort + "/" + tail));
            var p := Token(|lead|, |lead| + |protocol|, |lead| + |protocol| + 1);
            && StrTok(addr, COLON_SLASH) == p && Text(addr, p) == protocol
            && var s := Rest(addr, p);
               var h := StrTok(s, SLASH);
               h.Token? && Text(s, h) == hostPort && Rest(s, h) == tail
  {
    assert '/' in SLASH;
    hide *;
    var s := slashes + hostPort + "/" + tail;
    var addr := lead + protocol + ([d] + s);
    Behind(d, s);
    TokAt(addr, lead, protocol, [d] + s, COLON_SLASH);
    TokPlace(addr, lead, protocol, [d] + s, COLON_SLASH);
    Behind('/', tail);
    assert "/" + tail == ['/'] + tail;
    Grouped(slashes + hostPort, ['/'], tail);
    TokAt(s, slashes, hostPort, "/" + tail, SLASH);
  }

  lemma Behind(c: char, b: string)
    ensures ([c] + b)[1..] == b && ([c] + b)[0] == c && [c] + b != ""
  {
  }

  lemma TokPlace(s: string, lead: string, a: string, b: string, delims: set<char>)
    requires s == lead + a + b && All(lead, delims) && a != "" && Free(a, delims) && b != "" && b[0] in delims
    ensures StrTok(s, delims) == Token(|lead|, |lead| + |a|, |lead| + |a| + 1)
  {
    hide StrTok, Free;
    TokStops(lead, a, b, delims);
  }

  lemma LooseMemory(front: string, d: char, rest: string, lead: nat, version: string)
    ensures AddressMemory(front + ([d] + rest), Token(lead, |front|, |front| + 1), version) ==
            front + [NUL] + rest + ([NUL] + version + [NUL])
  {
    var addr := front + ([d] + rest);
    assert addr[|front| := NUL] == front + [NUL] + rest;
  }

  lemma MemoryFrom(front: string, rest: string, tail: string, at: nat)
    requires at <= |front| + 1 + |rest|
    ensures var mem := front + [NUL] + rest + tail;
            if at <= |front| then mem[at..] == front[at..] + ([NUL] + rest + tail)
            else mem[at..] == rest[at - |front| - 1..] + tail
  {
  }

  /** The terminator behind the protocol counts only if at least three delimiters stand before it. */
  lemma LooseRem(lead: string, protocol: string, d: char, rest: string, version: string)
    requires protocol != "" && NoNul(lead + protocol) && NoNul(rest) && |rest| >= 2 && |version| >= 5
    ensures RemLen(lead + protocol + ([d] + rest), Token(|lead|, |lead| + |protocol|, |lead| + |protocol| + 1), version)
            == if |lead| < 3 then |lead| + |rest| - 2 else |lead| - 3
  {
    hide StrCSpn, UpToNul, AddressMemory;
    var front, tail, at := lead + protocol, [NUL] + version + [NUL], |protocol| + 3;
    LooseMemory(front, d, rest, |lead|, version);
    MemoryFrom(front, rest, tail, at);
    if |lead| < 3 {
      UpToNulStops(rest[2 - |lead|..], tail);
    } else {
      UpToNulStops(front[at..], [NUL] + rest + tail);
    }
  }

  lemma LooseAddressSteps(addr: string, p: Token, protocol: string, hostPort: string, tail: string, version: string)
    requires |version| >= 5 && p.Token? && p.start <= p.end <= |addr| && p.next <= |addr|
    requires StrTok(addr, COLON_SLASH) == p && Text(addr, p) == protocol
    requires var s := Rest(addr, p);
             var h := StrTok(s, SLASH);
             h.Token? && Text(s, h) == hostPort && Rest(s, h) == tail
    ensures SplitAddress(addr, version) ==
            if |hostPort| == RemLen(addr, p, version) then Rejected else SplitTail(protocol, hostPort, tail, version)
  {
    hide StrTok, RemLen, SplitTail, Text, Rest;
  }

  /** Delimiters in front of the protocol, one colon or slash behind it, any number of slashes, the host with
      its port, a slash and the rest of the path: the parts are cut there.  The check for a missing path
      measures from the third character behind as many as the protocol has, wherever the protocol is, so
      it also hits where the delimiters in excess and the rest are one character together, or where three
      or more in front outnumber the host by three. */
  lemma LooseAddress(lead: string, protocol: string, d: char, slashes: string, hostPort: string, tail: string,
                     version: string)
    requires All(lead, COLON_SLASH) && protocol != "" && Free(protocol, COLON_SLASH) && d in COLON_SLASH
    requires All(slashes, SLASH) && hostPort != "" && Free(hostPort, SLASH) && |version| >= 5
    requires NoNul(lead + protocol) && NoNul(slashes + hostPort + "/" + tail)
    ensures SplitAddress(lead + protocol + ([d] + (slashes + hostPort + "/" + tail)), version) ==
            if |lead| < 3 && |lead| + |slashes| + |tail| == 1 then Rejected
            else if |lead| >= 3 && |hostPort| == |lead| - 3 then Rejected
            else SplitTail(protocol, hostPort, tail, version)
  {
    hide *;
    var rest := slashes + hostPort + "/" + tail;
    LooseTokens(lead, protocol, d, slashes, hostPort, tail);
    LooseRem(lead, protocol, d, rest, version);
    LooseAddressSteps(lead + protocol + ([d] + rest), Token(|lead|, |lead| + |protocol|, |lead| + |protocol| + 1),
                      protocol, hostPort, tail, version);
  }

  /** A path that begins with two slashes is refused. */
  lemma TwoSlashesRefused(protocol: string, hostPort: string, tail: string, version: string)
    requires tail != "" && tail[0] == '/'
    ensures SplitTail(protocol, hostPort, tail, version) == Rejected
  {
    hide StrCSpn;
    assert "" + tail == tail;
    SpnStops("", tail, SPACE);
  }

  /** Path and port: an empty path becomes a slash, a colon without a port counts as no port, and the rest
      of the host behind its first colon is the port. */
  lemma TailAccepted(protocol: string, host: string, port: string, tail: string, version: string)
    requires host != "" && Free(host, COLON) && Free(port, SLASH) && Free(tail, SPACE) && (tail == "" || tail[0] != '/')
    ensures SplitTail(protocol, host, tail, version) == Accepted(Line("GET", protocol, host, None, "/" + tail, version))
    ensures SplitTail(protocol, host + ":" + port, tail, version) ==
            Accepted(Line("GET", protocol, host, if port == "" then None else Some(port), "/" + tail, version))
  {
    hide StrTok, Free;
    PathToken(tail);
    assert "" + host + "" == host && "" + host + (":" + port) == host + ":" + port;
    TokStops("", host, "", COLON);
    TokStops("", host, ":" + port, COLON);
    assert (":" + port)[1..] == port;
    PortToken(port);
    PortToken("");
  }

  lemma PathToken(tail: string)
    requires Free(tail, SPACE)
    ensures var q := StrTok(tail, SPACE);
            if tail == "" then q.NoToken? && "/" + tail == "/" else q.Token? && Text(tail, q) == tail
  {
    if tail != "" {
      assert "" + tail + "" == tail;
      TokStops("", tail, "", SPACE);
    }
  }

  lemma PortToken(port: string)
    requires Free(port, SLASH)
    ensures var o := StrTok(port, SLASH);
            if port == "" then o.NoToken? else o.Token? && Text(port, o) == port
  {
    if port != "" {
      assert "" + port + "" == port;
      TokStops("", port, "", SLASH);
    }
  }
}
