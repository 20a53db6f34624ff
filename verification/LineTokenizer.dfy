/** The request line, tokenised in place by the nested strtok_r calls of ParsedRequest_parse. */
module LineTokenizer {
  import opened CStrings
  import opened HttpText
  import opened Tokenizer

  /** strncmp(buf + i, lit, |lit|) == 0. */
  method StartsWith(buf: array<char>, i: nat, lit: string, ghost s: string) returns (b: bool)
    requires StrAt(buf[..], i, s) && NoNul(lit)
    ensures b <==> |s| >= |lit| && s[..|lit|] == lit
  {
    var k := 0;
    StrAtChar(buf[..], i, s, 0);
    while k < |lit| && buf[i + k] == lit[k]
      invariant k <= |lit| && k <= |s|
      invariant buf[i + k] == if k < |s| then s[k] else NUL
      invariant forall j :: 0 <= j < k ==> s[j] == lit[j]
      decreases |lit| - k
    {
      k := k + 1;
      StrAtChar(buf[..], i, s, k);
    }
    b := k == |lit|;
  }

  /** strcmp(buf + i, lit) == 0. */
  method Equals(buf: array<char>, i: nat, lit: string, ghost s: string) returns (b: bool)
    requires StrAt(buf[..], i, s) && NoNul(lit)
    ensures b <==> s == lit
  {
    b := StartsWith(buf, i, lit, s);
    if b {
      StrAtChar(buf[..], i, s, |lit|);
      b := buf[i + |lit|] == NUL;
    }
  }

  /** A slash and the string at index i, copied out of the buffer. */
  method CopyPath(buf: array<char>, i: nat, ghost s: string) returns (path: array<char>)
    requires StrAt(buf[..], i, s)
    ensures fresh(path) && path[..] == "/" + s + [NUL]
  {
    var plen := StrLen(buf, i, s);
    path := new char[plen + 2];
    path[0] := '/';
    var k := 0;
    while k < plen + 1
      invariant k <= plen + 1
      invariant path[0] == '/'
      invariant forall j :: 0 <= j < k ==> path[1 + j] == (s + [NUL])[j]
    {
      StrAtChar(buf[..], i, s, k);
      path[1 + k] := buf[i + k];
      k := k + 1;
    }
    assert path[..] == "/" + (s + [NUL]);
  }

  method PathInPlace(buf: array<char>, tailAt: nat, ghost tail: string) returns (ok: bool, path: array<char>)
    requires StrAt(buf[..], tailAt, tail)
    modifies buf
    ensures Same(old(buf[..]), buf[..], tailAt, tailAt + |tail|)
    ensures var q := StrTok(tail, SPACE);
            && (ok <==> (q.Token? ==> Text(tail, q)[0] != '/'))
            && (ok ==> path[..] == (if q.NoToken? then "/" else "/" + Text(tail, q)) + [NUL])
    ensures fresh(path)
  {
    var tok, save := StrTokR(buf, tailAt, SPACE, tail);
    ghost var q := StrTok(tail, SPACE);
    if tok == None {
      path := new char[2];
      path[0], path[1] := '/', NUL;
      return true, path;
    }
    StrAtChar(buf[..], tok.value, Text(tail, q), 0);
    if buf[tok.value] == '/' {
      path := new char[0];
      return false, path;
    }
    path := CopyPath(buf, tok.value, Text(tail, q));
    return true, path;
  }

  ghost predicate PortAt(mem: string, at: nat, s: string, port: Option<nat>) {
    var o := StrTok(s, SLASH);
    (o.NoToken? ==> port == None) && (o.Token? ==> port == Some(at + o.start) && StrAt(mem, at + o.start, Text(s, o)))
  }

  method HostInPlace(buf: array<char>, hostAt: nat, ghost hostPort: string)
    returns (host: Option<nat>, port: Option<nat>)
    requires StrAt(buf[..], hostAt, hostPort)
    modifies buf
    ensures Same(old(buf[..]), buf[..], hostAt, hostAt + |hostPort|)
    ensures var h := StrTok(hostPort, COLON);
            && (h.NoToken? ==> host == None)
            && (h.Token? ==>
                  && host == Some(hostAt + h.start) && StrAt(buf[..], hostAt + h.start, Text(hostPort, h))
                  && PortAt(buf[..], hostAt + h.next, Rest(hostPort, h), port))
  {
    hide StrAt, Same, StrTok, Cut;
    ghost var m0 := buf[..];
    ghost var h := StrTok(hostPort, COLON);
    var save, last;
    host, save := StrTokR(buf, hostAt, COLON, hostPort);
    ghost var m1 := buf[..];
    ghost var rest := if h.Token? then Rest(hostPort, h) else "";
    port, last := StrTokR(buf, save, SLASH, rest);
    SameTrans(m0, m1, buf[..], hostAt, hostAt + |hostPort|, save, save + |rest|);
    if h.Token? {
      TextSurvives(m1, buf[..], hostAt, hostPort, h);
    }
  }

  /** Changes in what follows a token leave the token alone. */
  lemma TextSurvives(mem: string, mem': string, at: int, s: string, t: Token)
    requires t.Token? && t.start <= t.end <= t.next <= |s| && (t.end == t.next ==> t.next == |s|)
    requires Same(mem, mem', at + t.next, at + |s|) && StrAt(mem, at + t.start, Text(s, t))
    ensures StrAt(mem', at + t.start, Text(s, t))
  {
    hide StrAt;
    if t.end < t.next {
      StrAtSame(mem, mem', at + t.next, at + |s|, at + t.start, Text(s, t));
    } else {
      assert mem == mem';
    }
  }

  /** Host and port are separate strings between lo and hi, in this order. */
  ghost predicate HostPortAt(mem: string, lo: nat, hi: int, l: Line, host: nat, port: Option<nat>) {
    && StrAt(mem, host, l.host) && lo <= host && host + |l.host| <= hi
    && (port.Some? <==> l.port.Some?)
    && (port.Some? ==>
          && StrAt(mem, port.value, l.port.value)
          && host + |l.host| < port.value && port.value + |l.port.value| <= hi)
  }

  method TailInPlace(buf: array<char>, hostAt: nat, tailAt: nat,
                     ghost protocol: string, ghost hostPort: string, ghost tail: string, ghost version: string)
    returns (ok: bool, host: nat, port: Option<nat>, path: array<char>)
    requires StrAt(buf[..], hostAt, hostPort) && StrAt(buf[..], tailAt, tail)
    requires hostAt + |hostPort| < tailAt || (tail == "" && tailAt == hostAt + |hostPort|)
    modifies buf
    ensures fresh(path) && Same(old(buf[..]), buf[..], hostAt, tailAt + |tail|)
    ensures var r := SplitTail(protocol, hostPort, tail, version);
            && (ok <==> r.Accepted?)
            && (ok ==> HostPortAt(buf[..], hostAt, hostAt + |hostPort|, r.line, host, port)
                       && path[..] == r.line.path + [NUL])
  {
    hide StrAt, Same, StrTok;
    ghost var m0 := buf[..];
    host, port := 0, None;
    ok, path := PathInPlace(buf, tailAt, tail);
    ghost var m1 := buf[..];
    SameTrans(m0, m0, m1, tailAt, tailAt, tailAt, tailAt + |tail|);
    if ok {
      StringSurvives(m0, m1, tailAt, tailAt + |tail|, hostAt, hostPort);
      var h, o := HostInPlace(buf, hostAt, hostPort);
      SameTrans(m0, m1, buf[..], tailAt, tailAt + |tail|, hostAt, hostAt + |hostPort|);
      if h == None {
        return false, host, port, path;
      }
      host, port := h.value, o;
    }
  }

  lemma StringSurvives(mem: string, mem': string, lo: nat, hi: nat, at: nat, s: string)
    requires StrAt(mem, at, s) && Same(mem, mem', lo, hi)
    requires at + |s| < lo || hi <= at || lo == hi
    ensures StrAt(mem', at, s)
  {
    if lo == hi {
      assert mem == mem';
    } else {
      StrAtSame(mem, mem', lo, hi, at, s);
    }
  }

  lemma UpToNulAt(mem: string, i: nat)
    requires i < |mem| && mem[|mem| - 1] == NUL
    ensures StrAt(mem, i, UpToNul(mem[i..]))
  {
    var tail := mem[i..];
    assert tail[|tail| - 1] == NUL;
    assert mem[i..i + |UpToNul(tail)|] == tail[..|UpToNul(tail)|];
  }

  /** What strlen(rem) reads once the protocol has been cut off. */
  lemma RemAt(mem: string, fa: nat, addr: string, p: Token, version: string)
    requires fa <= |mem| && mem[fa..] == addr + [NUL] + version + [NUL]
    requires p.Token? && p.start <= p.end <= |addr| && |version| >= 5
    ensures var mem', k := Cut(mem, fa, addr, p), fa + (p.end - p.start) + 3;
            && k < |mem'| && |UpToNul(mem'[k..])| == RemLen(addr, p, version)
            && StrAt(mem', k, UpToNul(mem'[k..]))
  {
    hide UpToNul;
    var mem', d := Cut(mem, fa, addr, p), p.end - p.start + 3;
    assert mem'[fa..] == AddressMemory(addr, p, version);
    assert mem'[fa..][d..] == mem'[fa + d..];
    assert mem'[|mem'| - 1] == mem'[fa..][|mem'| - 1 - fa];
    UpToNulAt(mem', fa + d);
  }

  ghost predicate AddressAt(mem: string, lo: nat, hi: int, l: Line, protocol: nat, host: nat, port: Option<nat>) {
    && StrAt(mem, protocol, l.protocol) && lo <= protocol
    && HostPortAt(mem, protocol + |l.protocol| + 1, hi, l, host, port)
  }

  method ProtocolInPlace(buf: array<char>, fa: nat, ghost addr: string, ghost version: string)
    returns (tok: Option<nat>, save: nat, absUriLen: nat)
    requires StrAt(buf[..], fa, addr) && |version| >= 5
    requires fa <= buf.Length && buf[fa..] == addr + [NUL] + version + [NUL]
    modifies buf
    ensures Tokenised(old(buf[..]), buf[..], fa, addr, COLON_SLASH, tok, save)
    ensures tok.Some? ==> absUriLen == RemLen(addr, StrTok(addr, COLON_SLASH), version)
  {
    hide StrAt, Same, RemLen, NoNul, Free, UpToNul, Cut;
    absUriLen := 0;
    RemAtBefore(buf[..], fa, addr, version);
    tok, save := StrTokR(buf, fa, COLON_SLASH, addr);
    if tok.Some? {
      var plen := StrLen(buf, tok.value, Text(addr, StrTok(addr, COLON_SLASH)));
      absUriLen := StrLen(buf, fa + plen + 3, UpToNul(buf[fa + plen + 3..]));
    }
  }

  lemma RemAtBefore(mem: string, fa: nat, addr: string, version: string)
    requires fa <= |mem| && mem[fa..] == addr + [NUL] + version + [NUL] && |version| >= 5
    ensures var p := StrTok(addr, COLON_SLASH);
            p.Token? ==>
              var mem', k := Cut(mem, fa, addr, p), fa + (p.end - p.start) + 3;
              && k < |mem'| && |UpToNul(mem'[k..])| == RemLen(addr, p, version)
              && StrAt(mem', k, UpToNul(mem'[k..]))
  {
    var p := StrTok(addr, COLON_SLASH);
    if p.Token? {
      RemAt(mem, fa, addr, p, version);
    }
  }

  method AuthorityInPlace(buf: array<char>, at: nat, absUriLen: nat,
                          ghost protocol: string, ghost s: string, ghost version: string)
    returns (ok: bool, host: nat, port: Option<nat>, path: array<char>)
    requires StrAt(buf[..], at, s)
    modifies buf
    ensures fresh(path) && Same(old(buf[..]), buf[..], at, at + |s|)
    ensures var h := StrTok(s, SLASH);
            var r := if h.NoToken? || |Text(s, h)| == absUriLen then Rejected
                     else SplitTail(protocol, Text(s, h), Rest(s, h), version);
            && (ok <==> r.Accepted?)
            && (ok ==> HostPortAt(buf[..], at, at + |s|, r.line, host, port) && path[..] == r.line.path + [NUL])
  {
    hide StrAt, Same, StrTok, SplitTail, Cut;
    host, port, path := 0, None, new char[0];
    ghost var m0, h := buf[..], StrTok(s, SLASH);
    var tok, save := StrTokR(buf, at, SLASH, s);
    ghost var m1 := buf[..];
    if tok == None {
      return false, host, port, path;
    }
    var hlen := StrLen(buf, tok.value, Text(s, h));
    if hlen == absUriLen {
      return false, host, port, path;
    }
    ok, host, port, path := TailInPlace(buf, tok.value, save, protocol, Text(s, h), Rest(s, h), version);
    SameTrans(m0, m1, buf[..], at, at + |s|, tok.value, save + |Rest(s, h)|);
  }

  lemma EmptyHasNoToken(s: string)
    ensures s == "" ==> StrTok(s, SLASH) == NoToken
  {
  }

  method AddressInPlace(buf: array<char>, fa: nat, ghost addr: string, ghost version: string)
    returns (ok: bool, protocol: nat, host: nat, port: Option<nat>, path: array<char>)
    requires StrAt(buf[..], fa, addr) && |version| >= 5
    requires fa <= buf.Length && buf[fa..] == addr + [NUL] + version + [NUL]
    modifies buf
    ensures fresh(path) && Same(old(buf[..]), buf[..], fa, fa + |addr|)
    ensures var r := SplitAddress(addr, version);
            && (ok <==> r.Accepted?)
            && (ok ==> AddressAt(buf[..], fa, fa + |addr|, r.line, protocol, host, port)
                       && path[..] == r.line.path + [NUL])
  {
    hide StrAt, Same, StrTok, RemLen;
    protocol, host, port, path := 0, 0, None, new char[0];
    ghost var m0, p := buf[..], StrTok(addr, COLON_SLASH);
    var tok, save, absUriLen := ProtocolInPlace(buf, fa, addr, version);
    ghost var m1 := buf[..];
    if tok == None {
      return false, protocol, host, port, path;
    }
    protocol := tok.value;
    ok, host, port, path := AuthorityInPlace(buf, save, absUriLen, Text(addr, p), Rest(addr, p), version);
    SameTrans(m0, m1, buf[..], fa, fa + |addr|, save, fa + |addr|);
    TextSurvives(m1, buf[..], fa, addr, p);
    EmptyHasNoToken(Rest(addr, p));
  }

  lemma Image(mem: string, fa: nat, addr: string, version: string)
    requires StrAt(mem, fa, addr) && StrAt(mem, fa + |addr| + 1, version)
    requires |mem| == fa + |addr| + 1 + |version| + 1
    ensures mem[fa..] == addr + [NUL] + version + [NUL]
  {
    var v := fa + |addr| + 1;
    assert mem[fa..] == mem[fa..fa + |addr|] + [mem[v - 1]] + mem[v..v + |version|] + [mem[|mem| - 1]];
  }

  /** The method and the address, cut out of the line; the version is what follows the address. */
  method WordsInPlace(buf: array<char>, ghost text: string) returns (ok: bool, method_: nat, fa: nat, version: nat)
    requires StrAt(buf[..], 0, text) && buf.Length == |text| + 1 && SplitLine(text) != OutOfBounds
    modifies buf
    ensures !ok ==> SplitLine(text) == Rejected
    ensures ok ==>
              var m := StrTok(text, SPACE);
              m.Token? &&
              var s := Rest(text, m);
              var a := StrTok(s, SPACE);
              && a.Token? && |Rest(s, a)| >= 5 && SplitLine(text) == SplitAddress(Text(s, a), Rest(s, a))
              && Text(text, m) == "GET" && StrAt(buf[..], method_, "GET") && method_ + 3 < fa
              && StrAt(buf[..], fa, Text(s, a)) && version == fa + |Text(s, a)| + 1
              && StrAt(buf[..], version, Rest(s, a)) && version + |Rest(s, a)| + 1 == buf.Length
  {
    hide StrAt, Same, StrTok, Cut, SplitAddress;
    method_, fa, version := 0, 0, 0;
    ghost var m := StrTok(text, SPACE);
    var tok, save := StrTokR(buf, 0, SPACE, text);
    ghost var m1 := buf[..];
    if tok == None {
      return false, method_, fa, version;
    }
    method_ := tok.value;
    var isGet := Equals(buf, method_, "GET", Text(text, m));
    if !isGet {
      return false, method_, fa, version;
    }
    ghost var s := Rest(text, m);
    ghost var a := StrTok(s, SPACE);
    var addrTok, save' := StrTokR(buf, save, SPACE, s);
    if addrTok == None {
      return false, method_, fa, version;
    }
    fa := addrTok.value;
    var alen := StrLen(buf, fa, Text(s, a));
    version := fa + alen + 1;
    var known := StartsWith(buf, version, "HTTP/", Rest(s, a));
    if !known {
      return false, method_, fa, version;
    }
    TextSurvives(m1, buf[..], 0, text, m);
    return true, method_, fa, version;
  }

  datatype Fields = Fields(method_: nat, protocol: nat, host: nat, port: Option<nat>, version: nat)

  /** The fields are C strings in the buffer, each behind the terminator of the one before it. */
  ghost predicate FieldsAt(mem: string, f: Fields, l: Line) {
    && StrAt(mem, f.method_, l.method_) && StrAt(mem, f.version, l.version)
    && AddressAt(mem, f.method_ + |l.method_| + 1, f.version - 1, l, f.protocol, f.host, f.port)
  }

  lemma AddressKeeps(addr: string, version: string)
    requires |version| >= 5
    ensures var r := SplitAddress(addr, version);
            r != OutOfBounds && (r.Accepted? ==> r.line.method_ == "GET" && r.line.version == version)
  {
    hide StrTok, RemLen;
  }

  /** All the strtok_r calls over one request line leave exactly the fields of SplitLine. */
  method LineInPlace(buf: array<char>, ghost text: string) returns (fields: Option<Fields>, path: array<char>)
    requires buf[..] == text + [NUL] && NoNul(text) && SplitLine(text) != OutOfBounds
    modifies buf
    ensures fresh(path)
    ensures match SplitLine(text)
            case Accepted(l) => fields.Some? && FieldsAt(buf[..], fields.value, l) && path[..] == l.path + [NUL]
            case _ => fields == None
  {
    hide StrAt, Same, StrTok, SplitAddress, NoNul, HostPortAt;
    path := new char[0];
    WholeAt(buf[..], text);
    var ok, method_, fa, version := WordsInPlace(buf, text);
    if !ok {
      return None, path;
    }
    ghost var m0 := buf[..];
    ghost var s := Rest(text, StrTok(text, SPACE));
    ghost var a := StrTok(s, SPACE);
    Image(m0, fa, Text(s, a), Rest(s, a));
    var protocol, host, port;
    ok, protocol, host, port, path := AddressInPlace(buf, fa, Text(s, a), Rest(s, a));
    AddressKeeps(Text(s, a), Rest(s, a));
    if !ok {
      return None, path;
    }
    StrAtSame(m0, buf[..], fa, fa + |Text(s, a)|, method_, "GET");
    StrAtSame(m0, buf[..], fa, fa + |Text(s, a)|, version, Rest(s, a));
    return Some(Fields(method_, protocol, host, port, version)), path;
  }

  lemma WholeAt(mem: string, text: string)
    requires mem == text + [NUL] && NoNul(text)
    ensures StrAt(mem, 0, text)
  {
  }
}
