/** Header lines: what the parser's loop reads from a text, and what the printer writes. */
module HttpMessage {
  import opened CStrings
  import opened HeaderTable
  import opened HttpText

  const BLANK: string := "\r\n\r\n"

  datatype Request = Request(line: Line, headers: seq<Header>)

  // ---- header lines --------------------------------------------------------------------------------

  datatype HeadersRead = NoColon(headers: seq<Header>) | PastEnd | Headers(headers: seq<Header>)

  predicate AtCrLf(s: string) {
    |s| >= 2 && s[0] == '\r' && s[1] == '\n'
  }

  /** The header loop from some line on.  The colon is looked for in all that follows, and one
      character after it is skipped.  PastEnd: a pointer leaves the buffer or strstr finds nothing. */
  function ReadHeaders(rest: string, hs: seq<Header>): HeadersRead
    decreases |rest|
  {
    if rest == "" || AtCrLf(rest) then Headers(hs)
    else
      var c := StrCSpn(rest, {':'});
      if c == |rest| then NoColon(hs)
      else if c + 2 > |rest| then PastEnd
      else
        var e := Find(rest[c + 2..], CRLF);
        if e < 0 then PastEnd
        else
          var hs' := SetHeader(hs, rest[..c], rest[c + 2..c + 2 + e]);
          var n := Find(rest, CRLF);
          if n < 0 then Headers(hs') else ReadHeaders(rest[n + 2..], hs')
  }

  function HeaderLine(h: Header): string {
    h.key + ": " + h.value + CRLF
  }

  function PrintHeaders(hs: seq<Header>): string {
    if hs == [] then "" else PrintHeaders(hs[..|hs| - 1]) + HeaderLine(hs[|hs| - 1])
  }

  predicate GoodHeader(h: Header) {
    Clean(h.key, {':'}) && Clean(h.value, {})
  }

  predicate AllGood(hs: seq<Header>) {
    forall i :: 0 <= i < |hs| ==> GoodHeader(hs[i])
  }

  predicate GoodHeaders(hs: seq<Header>) {
    AllGood(hs) && DistinctKeys(hs)
  }

  lemma HeaderBodyClean(h: Header)
    requires GoodHeader(h)
    ensures var body := h.key + ": " + h.value; NoCrLf(body) && NoNul(body)
  {
    NoCrLfConcat(h.key, ": ");
    NoCrLfConcat(h.key + ": ", h.value);
  }

  /** One turn of the loop. */
  lemma ReadOne(s: string, hs: seq<Header>, key: string, value: string, n: nat, rest: string)
    requires s != "" && !AtCrLf(s)
    requires StrCSpn(s, {':'}) == |key| && |key| + 2 + |value| <= |s|
    requires s[..|key|] == key && s[|key| + 2..|key| + 2 + |value|] == value
    requires Find(s[|key| + 2..], CRLF) == |value| && Find(s, CRLF) == n && n + 2 <= |s| && s[n + 2..] == rest
    ensures ReadHeaders(s, hs) == ReadHeaders(rest, SetHeader(hs, key, value))
  {
    hide StrCSpn, Find, SetHeader, AtCrLf;
  }

  lemma HeaderLineCut(key: string, value: string, rest: string)
    requires Clean(key, {':'}) && NoCrLf(value)
    ensures var s := HeaderLine(Header(key, value)) + rest;
            var c := |key|;
            && StrCSpn(s, {':'}) == c && c + 2 + |value| + 2 <= |s|
            && s[..c] == key && s[c + 2..c + 2 + |value|] == value
            && Find(s[c + 2..], CRLF) == |value|
  {
    hide StrCSpn, Find, NoCrLf, NoNul, Free;
    var tail := ": " + value + CRLF + rest;
    var s := HeaderLine(Header(key, value)) + rest;
    assert s == key + tail;
    CSpnStops(key, tail, {':'});
    assert tail[2..] == value + CRLF + rest;
    assert s[|key| + 2..] == tail[2..];
    FindCrLf(value, rest);
  }

  lemma HeaderLineEnds(h: Header, rest: string)
    requires GoodHeader(h)
    ensures var s := HeaderLine(h) + rest;
            var n := |h.key| + 2 + |h.value|;
            && Find(s, CRLF) == n && n + 2 <= |s| && s[n + 2..] == rest
            && s != "" && !AtCrLf(s)
  {
    var body := h.key + ": " + h.value;
    HeaderBodyClean(h);
    assert HeaderLine(h) + rest == h.key + (": " + h.value + CRLF + rest);
    BlankFront(h.key, ": " + h.value + CRLF + rest);
    assert !AtCrLf(h.key);
    hide Find, NoCrLf, NoNul, Free, AtCrLf, Clean, GoodHeader;
    assert HeaderLine(h) + rest == body + CRLF + rest;
    FindCrLf(body, rest);
  }

  lemma HeaderLineReads(h: Header, rest: string, hs: seq<Header>)
    requires GoodHeader(h)
    ensures ReadHeaders(HeaderLine(h) + rest, hs) == ReadHeaders(rest, SetHeader(hs, h.key, h.value))
  {
    HeaderClean(h);
    hide *;
    var s := HeaderLine(h) + rest;
    HeaderLineCut(h.key, h.value, rest);
    HeaderLineEnds(h, rest);
    ReadOne(s, hs, h.key, h.value, |h.key| + 2 + |h.value|, rest);
  }

  lemma HeaderClean(h: Header)
    requires GoodHeader(h)
    ensures Clean(h.key, {':'}) && NoCrLf(h.value) && Header(h.key, h.value) == h
  {
  }

  /** A key in front of a colon begins with a blank line only if it does so by itself. */
  lemma BlankFront(key: string, tail: string)
    requires tail != "" && tail[0] == ':'
    ensures AtCrLf(key + tail) <==> AtCrLf(key)
    ensures key + tail != ""
  {
    var s := key + tail;
    assert |key| >= 1 ==> s[0] == key[0];
    assert |key| >= 2 ==> s[1] == key[1];
    assert s[|key|] == ':';
  }

  lemma {:induction false} PrintHeadersFront(hs: seq<Header>)
    requires hs != []
    ensures PrintHeaders(hs) == HeaderLine(hs[0]) + PrintHeaders(hs[1..])
  {
    hide HeaderLine;
    if |hs| > 1 {
      var init := hs[..|hs| - 1];
      PrintHeadersFront(init);
      assert hs[1..][..|hs| - 2] == init[1..];
    }
  }

  lemma SetNew(acc: seq<Header>, hs: seq<Header>)
    requires hs != [] && DistinctKeys(acc + hs)
    ensures SetHeader(acc, hs[0].key, hs[0].value) == acc + [hs[0]]
    ensures acc + [hs[0]] + hs[1..] == acc + hs
  {
    var all := acc + hs;
    assert all[|acc|] == hs[0] && forall i :: 0 <= i < |acc| ==> all[i] == acc[i];
    assert Absent(acc, hs[0].key);
    WithoutIsAbsent(acc, hs[0].key);
  }

  lemma {:induction false} PrintedHeadersRead(hs: seq<Header>, acc: seq<Header>)
    requires AllGood(hs) && DistinctKeys(acc + hs)
    ensures ReadHeaders(PrintHeaders(hs) + CRLF, acc) == Headers(acc + hs)
    decreases |hs|
  {
    if hs == [] {
      assert "" + CRLF == CRLF && acc + hs == acc;
    } else {
      var h, rest := hs[0], hs[1..];
      assert GoodHeader(h) && AllGood(rest);
      SetNew(acc, hs);
      hide AllGood, GoodHeader, SetHeader, ReadHeaders, PrintHeaders, HeaderLine, DistinctKeys;
      calc {
        ReadHeaders(PrintHeaders(hs) + CRLF, acc);
        {
          PrintHeadersFront(hs);
          assert HeaderLine(h) + PrintHeaders(rest) + CRLF == HeaderLine(h) + (PrintHeaders(rest) + CRLF);
        }
        ReadHeaders(HeaderLine(h) + (PrintHeaders(rest) + CRLF), acc);
        { HeaderLineReads(h, PrintHeaders(rest) + CRLF, acc); }
        ReadHeaders(PrintHeaders(rest) + CRLF, acc + [h]);
        { PrintedHeadersRead(rest, acc + [h]); }
        Headers(acc + hs);
      }
    }
  }

  // ---- header lines of an incoming request ----------------------------------------------------------

  /** Every line up to the blank one holds a colon. */
  predicate ColonOnEveryLine(rest: string)
    decreases |rest|
  {
    rest == "" || AtCrLf(rest) ||
    var n := Find(rest, CRLF);
    StrCSpn(rest, {':'}) < n && ColonOnEveryLine(rest[n + 2..])
  }

  lemma KeyGood(rest: string, c: nat, n: nat)
    requires NoNul(rest) && c <= n <= |rest| && NoCrLf(rest[..n])
    requires c == StrCSpn(rest, {':'})
    ensures Clean(rest[..c], {':'})
  {
    assert rest[..n][..c] == rest[..c];
  }

  lemma ValueGood(rest: string, k: nat, e: nat)
    requires NoNul(rest) && k <= k + e <= |rest| && NoCrLf(rest[k..][..e])
    ensures Clean(rest[k..k + e], {})
  {
    assert rest[k..][..e] == rest[k..k + e];
  }

  lemma LineGood(rest: string, c: nat, e: nat)
    requires NoNul(rest) && StrCSpn(rest, {':'}) == c < Find(rest, CRLF)
    requires c + 2 <= |rest| && Find(rest[c + 2..], CRLF) == e
    ensures c + 2 + e <= |rest| && GoodHeader(Header(rest[..c], rest[c + 2..c + 2 + e]))
  {
    hide Find, StrCSpn, NoCrLf, NoNul, Clean;
    BeforeFirstCrLf(rest);
    KeyGood(rest, c, Find(rest, CRLF));
    BeforeFirstCrLf(rest[c + 2..]);
    ValueGood(rest, c + 2, e);
  }

  lemma {:induction false} AllGoodWithout(hs: seq<Header>, key: string)
    requires AllGood(hs)
    ensures AllGood(Without(hs, key))
  {
    if hs != [] {
      AllGoodWithout(hs[..|hs| - 1], key);
    }
  }

  lemma SetGood(hs: seq<Header>, h: Header)
    requires GoodHeaders(hs) && GoodHeader(h)
    ensures GoodHeaders(SetHeader(hs, h.key, h.value))
  {
    hide GoodHeader;
    AllGoodWithout(hs, h.key);
    WithoutIsAbsent(hs, h.key);
    SnocKeys(Without(hs, h.key), h);
  }

  /** Lines that each hold a colon are read into good headers with distinct keys. */
  lemma {:induction false} ColonLinesRead(rest: string, hs: seq<Header>)
    requires ColonOnEveryLine(rest) && NoNul(rest) && GoodHeaders(hs)
    requires ReadHeaders(rest, hs).Headers?
    ensures GoodHeaders(ReadHeaders(rest, hs).headers)
    decreases |rest|
  {
    hide Find, StrCSpn, GoodHeaders, GoodHeader, SetHeader, AtCrLf;
    if rest != "" && !AtCrLf(rest) {
      var n, c := Find(rest, CRLF), StrCSpn(rest, {':'});
      var e := Find(rest[c + 2..], CRLF);
      LineGood(rest, c, e);
      var h := Header(rest[..c], rest[c + 2..c + 2 + e]);
      SetGood(hs, h);
      ColonLinesRead(rest[n + 2..], SetHeader(hs, h.key, h.value));
    }
  }
}
