/** The header loop of ParsedRequest_parse, over a NUL-terminated copy of the request. */
module HeaderReader {
  import opened CStrings
  import opened HeaderTable
  import opened HttpMessage
  import opened Tokenizer
  import opened LineTokenizer

  lemma FindAt(s: string, pat: string, k: nat)
    requires pat != "" && OccursAt(s, pat, k) && forall j :: 0 <= j < k ==> !OccursAt(s, pat, j)
    ensures Find(s, pat) == k
  {
    var f := Find(s, pat);
    assert OccursAt(s, pat, f);
  }

  lemma FindNone(s: string, pat: string)
    requires pat != "" && forall j :: 0 <= j < |s| ==> !OccursAt(s, pat, j)
    ensures Find(s, pat) == -1
  {
  }

  lemma PrefixOccurs(s: string, pat: string, k: nat)
    requires k <= |s|
    ensures OccursAt(s, pat, k) <==> |s[k..]| >= |pat| && s[k..][..|pat|] == pat
  {
    if k + |pat| <= |s| {
      assert s[k..][..|pat|] == s[k..k + |pat|];
    }
  }

  /** strstr(buf + i, pat). */
  method StrStr(buf: array<char>, i: nat, pat: string, ghost s: string) returns (r: Option<nat>)
    requires StrAt(buf[..], i, s) && NoNul(pat) && pat != ""
    ensures r == if Find(s, pat) < 0 then None else Some(i + Find(s, pat))
  {
    hide StrAt, Find, OccursAt, NoNul;
    var k := 0;
    StrAtChar(buf[..], i, s, 0);
    while buf[i + k] != NUL
      invariant k <= |s| && i + k < buf.Length
      invariant buf[i + k] == if k < |s| then s[k] else NUL
      invariant forall j :: 0 <= j < k ==> !OccursAt(s, pat, j)
      decreases |s| - k
    {
      StrAtTail(buf[..], i, s, k);
      PrefixOccurs(s, pat, k);
      var here := StartsWith(buf, i + k, pat, s[k..]);
      if here {
        FindAt(s, pat, k);
        return Some(i + k);
      }
      k := k + 1;
      StrAtChar(buf[..], i, s, k);
    }
    StrAtChar(buf[..], i, s, k);
    FindNone(s, pat);
    return None;
  }

  lemma SliceIs(mem: string, i: int, s: string, a: nat, b: nat)
    requires StrAt(mem, i, s) && a <= b <= |s|
    ensures 0 <= i && i + b <= |mem| && mem[i + a..i + b] == s[a..b]
  {
    var t := mem[i + a..i + b];
    forall k | 0 <= k < b - a
      ensures t[k] == s[a..b][k]
    {
      StrAtChar(mem, i, s, a + k);
    }
  }

  /** The key is what precedes the first colon, the value starts one character behind the colon and
      ends at the next CRLF. */
  method CutHeader(buf: array<char>, i: nat, ghost s: string) returns (h: Option<Header>)
    requires StrAt(buf[..], i, s)
    requires var c := StrCSpn(s, {':'}); c < |s| ==> c + 2 <= |s| && Find(s[c + 2..], CRLF) >= 0
    ensures h == var c := StrCSpn(s, {':'});
                 if c == |s| then None
                 else
                   var e := Find(s[c + 2..], CRLF);
                   Some(Header(s[..c], s[c + 2..c + 2 + e]))
  {
    hide StrAt, StrCSpn;
    var c := Span(buf, i, {':'}, false, s);
    StrAtChar(buf[..], i, s, c);
    if buf[i + c] == NUL {
      return None;
    }
    var start := i + c + 2;
    StrAtTail(buf[..], i, s, c + 2);
    var stop := StrStr(buf, start, CRLF, s[c + 2..]);
    hide Find;
    SliceIs(buf[..], i, s, 0, c);
    SliceIs(buf[..], i, s, c + 2, c + 2 + Find(s[c + 2..], CRLF));
    return Some(Header(buf[i..i + c], buf[start..stop.value]));
  }

  /** ParsedHeader_parse on the line at index i. */
  method ParseHeader(table: Table, buf: array<char>, i: nat, ghost s: string) returns (ret: int)
    requires table.Valid() && StrAt(buf[..], i, s)
    requires var c := StrCSpn(s, {':'}); c < |s| ==> c + 2 <= |s| && Find(s[c + 2..], CRLF) >= 0
    modifies table, table.headers
    ensures table.Valid() && (table.headers == old(table.headers) || fresh(table.headers))
    ensures var c := StrCSpn(s, {':'});
            if c == |s| then ret == -1 && table.Contents() == old(table.Contents())
            else
              var e := Find(s[c + 2..], CRLF);
              ret == 0 && table.Contents() == SetHeader(old(table.Contents()), s[..c], s[c + 2..c + 2 + e])
  {
    hide StrAt, StrCSpn, Find, OccursAt, SetHeader;
    var h := CutHeader(buf, i, s);
    if h == None {
      return -1;
    }
    table.Set(h.value.key, h.value.value);
    return 0;
  }

  /** One turn of the loop on a line that is not blank. */
  lemma OneLine(s: string, hs: seq<Header>)
    requires s != "" && !AtCrLf(s) && ReadHeaders(s, hs) != PastEnd
    ensures var c := StrCSpn(s, {':'});
            if c == |s| then ReadHeaders(s, hs) == NoColon(hs)
            else
              && c + 2 <= |s| && Find(s[c + 2..], CRLF) >= 0
              && var e := Find(s[c + 2..], CRLF);
                 var hs', n := SetHeader(hs, s[..c], s[c + 2..c + 2 + e]), Find(s, CRLF);
                 && n + 2 <= |s|
                 && ReadHeaders(s, hs) == if n < 0 then Headers(hs') else ReadHeaders(s[n + 2..], hs')
  {
    hide StrCSpn, Find, SetHeader, AtCrLf;
  }

  lemma BlankLine(s: string, hs: seq<Header>)
    requires s == "" || AtCrLf(s)
    ensures ReadHeaders(s, hs) == Headers(hs)
  {
  }

  lemma HeadOfRest(mem: string, i: int, s: string)
    requires StrAt(mem, i, s)
    ensures 0 <= i < |mem| && (mem[i] != NUL ==> i + 1 < |mem|)
    ensures mem[i] == NUL <==> s == ""
    ensures s != "" ==> (AtCrLf(s) <==> mem[i] == '\r' && mem[i + 1] == '\n')
  {
    StrAtChar(mem, i, s, 0);
    if s != "" {
      StrAtChar(mem, i, s, 1);
    }
  }

  method ReadHeaderLines(table: Table, buf: array<char>, i: nat, ghost s: string) returns (ret: int)
    requires table.Valid() && StrAt(buf[..], i, s)
    requires ReadHeaders(s, table.Contents()) != PastEnd
    modifies table, table.headers
    ensures table.Valid() && (table.headers == old(table.headers) || fresh(table.headers))
    ensures ReadHeaders(s, old(table.Contents())) ==
            if ret == 0 then Headers(table.Contents()) else NoColon(table.Contents())
    ensures ret == 0 || ret == -1
  {
    hide StrAt, Find, StrCSpn, SetHeader, OccursAt, ReadHeaders, AtCrLf;
    ghost var result := ReadHeaders(s, table.Contents());
    var cur: nat := i;
    ghost var rest := s;
    ret := 0;
    HeadOfRest(buf[..], cur, rest);
    while buf[cur] != NUL && !(buf[cur] == '\r' && buf[cur + 1] == '\n')
      invariant table.Valid() && (table.headers == old(table.headers) || fresh(table.headers))
      invariant StrAt(buf[..], cur, rest)
      invariant cur < buf.Length && (buf[cur] != NUL ==> cur + 1 < buf.Length)
      invariant buf[cur] == NUL <==> rest == ""
      invariant rest != "" ==> (AtCrLf(rest) <==> buf[cur] == '\r' && buf[cur + 1] == '\n')
      invariant ReadHeaders(rest, table.Contents()) == result
      decreases |rest|
    {
      OneLine(rest, table.Contents());
      ret := ParseHeader(table, buf, cur, rest);
      if ret != 0 {
        return;
      }
      var next := StrStr(buf, cur, CRLF, rest);
      if next == None {
        return;
      }
      StrAtTail(buf[..], cur, rest, Find(rest, CRLF) + 2);
      cur := next.value + 2;
      rest := rest[Find(rest, CRLF) + 2..];
      HeadOfRest(buf[..], cur, rest);
    }
    BlankLine(rest, table.Contents());
  }
}
