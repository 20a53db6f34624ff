/** strtok_r in place: each call writes at most one NUL into the buffer it walks over. */
module Tokenizer {
  import opened CStrings
  import opened HttpText

  // ---- C strings in a buffer ------------------------------------------------------------------------

  /** The C string at index i of a memory is s. */
  ghost predicate StrAt(mem: string, i: int, s: string) {
    0 <= i && i + |s| < |mem| && mem[i..i + |s|] == s && mem[i + |s|] == NUL && NoNul(s)
  }

  /** Two memories differ at most between lo and hi. */
  ghost predicate Same(mem: string, mem': string, lo: int, hi: int) {
    |mem| == |mem'| && forall k :: 0 <= k < |mem| && !(lo <= k < hi) ==> mem'[k] == mem[k]
  }

  lemma StrAtSame(mem: string, mem': string, lo: int, hi: int, i: int, s: string)
    requires StrAt(mem, i, s) && Same(mem, mem', lo, hi)
    requires i + |s| < lo || hi <= i
    ensures StrAt(mem', i, s)
  {
    assert mem'[i..i + |s|] == mem[i..i + |s|];
  }

  lemma SameTrans(mem: string, mid: string, mem': string, lo: int, hi: int, lo': int, hi': int)
    requires Same(mem, mid, lo, hi) && Same(mid, mem', lo', hi')
    ensures forall a, b :: a <= lo && a <= lo' && hi <= b && hi' <= b ==> Same(mem, mem', a, b)
  {
  }

  lemma StrAtChar(mem: string, i: int, s: string, k: nat)
    requires StrAt(mem, i, s) && k <= |s|
    ensures 0 <= i + k < |mem| && mem[i + k] == if k < |s| then s[k] else NUL
    ensures k < |s| ==> mem[i + k] != NUL
  {
    if k < |s| {
      assert mem[i + k] == mem[i..i + |s|][k];
    }
  }

  lemma StrAtTail(mem: string, i: int, s: string, k: nat)
    requires StrAt(mem, i, s) && k <= |s|
    ensures StrAt(mem, i + k, s[k..])
  {
    assert mem[i + k..i + |s|] == mem[i..i + |s|][k..];
  }

  lemma SpnIs(s: string, accept: set<char>, k: nat)
    requires k <= |s| && (forall j :: 0 <= j < k ==> s[j] in accept)
    requires k == |s| || s[k] !in accept
    ensures StrSpn(s, accept) == k
  {
  }

  lemma CSpnIs(s: string, reject: set<char>, k: nat)
    requires k <= |s| && Free(s[..k], reject)
    requires k == |s| || s[k] in reject
    ensures StrCSpn(s, reject) == k
  {
    CSpnStops(s[..k], s[k..], reject);
    assert s[..k] + s[k..] == s;
  }

  // ---- the library calls -----------------------------------------------------------------------------

  method StrLen(buf: array<char>, i: nat, ghost s: string) returns (n: nat)
    requires StrAt(buf[..], i, s)
    ensures n == |s|
  {
    n := 0;
    StrAtChar(buf[..], i, s, 0);
    while buf[i + n] != NUL
      invariant n <= |s|
      invariant buf[i + n] == if n < |s| then s[n] else NUL
      decreases |s| - n
    {
      n := n + 1;
      StrAtChar(buf[..], i, s, n);
    }
  }

  /** strspn, with the negated set for strcspn. */
  method Span(buf: array<char>, i: nat, set_: set<char>, inside: bool, ghost s: string) returns (n: nat)
    requires StrAt(buf[..], i, s)
    ensures n == if inside then StrSpn(s, set_) else StrCSpn(s, set_)
  {
    n := 0;
    StrAtChar(buf[..], i, s, 0);
    while buf[i + n] != NUL && (buf[i + n] in set_) == inside
      invariant n <= |s|
      invariant buf[i + n] == if n < |s| then s[n] else NUL
      invariant forall j :: 0 <= j < n ==> (s[j] in set_) == inside
      decreases |s| - n
    {
      n := n + 1;
      StrAtChar(buf[..], i, s, n);
    }
    if inside {
      SpnIs(s, set_, n);
    } else {
      CSpnIs(s, set_, n);
    }
  }

  /** What one call leaves in memory. */
  ghost function Cut(mem: string, s: nat, str: string, t: Token): string {
    if t.Token? && t.end < |str| && s + t.end < |mem| then mem[s + t.end := NUL] else mem
  }

  /** A NUL inside a string makes two strings of it. */
  lemma CutHalves(mem: string, s: int, str: string, a: nat, e: nat)
    requires StrAt(mem, s, str) && a <= e < |str|
    ensures var mem' := mem[s + e := NUL];
            StrAt(mem', s + a, str[a..e]) && StrAt(mem', s + e + 1, str[e + 1..])
  {
    var mem' := mem[s + e := NUL];
    StrAtTail(mem, s, str, e + 1);
    assert Same(mem, mem', s, s + e + 1);
    StrAtSame(mem, mem', s, s + e + 1, s + e + 1, str[e + 1..]);
    assert mem'[s + a..s + e] == mem[s..s + |str|][a..e];
  }

  /** The effect of one call: the token and what is left behind it are strings of their own now,
      and nothing outside the string walked over has changed. */
  ghost predicate Tokenised(mem: string, mem': string, s: nat, str: string, delims: set<char>, tok: Option<nat>,
                            save: nat)
  {
    var t := StrTok(str, delims);
    && Same(mem, mem', s, s + |str|)
    && if t.NoToken? then tok == None && save == s + |str| && mem' == mem && StrAt(mem', save, "")
       else
         && tok == Some(s + t.start) && save == s + t.next
         && StrAt(mem', tok.value, Text(str, t)) && StrAt(mem', save, Rest(str, t))
  }

  lemma CutIsTokenised(mem: string, s: nat, str: string, delims: set<char>, tok: Option<nat>, save: nat)
    requires StrAt(mem, s, str)
    requires var t := StrTok(str, delims);
             if t.NoToken? then tok == None && save == s + |str| else tok == Some(s + t.start) && save == s + t.next
    ensures Tokenised(mem, Cut(mem, s, str, StrTok(str, delims)), s, str, delims, tok, save)
  {
    var t := StrTok(str, delims);
    hide StrTok, NoNul;
    if t.NoToken? {
      StrAtTail(mem, s, str, |str|);
    } else if t.end < |str| {
      CutHalves(mem, s, str, t.start, t.end);
    } else {
      StrAtTail(mem, s, str, t.start);
      StrAtTail(mem, s, str, t.end);
      assert str[t.start..t.end] == str[t.start..];
    }
  }

  method StrTokR(buf: array<char>, s: nat, delims: set<char>, ghost str: string) returns (tok: Option<nat>, save: nat)
    requires StrAt(buf[..], s, str)
    modifies buf
    ensures buf[..] == Cut(old(buf[..]), s, str, StrTok(str, delims))
    ensures Tokenised(old(buf[..]), buf[..], s, str, delims, tok, save)
  {
    tok, save := Walk(buf, s, delims, str);
    CutIsTokenised(old(buf[..]), s, str, delims, tok, save);
  }

  /** strtok_r(buf + s, delims, &save). */
  method Walk(buf: array<char>, s: nat, delims: set<char>, ghost str: string) returns (tok: Option<nat>, save: nat)
    requires StrAt(buf[..], s, str)
    modifies buf
    ensures var t := StrTok(str, delims);
            && buf[..] == Cut(old(buf[..]), s, str, t)
            && (t.NoToken? ==> tok == None && save == s + |str|)
            && (t.Token? ==> tok == Some(s + t.start) && save == s + t.next)
  {
    hide StrSpn, StrCSpn, StrAt, NoNul, Free;
    var k := Span(buf, s, delims, true, str);
    StrAtChar(buf[..], s, str, k);
    if buf[s + k] == NUL {
      return None, s + k;
    }
    StrAtTail(buf[..], s, str, k);
    var e := Span(buf, s + k, delims, false, str[k..]);
    StrAtChar(buf[..], s, str, k + e);
    if buf[s + k + e] == NUL {
      return Some(s + k), s + k + e;
    }
    buf[s + k + e] := NUL;
    return Some(s + k), s + k + e + 1;
  }
}
