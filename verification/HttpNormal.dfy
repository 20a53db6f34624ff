/** Header keys that span lines.  The parser looks for the colon of a line in everything that follows,
    so a line without one takes the colon of a later line, and the key runs across the line ends.
    Each such key is then read again from its second line, its third, and so on. */
module HttpNormal {
  import opened CStrings
  import opened HeaderTable
  import opened HttpMessage

  /** What is left of a key behind its first line end. */
  function Suffix(key: string): (s: Option<string>)
    ensures s.Some? ==> |s.value| < |key|
  {
    var n := Find(key, CRLF);
    if n < 0 then None else Some(key[n + 2..])
  }

  /** The key swallows a blank line. */
  predicate Blocked(key: string)
    decreases |key|
  {
    var s := Suffix(key);
    s.Some? && (AtCrLf(s.value) || Blocked(s.value))
  }

  datatype Chained = Chained(headers: seq<Header>, stopped: bool)

  /** The headers that reading one key, its later lines and their common value sets; a blank line in
      the key stops the reader. */
  function ReadChain(key: string, value: string, hs: seq<Header>): Chained
    decreases |key|
  {
    if AtCrLf(key) then Chained(hs, true)
    else
      var hs' := SetHeader(hs, key, value);
      match Suffix(key)
      case None => Chained(hs', false)
      case Some(k) => ReadChain(k, value, hs')
  }

  function ReadAll(hs: seq<Header>, acc: seq<Header>): Chained
    decreases |hs|
  {
    if hs == [] then Chained(acc, false)
    else
      var c := ReadChain(hs[0].key, hs[0].value, acc);
      if c.stopped then c else ReadAll(hs[1..], c.headers)
  }

  // ---- reading a key that spans lines ------------------------------------------------------------

  lemma SplitFront(a: string, b: string, n: nat)
    requires OccursAt(a, CRLF, n)
    ensures a + b == a[..n] + CRLF + (a[n + 2..] + b)
  {
  }

  lemma FindInFront(a: string, b: string)
    requires Find(a, CRLF) >= 0
    ensures Find(a + b, CRLF) == Find(a, CRLF)
  {
    var n := Find(a, CRLF);
    BeforeFirstCrLf(a);
    assert n + 2 <= |a|;
    hide Find, NoCrLf, OccursAt;
    SplitFront(a, b, n);
    FindCrLf(a[..n], a[n + 2..] + b);
  }

  lemma SplitBehind(a: string, b: string, n: nat)
    requires OccursAt(b, CRLF, n)
    ensures a + b == (a + b[..n]) + CRLF + b[n + 2..]
  {
  }

  lemma FrontNoCrLf(a: string, b: string, n: nat)
    requires NoCrLf(a) && n <= |b| && NoCrLf(b[..n]) && b != "" && b[0] == ':'
    ensures NoCrLf(a + b[..n])
  {
    assert n > 0 ==> b[..n][0] == ':';
    NoCrLfConcat(a, b[..n]);
  }

  lemma FindBehind(a: string, b: string)
    requires Find(a, CRLF) < 0 && Find(b, CRLF) >= 0 && b[0] == ':'
    ensures Find(a + b, CRLF) == |a| + Find(b, CRLF)
  {
    var n := Find(b, CRLF);
    BeforeFirstCrLf(a);
    BeforeFirstCrLf(b);
    assert n + 2 <= |b|;
    hide Find, NoCrLf, OccursAt;
    FrontNoCrLf(a, b, n);
    SplitBehind(a, b, n);
    FindCrLf(a + b[..n], b[n + 2..]);
  }

  /** A text that begins with a key and its colon. */
  predicate ValueBehind(tail: string, value: string) {
    && |tail| >= 2 && tail[0] == ':' && Find(tail[2..], CRLF) == |value| && 2 + |value| <= |tail|
    && tail[2..2 + |value|] == value && Find(tail, CRLF) >= 0 && Find(tail, CRLF) + 2 <= |tail|
  }

  lemma KeyCut(key: string, tail: string, value: string)
    requires Free(key, {':'}) && ValueBehind(tail, value)
    ensures var s := key + tail;
            && StrCSpn(s, {':'}) == |key| && |key| + 2 + |value| <= |s|
            && s[..|key|] == key && s[|key| + 2..|key| + 2 + |value|] == value
            && Find(s[|key| + 2..], CRLF) == |value|
  {
    hide StrCSpn, Find, Free;
    CSpnStops(key, tail, {':'});
    assert (key + tail)[|key| + 2..] == tail[2..];
  }

  lemma SuffixFree(key: string)
    requires Free(key, {':'}) && NoNul(key) && Suffix(key).Some?
    ensures Free(Suffix(key).value, {':'}) && NoNul(Suffix(key).value)
  {
  }

  lemma LastLineEnds(key: string, tail: string, value: string)
    requires ValueBehind(tail, value) && Suffix(key) == None
    ensures var s, n := key + tail, |key| + Find(tail, CRLF);
            Find(s, CRLF) == n && n + 2 <= |s| && s[n + 2..] == tail[Find(tail, CRLF) + 2..]
  {
    hide Find, OccursAt;
    FindBehind(key, tail);
    DropBehind(key, tail, Find(tail, CRLF) + 2);
  }

  lemma FirstLineEnds(key: string, tail: string)
    requires Suffix(key).Some?
    ensures var s, n := key + tail, Find(key, CRLF);
            n >= 0 && Find(s, CRLF) == n && n + 2 <= |s| && s[n + 2..] == Suffix(key).value + tail
  {
    var n := Find(key, CRLF);
    assert n + 2 <= |key|;
    hide Find, OccursAt;
    FindInFront(key, tail);
    DropFront(key, tail, n + 2);
  }

  lemma DropFront(a: string, b: string, k: nat)
    requires k <= |a|
    ensures (a + b)[k..] == a[k..] + b
  {
  }

  lemma DropBehind(a: string, b: string, k: nat)
    requires k <= |b|
    ensures (a + b)[|a| + k..] == b[k..]
  {
  }

  lemma LastLineReads(key: string, tail: string, value: string, hs: seq<Header>)
    requires Free(key, {':'}) && ValueBehind(tail, value) && !AtCrLf(key) && Suffix(key) == None
    ensures ReadHeaders(key + tail, hs) == ReadHeaders(tail[Find(tail, CRLF) + 2..], SetHeader(hs, key, value))
  {
    KeyCut(key, tail, value);
    BlankFront(key, tail);
    LastLineEnds(key, tail, value);
    hide *;
    ReadOne(key + tail, hs, key, value, |key| + Find(tail, CRLF), tail[Find(tail, CRLF) + 2..]);
  }

  lemma FirstLineReads(key: string, tail: string, value: string, hs: seq<Header>)
    requires Free(key, {':'}) && ValueBehind(tail, value) && !AtCrLf(key) && Suffix(key).Some?
    ensures ReadHeaders(key + tail, hs) == ReadHeaders(Suffix(key).value + tail, SetHeader(hs, key, value))
  {
    KeyCut(key, tail, value);
    BlankFront(key, tail);
    FirstLineEnds(key, tail);
    hide *;
    ReadOne(key + tail, hs, key, value, Find(key, CRLF), Suffix(key).value + tail);
  }

  lemma {:induction false} ChainReads(key: string, tail: string, value: string, hs: seq<Header>)
    requires Free(key, {':'}) && NoNul(key) && ValueBehind(tail, value)
    ensures var c := ReadChain(key, value, hs);
            ReadHeaders(key + tail, hs) ==
            if c.stopped then Headers(c.headers) else ReadHeaders(tail[Find(tail, CRLF) + 2..], c.headers)
    decreases |key|
  {
    hide Find, Free, NoNul, ReadHeaders, SetHeader, Suffix, AtCrLf;
    if AtCrLf(key) {
      BlankReads(key, tail, hs);
    } else if Suffix(key) == None {
      LastLineReads(key, tail, value, hs);
    } else {
      SuffixFree(key);
      FirstLineReads(key, tail, value, hs);
      ChainReads(Suffix(key).value, tail, value, SetHeader(hs, key, value));
    }
  }

  lemma BlankReads(key: string, tail: string, hs: seq<Header>)
    requires AtCrLf(key) && tail != "" && tail[0] == ':'
    ensures ReadHeaders(key + tail, hs) == Headers(hs)
  {
    BlankFront(key, tail);
  }

  // ---- what the parser leaves in the table ---------------------------------------------------------

  predicate TextOk(h: Header) {
    Free(h.key, {':'}) && NoNul(h.key) && NoCrLf(h.value) && NoNul(h.value)
  }

  predicate AllText(hs: seq<Header>) {
    forall i :: 0 <= i < |hs| ==> TextOk(hs[i])
  }

  predicate Plain(key: string) {
    !AtCrLf(key) && !Blocked(key)
  }

  predicate AllPlain(hs: seq<Header>) {
    forall i :: 0 <= i < |hs| ==> Plain(hs[i].key)
  }

  /** The later lines of every key are keys further on in the list, or in ps. */
  predicate ClosedUp(hs: seq<Header>, ps: set<string>) {
    hs == [] ||
    var last := hs[|hs| - 1];
    (Suffix(last.key).Some? ==> Suffix(last.key).value in ps) && ClosedUp(hs[..|hs| - 1], ps + {last.key})
  }

  /** A table all of whose keys are read again completely, in the course of reading the ones before. */
  predicate Settled(hs: seq<Header>, ps: set<string>) {
    AllText(hs) && AllPlain(hs) && DistinctKeys(hs) && ClosedUp(hs, ps)
  }

  function Pending(key: string): set<string> {
    if Suffix(key).Some? then {Suffix(key).value} else {}
  }

  lemma {:induction false} ClosedMore(hs: seq<Header>, ps: set<string>, more: set<string>)
    requires ClosedUp(hs, ps) && ps <= more
    ensures ClosedUp(hs, more)
  {
    hide Suffix;
    if hs != [] {
      ClosedMore(hs[..|hs| - 1], ps + {hs[|hs| - 1].key}, more + {hs[|hs| - 1].key});
    }
  }

  lemma {:induction false} ClosedWithout(hs: seq<Header>, key: string, ps: set<string>)
    requires ClosedUp(hs, ps)
    ensures ClosedUp(Without(hs, key), ps + {key})
  {
    hide Suffix;
    if hs != [] {
      var init, last := hs[..|hs| - 1], hs[|hs| - 1];
      ClosedWithout(init, key, ps + {last.key});
      if last.key == key {
        assert ps + {last.key} + {key} == ps + {key};
      } else {
        var rest := Without(init, key);
        assert (rest + [last])[..|rest|] == rest;
        assert ps + {last.key} + {key} == ps + {key} + {last.key};
      }
    }
  }

  lemma {:induction false} AllWithout(hs: seq<Header>, key: string)
    requires AllText(hs) && AllPlain(hs)
    ensures AllText(Without(hs, key)) && AllPlain(Without(hs, key))
  {
    hide TextOk, Plain;
    if hs != [] {
      AllWithout(hs[..|hs| - 1], key);
    }
  }

  lemma SnocClosed(hs: seq<Header>, h: Header, ps: set<string>)
    requires ClosedUp(hs, ps + {h.key}) && Pending(h.key) <= ps
    ensures ClosedUp(hs + [h], ps)
  {
    hide Suffix;
    assert (hs + [h])[..|hs|] == hs;
  }

  lemma SetSettles(hs: seq<Header>, h: Header, ps: set<string>)
    requires Settled(hs, ps) && ps <= {h.key} && TextOk(h) && Plain(h.key)
    ensures Settled(SetHeader(hs, h.key, h.value), Pending(h.key))
  {
    hide TextOk, Plain, ClosedUp, Pending, DistinctKeys;
    var rest := Without(hs, h.key);
    AllWithout(hs, h.key);
    WithoutIsAbsent(hs, h.key);
    SnocKeys(rest, h);
    ClosedWithout(hs, h.key, ps);
    ClosedMore(rest, ps + {h.key}, Pending(h.key) + {h.key});
    SnocClosed(rest, h, Pending(h.key));
  }

  lemma PlainSuffix(key: string)
    requires Plain(key) && Suffix(key).Some?
    ensures Plain(Suffix(key).value)
  {
  }

  /** A key without a blank line, read with all its later lines, leaves the table settled. */
  lemma {:induction false} ChainSettles(h: Header, hs: seq<Header>, ps: set<string>)
    requires Settled(hs, ps) && ps <= {h.key} && TextOk(h) && Plain(h.key)
    ensures var c := ReadChain(h.key, h.value, hs); !c.stopped && Settled(c.headers, {})
    decreases |h.key|
  {
    SetSettles(hs, h, ps);
    if Suffix(h.key).Some? {
      SuffixFree(h.key);
      PlainSuffix(h.key);
      hide Settled, SetHeader, Suffix, Blocked;
      ChainSettles(Header(Suffix(h.key).value, h.value), SetHeader(hs, h.key, h.value), Pending(h.key));
    }
  }

  // ---- a key with a blank line in it ----------------------------------------------------------------

  /** The headers set by a key that swallows a blank line: itself and its later lines before that. */
  function ChainList(key: string, value: string): seq<Header>
    decreases |key|
  {
    [Header(key, value)] +
    match Suffix(key)
    case None => []
    case Some(k) => if AtCrLf(k) then [] else ChainList(k, value)
  }

  /** Every key that swallows a blank line is longer than n. */
  predicate BlockedAbove(hs: seq<Header>, n: nat) {
    forall i :: 0 <= i < |hs| ==> !Blocked(hs[i].key) || |hs[i].key| > n
  }

  lemma BlockedIsNew(hs: seq<Header>, h: Header)
    requires BlockedAbove(hs, |h.key|) && Blocked(h.key)
    ensures SetHeader(hs, h.key, h.value) == hs + [h]
    ensures Suffix(h.key).Some? ==> BlockedAbove(hs + [h], |Suffix(h.key).value|)
  {
    hide Blocked;
    assert Absent(hs, h.key);
    WithoutIsAbsent(hs, h.key);
  }

  lemma BlockedStep(h: Header, hs: seq<Header>)
    requires Blocked(h.key) && !AtCrLf(h.key) && SetHeader(hs, h.key, h.value) == hs + [h]
    ensures Suffix(h.key).Some?
    ensures var k := Suffix(h.key).value;
            && ReadChain(h.key, h.value, hs) ==
               (if AtCrLf(k) then Chained(hs + [h], true) else ReadChain(k, h.value, hs + [h]))
            && ChainList(h.key, h.value) == [h] + (if AtCrLf(k) then [] else ChainList(k, h.value))
            && (!AtCrLf(k) ==> Blocked(k))
  {
    hide Suffix, AtCrLf, SetHeader;
  }

  lemma SnocAppend(hs: seq<Header>, h: Header, more: seq<Header>)
    ensures hs + [h] + more == hs + ([h] + more)
    ensures hs + [h] == hs + ([h] + [])
  {
  }

  lemma {:induction false} BlockedChain(h: Header, hs: seq<Header>)
    requires Blocked(h.key) && !AtCrLf(h.key) && BlockedAbove(hs, |h.key|)
    ensures var c := ReadChain(h.key, h.value, hs); c.stopped && c.headers == hs + ChainList(h.key, h.value)
    decreases |h.key|
  {
    BlockedIsNew(hs, h);
    BlockedStep(h, hs);
    hide BlockedAbove, Suffix, AtCrLf, SetHeader, Blocked, ReadChain, ChainList;
    var h' := Header(Suffix(h.key).value, h.value);
    SnocAppend(hs, h, ChainList(h'.key, h.value));
    if !AtCrLf(h'.key) {
      BlockedChain(h', hs + [h]);
    }
  }

  lemma {:induction false} ChainListText(h: Header)
    requires TextOk(h)
    ensures AllText(ChainList(h.key, h.value))
    decreases |h.key|
  {
    if Suffix(h.key).Some? {
      SuffixFree(h.key);
      hide Suffix, AtCrLf;
      ChainListText(Header(Suffix(h.key).value, h.value));
    }
  }

  // ---- every accepted text -----------------------------------------------------------------------------

  /** What parsing can leave: a settled table, and possibly behind it the headers of one key that
      swallows a blank line. */
  ghost predicate Normal(hs: seq<Header>) {
    exists base, h :: IsNormal(hs, base, h)
  }

  predicate IsNormal(hs: seq<Header>, base: seq<Header>, h: Option<Header>) {
    && Settled(base, {})
    && match h
       case None => hs == base
       case Some(h) => TextOk(h) && Blocked(h.key) && !AtCrLf(h.key) && hs == base + ChainList(h.key, h.value)
  }

  lemma LineText(rest: string, c: nat, e: nat)
    requires NoNul(rest) && StrCSpn(rest, {':'}) == c && c + 2 <= |rest| && Find(rest[c + 2..], CRLF) == e
    ensures c + 2 + e <= |rest| && TextOk(Header(rest[..c], rest[c + 2..c + 2 + e]))
  {
    hide Find, StrCSpn, NoCrLf;
    BeforeFirstCrLf(rest[c + 2..]);
    assert rest[c + 2..][..e] == rest[c + 2..c + 2 + e];
  }

  lemma TailParts(rest: string, c: nat, e: nat)
    requires c + 2 + e <= |rest|
    ensures rest == rest[..c] + rest[c..] && rest[c..][2..] == rest[c + 2..] && |rest[c..]| >= 2 + e
    ensures rest[c..][2..2 + e] == rest[c + 2..c + 2 + e]
  {
  }

  lemma ColonAt(rest: string, c: nat)
    requires StrCSpn(rest, {':'}) == c < |rest|
    ensures rest[c..][0] == ':'
  {
  }

  lemma TailHasValue(key: string, tail: string, behind: string, value: string)
    requires |tail| >= 2 + |value| && tail[0] == ':' && tail[2..2 + |value|] == value
    requires tail[2..] == behind && Find(behind, CRLF) == |value|
    ensures ValueBehind(tail, value)
    ensures AtCrLf(key + tail) <==> AtCrLf(key)
  {
    BlankFront(key, tail);
    LaterFind(tail, 2);
    hide Find, AtCrLf, OccursAt;
  }

  lemma LaterFind(s: string, k: nat)
    requires k <= |s| && Find(s[k..], CRLF) >= 0
    ensures Find(s, CRLF) >= 0 && Find(s, CRLF) + 2 <= |s|
  {
    var n := Find(s[k..], CRLF);
    CrLfOccurs(s[k..], n);
    CrLfOccurs(s, k + n);
  }

  lemma StoppedIffBlocked(key: string, value: string, hs: seq<Header>)
    requires !AtCrLf(key)
    ensures ReadChain(key, value, hs).stopped <==> Blocked(key)
    decreases |key|
  {
    hide Suffix, AtCrLf, SetHeader;
    if Suffix(key).Some? && !AtCrLf(Suffix(key).value) {
      StoppedIffBlocked(Suffix(key).value, value, SetHeader(hs, key, value));
    }
  }

  lemma PlainBelow(hs: seq<Header>, n: nat)
    requires AllPlain(hs)
    ensures BlockedAbove(hs, n)
  {
    hide Blocked, AtCrLf;
  }

  lemma SettledIsNormal(hs: seq<Header>)
    requires Settled(hs, {})
    ensures Normal(hs)
  {
    hide Settled;
    assert IsNormal(hs, hs, None);
  }

  lemma BlockedIsNormal(hs: seq<Header>, h: Header)
    requires Settled(hs, {}) && TextOk(h) && Blocked(h.key) && !AtCrLf(h.key)
    ensures ReadChain(h.key, h.value, hs).stopped && Normal(ReadChain(h.key, h.value, hs).headers)
  {
    PlainBelow(hs, |h.key|);
    hide Settled, Blocked, TextOk, ReadChain, ChainList, AtCrLf;
    BlockedChain(h, hs);
    assert IsNormal(hs + ChainList(h.key, h.value), hs, Some(h));
  }

  /** Whatever is parsed as header lines ends in a normal table. */
  lemma {:induction false} ParsedIsNormal(rest: string, hs: seq<Header>)
    requires NoNul(rest) && Settled(hs, {}) && ReadHeaders(rest, hs).Headers?
    ensures Normal(ReadHeaders(rest, hs).headers)
    decreases |rest|
  {
    hide Find, StrCSpn, Settled, SetHeader, AtCrLf, NoNul, TextOk, Free, Normal, ReadChain, Blocked, ValueBehind;
    if rest == "" || AtCrLf(rest) {
      SettledIsNormal(hs);
    } else {
      var c := StrCSpn(rest, {':'});
      var e := Find(rest[c + 2..], CRLF);
      LineText(rest, c, e);
      TailParts(rest, c, e);
      ColonAt(rest, c);
      var h, tail := Header(rest[..c], rest[c + 2..c + 2 + e]), rest[c..];
      TailHasValue(h.key, tail, rest[c + 2..], h.value);
      OneChain(rest, hs, h, tail);
    }
  }

  lemma OneChain(rest: string, hs: seq<Header>, h: Header, tail: string)
    requires NoNul(rest) && Settled(hs, {}) && ReadHeaders(rest, hs).Headers?
    requires rest == h.key + tail && TextOk(h) && ValueBehind(tail, h.value) && !AtCrLf(h.key)
    ensures Normal(ReadHeaders(rest, hs).headers)
    decreases |rest|, 0
  {
    hide *;
    TextIsFree(h);
    ChainReads(h.key, tail, h.value, hs);
    StoppedIffBlocked(h.key, h.value, hs);
    if Blocked(h.key) {
      BlockedIsNormal(hs, h);
    } else {
      ChainSettles(h, hs, {});
      RestNoNul(rest, h.key, tail, h.value);
      ParsedIsNormal(tail[Find(tail, CRLF) + 2..], ReadChain(h.key, h.value, hs).headers);
    }
  }

  lemma TextIsFree(h: Header)
    requires TextOk(h)
    ensures Free(h.key, {':'}) && NoNul(h.key)
    ensures Plain(h.key) <==> !AtCrLf(h.key) && !Blocked(h.key)
  {
  }

  lemma RestNoNul(rest: string, key: string, tail: string, value: string)
    requires NoNul(rest) && rest == key + tail && ValueBehind(tail, value)
    ensures var n := Find(tail, CRLF); n >= 0 && n + 2 <= |tail| && NoNul(tail[n + 2..]) && |tail[n + 2..]| < |rest|
  {
    hide Find;
    var n := Find(tail, CRLF);
    assert tail[n + 2..] == rest[|key| + n + 2..];
  }
}
