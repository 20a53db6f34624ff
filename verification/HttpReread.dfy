/** Printing a normal table and reading it again gives the same table. */
module HttpReread {
  import opened CStrings
  import opened HeaderTable
  import opened HttpMessage
  import opened HttpNormal

  // ---- the printed text is read header by header -------------------------------------------------

  lemma ValueParts(value: string, rest: string)
    ensures var tail := ": " + value + CRLF + rest;
            && |tail| >= |value| + 4 && tail[0] == ':' && tail[2..] == value + CRLF + rest
            && tail[2..2 + |value|] == value && tail[|value| + 4..] == rest
  {
  }

  lemma PrintedValue(value: string, rest: string)
    requires NoCrLf(value)
    ensures var tail := ": " + value + CRLF + rest;
            ValueBehind(tail, value) && tail[Find(tail, CRLF) + 2..] == rest
  {
    NoCrLfConcat(": ", value);
    hide Find, NoCrLf, OccursAt;
    ValueParts(value, rest);
    FindCrLf(value, rest);
    FindCrLf(": " + value, rest);
  }

  lemma LineThenRest(h: Header, rest: string)
    ensures HeaderLine(h) + rest == h.key + (": " + h.value + CRLF + rest)
  {
  }

  lemma PrintedLineReads(h: Header, rest: string, acc: seq<Header>)
    requires TextOk(h)
    ensures var c := ReadChain(h.key, h.value, acc);
            ReadHeaders(HeaderLine(h) + rest, acc) ==
            if c.stopped then Headers(c.headers) else ReadHeaders(rest, c.headers)
  {
    PrintedValue(h.value, rest);
    LineThenRest(h, rest);
    hide Find, NoCrLf, NoNul, Free, HeaderLine, ReadHeaders, ReadChain, ValueBehind;
    ChainReads(h.key, ": " + h.value + CRLF + rest, h.value, acc);
  }

  lemma EndReads(acc: seq<Header>)
    ensures ReadHeaders("" + CRLF, acc) == Headers(acc)
  {
    assert AtCrLf("" + CRLF);
  }

  lemma {:induction false} PrintedRead(hs: seq<Header>, acc: seq<Header>)
    requires AllText(hs)
    ensures ReadHeaders(PrintHeaders(hs) + CRLF, acc) == Headers(ReadAll(hs, acc).headers)
    decreases |hs|
  {
    if hs == [] {
      EndReads(acc);
    } else {
      var h, rest := hs[0], hs[1..];
      assert TextOk(h) && AllText(rest);
      PrintHeadersFront(hs);
      hide AllText, TextOk, ReadHeaders, PrintHeaders, HeaderLine, ReadChain;
      var text := PrintHeaders(rest) + CRLF;
      assert PrintHeaders(hs) + CRLF == HeaderLine(h) + text;
      PrintedLineReads(h, text, acc);
      var c := ReadChain(h.key, h.value, acc);
      if !c.stopped {
        PrintedRead(rest, c.headers);
      }
    }
  }

  // ---- keys ------------------------------------------------------------------------------------------

  function KeySet(hs: seq<Header>): set<string> {
    if hs == [] then {} else KeySet(hs[..|hs| - 1]) + {hs[|hs| - 1].key}
  }

  lemma {:induction false} KeySetFront(hs: seq<Header>)
    requires hs != []
    ensures KeySet(hs) == {hs[0].key} + KeySet(hs[1..])
  {
    if |hs| > 1 {
      var init := hs[..|hs| - 1];
      KeySetFront(init);
      assert hs[1..][..|hs| - 2] == init[1..];
    }
  }

  lemma {:induction false} KeySetAt(hs: seq<Header>, i: nat)
    requires i < |hs|
    ensures hs[i].key in KeySet(hs)
  {
    if i < |hs| - 1 {
      KeySetAt(hs[..|hs| - 1], i);
    }
  }

  lemma {:induction false} KeySetHas(hs: seq<Header>, key: string) returns (i: nat)
    requires key in KeySet(hs)
    ensures i < |hs| && hs[i].key == key
  {
    if hs[|hs| - 1].key == key {
      i := |hs| - 1;
    } else {
      i := KeySetHas(hs[..|hs| - 1], key);
    }
  }

  /** The later lines of keys in ks are in ks again. */
  predicate SuffixClosed(ks: set<string>) {
    forall k :: k in ks && Suffix(k).Some? ==> Suffix(k).value in ks
  }

  lemma {:induction false} ClosedKeys(hs: seq<Header>, ps: set<string>, key: string)
    requires ClosedUp(hs, ps) && key in KeySet(hs) && Suffix(key).Some?
    ensures Suffix(key).value in KeySet(hs) + ps
  {
    hide Suffix;
    var last := hs[|hs| - 1];
    if last.key != key {
      ClosedKeys(hs[..|hs| - 1], ps + {last.key}, key);
    }
  }

  lemma {:induction false} ClosedTail(hs: seq<Header>, ps: set<string>)
    requires ClosedUp(hs, ps) && hs != []
    ensures ClosedUp(hs[1..], ps)
  {
    hide Suffix;
    if |hs| > 1 {
      var init, last := hs[..|hs| - 1], hs[|hs| - 1];
      ClosedTail(init, ps + {last.key});
      assert hs[1..][..|hs| - 2] == init[1..];
    }
  }

  lemma TailSuffixClosed(hs: seq<Header>)
    requires ClosedUp(hs, {})
    ensures SuffixClosed(KeySet(hs))
  {
    hide ClosedUp, KeySet, Suffix;
    forall k | k in KeySet(hs) && Suffix(k).Some?
      ensures Suffix(k).value in KeySet(hs)
    {
      ClosedKeys(hs, {}, k);
    }
  }

  /** The later lines of the first key are keys behind it. */
  lemma FirstSuffixBehind(hs: seq<Header>)
    requires ClosedUp(hs, {}) && hs != [] && Suffix(hs[0].key).Some?
    ensures Suffix(hs[0].key).value in KeySet(hs[1..])
  {
    hide ClosedUp, KeySet;
    KeySetFront(hs);
    ClosedKeys(hs, {}, hs[0].key);
  }

  // ---- dropping keys that come again -----------------------------------------------------------------

  function DropKeys(hs: seq<Header>, ks: set<string>): seq<Header> {
    if hs == [] then []
    else
      var rest := DropKeys(hs[..|hs| - 1], ks);
      if hs[|hs| - 1].key in ks then rest else rest + [hs[|hs| - 1]]
  }

  lemma DropSnoc(hs: seq<Header>, h: Header, ks: set<string>)
    ensures DropKeys(hs + [h], ks) == if h.key in ks then DropKeys(hs, ks) else DropKeys(hs, ks) + [h]
  {
    assert (hs + [h])[..|hs|] == hs;
  }

  lemma {:induction false} DropWithout(hs: seq<Header>, key: string, ks: set<string>)
    ensures DropKeys(Without(hs, key), ks) == DropKeys(hs, ks + {key})
  {
    if hs != [] {
      var init, last := hs[..|hs| - 1], hs[|hs| - 1];
      DropWithout(init, key, ks);
      if last.key != key {
        DropSnoc(Without(init, key), last, ks);
      }
    }
  }

  lemma {:induction false} DropNone(hs: seq<Header>)
    ensures DropKeys(hs, {}) == hs
  {
    if hs != [] {
      DropNone(hs[..|hs| - 1]);
    }
  }

  /** Setting a key that comes again later makes no difference to what will be left. */
  lemma DropSet(hs: seq<Header>, h: Header, ks: set<string>)
    ensures DropKeys(SetHeader(hs, h.key, h.value), ks) ==
            if h.key in ks then DropKeys(hs, ks) else DropKeys(hs, ks + {h.key}) + [h]
  {
    DropWithout(hs, h.key, ks);
    DropSnoc(Without(hs, h.key), h, ks);
    assert h.key in ks ==> ks + {h.key} == ks;
  }

  lemma {:induction false} DropChain(key: string, value: string, hs: seq<Header>, ks: set<string>)
    requires key in ks && SuffixClosed(ks) && Plain(key)
    ensures var c := ReadChain(key, value, hs); !c.stopped && DropKeys(c.headers, ks) == DropKeys(hs, ks)
    decreases |key|
  {
    DropSet(hs, Header(key, value), ks);
    if Suffix(key).Some? {
      PlainSuffix(key);
      assert Suffix(key).value in ks;
      hide SuffixClosed, Suffix, SetHeader, DropKeys;
      DropChain(Suffix(key).value, value, SetHeader(hs, key, value), ks);
    }
  }

  /** Reading the first header of a list, when the later lines of its key come again behind it. */
  lemma DropFirst(h: Header, acc: seq<Header>, ks: set<string>)
    requires h.key !in ks && SuffixClosed(ks) && Plain(h.key)
    requires Suffix(h.key).Some? ==> Suffix(h.key).value in ks
    ensures var c := ReadChain(h.key, h.value, acc);
            !c.stopped && DropKeys(c.headers, ks) == DropKeys(acc, ks + {h.key}) + [h]
  {
    DropSet(acc, h, ks);
    if Suffix(h.key).Some? {
      PlainSuffix(h.key);
      hide SuffixClosed, Suffix, SetHeader, DropKeys;
      DropChain(Suffix(h.key).value, h.value, SetHeader(acc, h.key, h.value), ks);
    }
  }

  // ---- a settled table ---------------------------------------------------------------------------------

  lemma {:induction false} AbsentKey(hs: seq<Header>, key: string)
    requires Absent(hs, key)
    ensures key !in KeySet(hs)
  {
    if hs != [] {
      AbsentKey(hs[..|hs| - 1], key);
    }
  }

  lemma FirstKeyOnce(hs: seq<Header>)
    requires DistinctKeys(hs) && hs != []
    ensures hs[0].key !in KeySet(hs[1..])
  {
    hide KeySet;
    assert Absent(hs[1..], hs[0].key);
    AbsentKey(hs[1..], hs[0].key);
  }

  lemma SettledTail(hs: seq<Header>)
    requires Settled(hs, {}) && hs != []
    ensures Settled(hs[1..], {}) && Plain(hs[0].key) && hs[0].key !in KeySet(hs[1..])
    ensures SuffixClosed(KeySet(hs[1..])) && KeySet(hs) == KeySet(hs[1..]) + {hs[0].key}
    ensures Suffix(hs[0].key).Some? ==> Suffix(hs[0].key).value in KeySet(hs[1..])
  {
    hide ClosedUp, Plain, TextOk, KeySet, Suffix, SuffixClosed;
    ClosedTail(hs, {});
    TailSuffixClosed(hs[1..]);
    KeySetFront(hs);
    if Suffix(hs[0].key).Some? {
      FirstSuffixBehind(hs);
    }
    FirstKeyOnce(hs);
  }

  lemma RereadFirst(todo: seq<Header>, acc: seq<Header>)
    requires Settled(todo, {}) && todo != []
    ensures var c := ReadChain(todo[0].key, todo[0].value, acc);
            && !c.stopped && ReadAll(todo, acc) == ReadAll(todo[1..], c.headers)
            && DropKeys(c.headers, KeySet(todo[1..])) == DropKeys(acc, KeySet(todo)) + [todo[0]]
  {
    SettledTail(todo);
    hide Settled, KeySet, DropKeys, SuffixClosed, Suffix, Plain, ReadChain;
    DropFirst(todo[0], acc, KeySet(todo[1..]));
  }

  lemma NothingLeft(acc: seq<Header>)
    ensures DropKeys(acc, KeySet([])) + [] == ReadAll([], acc).headers && !ReadAll([], acc).stopped
  {
    DropNone(acc);
  }

  lemma Joined(after: seq<Header>, before: seq<Header>, todo: seq<Header>)
    requires todo != [] && after == before + [todo[0]]
    ensures before + todo == after + todo[1..]
  {
  }

  /** Reading a settled table leaves what comes before it and the table itself, in order. */
  lemma {:induction false} RereadSettled(todo: seq<Header>, acc: seq<Header>)
    requires Settled(todo, {})
    ensures !ReadAll(todo, acc).stopped && DropKeys(acc, KeySet(todo)) + todo == ReadAll(todo, acc).headers
    decreases |todo|
  {
    if todo == [] {
      NothingLeft(acc);
    } else {
      SettledTail(todo);
      RereadFirst(todo, acc);
      hide *;
      var acc' := ReadChain(todo[0].key, todo[0].value, acc).headers;
      RereadSettled(todo[1..], acc');
      Joined(DropKeys(acc', KeySet(todo[1..])), DropKeys(acc, KeySet(todo)), todo);
    }
  }

  lemma {:induction false} ReadAllConcat(a: seq<Header>, b: seq<Header>, acc: seq<Header>)
    ensures var c := ReadAll(a, acc);
            ReadAll(a + b, acc) == if c.stopped then c else ReadAll(b, c.headers)
    decreases |a|
  {
    if a == [] {
      assert a + b == b;
    } else {
      assert (a + b)[0] == a[0] && (a + b)[1..] == a[1..] + b;
      hide ReadChain;
      ReadAllConcat(a[1..], b, ReadChain(a[0].key, a[0].value, acc).headers);
    }
  }

  lemma RereadBase(base: seq<Header>)
    requires Settled(base, {})
    ensures ReadAll(base, []) == Chained(base, false)
  {
    hide Settled;
    assert DropKeys([], KeySet(base)) == [];
    RereadSettled(base, []);
    assert [] + base == base;
  }

  lemma RereadBlocked(base: seq<Header>, h: Header)
    requires Settled(base, {}) && Blocked(h.key) && !AtCrLf(h.key)
    ensures ReadAll(ChainList(h.key, h.value), base).headers == base + ChainList(h.key, h.value)
  {
    PlainBelow(base, |h.key|);
    var list := ChainList(h.key, h.value);
    assert list[0] == h;
    hide Settled, Blocked, ReadChain, ChainList, AtCrLf;
    BlockedChain(h, base);
  }

  /** A normal table survives printing and reading. */
  lemma RereadNormal(hs: seq<Header>)
    requires Normal(hs)
    ensures ReadAll(hs, []).headers == hs
  {
    hide Settled, Blocked, TextOk, AtCrLf, ChainList;
    var base, h :| IsNormal(hs, base, h);
    RereadBase(base);
    if h.Some? {
      ReadAllConcat(base, ChainList(h.value.key, h.value.value), []);
      RereadBlocked(base, h.value);
    }
  }

  lemma NormalText(hs: seq<Header>)
    requires Normal(hs)
    ensures AllText(hs)
  {
    hide ClosedUp, Blocked, TextOk, AtCrLf, ChainList;
    var base, h :| IsNormal(hs, base, h);
    if h.Some? {
      ChainListText(h.value);
    }
  }

  lemma {:induction false} PrintNoNul(hs: seq<Header>)
    requires AllText(hs)
    ensures NoNul(PrintHeaders(hs))
  {
    if hs != [] {
      PrintNoNul(hs[..|hs| - 1]);
      assert TextOk(hs[|hs| - 1]);
    }
  }

  /** The headers of every accepted text come back from their printed form. */
  lemma NormalRoundTrip(hs: seq<Header>)
    requires Normal(hs)
    ensures ReadHeaders(PrintHeaders(hs) + CRLF, []) == Headers(hs) && NoNul(PrintHeaders(hs))
  {
    hide Normal, AllText, ReadHeaders, PrintHeaders, ReadAll, NoNul;
    NormalText(hs);
    PrintedRead(hs, []);
    RereadNormal(hs);
    PrintNoNul(hs);
  }
}
