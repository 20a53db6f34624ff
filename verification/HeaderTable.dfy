/** The growable header array of a request, in which removal leaves tombstones. */
module HeaderTable {
  import opened CStrings

  const DEFAULT_NHDRS: nat := 8

  datatype Header = Header(key: string, value: string)

  /** One array element; a removed header keeps its slot with a null key. */
  datatype Slot = Slot(key: Option<string>, value: string)

  // ---- the abstract table: an insertion-ordered map -------------------------------------------

  function Without(hs: seq<Header>, key: string): seq<Header> {
    if hs == [] then []
    else
      var rest := Without(hs[..|hs| - 1], key);
      if hs[|hs| - 1].key == key then rest else rest + [hs[|hs| - 1]]
  }

  function SetHeader(hs: seq<Header>, key: string, value: string): seq<Header> {
    Without(hs, key) + [Header(key, value)]
  }

  function Lookup(hs: seq<Header>, key: string): Option<string> {
    if hs == [] then None
    else if hs[|hs| - 1].key == key then Some(hs[|hs| - 1].value)
    else Lookup(hs[..|hs| - 1], key)
  }

  predicate DistinctKeys(hs: seq<Header>) {
    forall i, j :: 0 <= i < j < |hs| ==> hs[i].key != hs[j].key
  }

  predicate Absent(hs: seq<Header>, key: string) {
    forall i :: 0 <= i < |hs| ==> hs[i].key != key
  }

  lemma SnocKeys(hs: seq<Header>, h: Header)
    ensures DistinctKeys(hs + [h]) <==> DistinctKeys(hs) && Absent(hs, h.key)
    ensures forall key :: Absent(hs + [h], key) <==> Absent(hs, key) && h.key != key
  {
    var all := hs + [h];
    assert all[|hs|] == h && forall i :: 0 <= i < |hs| ==> all[i] == hs[i];
    forall key | Absent(all, key)
      ensures Absent(hs, key)
    {
      forall i | 0 <= i < |hs|
        ensures hs[i].key != key
      {
        assert all[i].key != key;
      }
    }
    if DistinctKeys(all) {
      forall i | 0 <= i < |hs|
        ensures hs[i].key != h.key
      {
        assert all[i].key != all[|hs|].key;
      }
      forall i, j | 0 <= i < j < |hs|
        ensures hs[i].key != hs[j].key
      {
        assert all[i].key != all[j].key;
      }
    }
  }

  lemma {:induction false} WithoutIsAbsent(hs: seq<Header>, key: string)
    ensures Absent(Without(hs, key), key)
    ensures forall other :: Absent(hs, other) ==> Absent(Without(hs, key), other)
    ensures Absent(hs, key) ==> Without(hs, key) == hs
    ensures DistinctKeys(hs) ==> DistinctKeys(Without(hs, key))
  {
    if hs != [] {
      var init, last := hs[..|hs| - 1], hs[|hs| - 1];
      WithoutIsAbsent(init, key);
      assert hs == init + [last];
      SnocKeys(init, last);
      SnocKeys(Without(init, key), last);
      hide Absent, DistinctKeys;
    }
  }

  lemma {:induction false} LookupAbsent(hs: seq<Header>, key: string)
    ensures Lookup(hs, key) == None <==> Absent(hs, key)
  {
    if hs != [] {
      var init, last := hs[..|hs| - 1], hs[|hs| - 1];
      assert hs == init + [last];
      SnocKeys(init, last);
      LookupAbsent(init, key);
    }
  }

  lemma {:induction false} LookupWithout(hs: seq<Header>, key: string, other: string)
    requires other != key
    ensures Lookup(Without(hs, key), other) == Lookup(hs, other)
  {
    if hs != [] {
      var init, last := hs[..|hs| - 1], hs[|hs| - 1];
      LookupWithout(init, key, other);
      if last.key != key {
        assert (Without(init, key) + [last])[..|Without(init, key)|] == Without(init, key);
      }
    }
  }

  /** A set key is found with its value in the last place; every other key keeps value and order. */
  lemma SetThenLookup(hs: seq<Header>, key: string, value: string, other: string)
    requires DistinctKeys(hs)
    ensures var hs' := SetHeader(hs, key, value);
            && DistinctKeys(hs')
            && hs'[|hs'| - 1] == Header(key, value)
            && Without(hs', key) == Without(hs, key)
            && Lookup(hs', other) == if other == key then Some(value) else Lookup(hs, other)
  {
    var rest := Without(hs, key);
    var hs' := rest + [Header(key, value)];
    assert hs'[..|rest|] == rest;
    WithoutIsAbsent(hs, key);
    WithoutIsAbsent(rest, key);
    if other != key {
      LookupWithout(hs, key, other);
    }
  }

  // ---- the slots ---------------------------------------------------------------------------------

  function Live(slots: seq<Slot>): seq<Header> {
    if slots == [] then []
    else
      var rest := Live(slots[..|slots| - 1]);
      match slots[|slots| - 1].key
      case None => rest
      case Some(key) => rest + [Header(key, slots[|slots| - 1].value)]
  }

  predicate NoSlot(slots: seq<Slot>, key: string) {
    forall i :: 0 <= i < |slots| ==> slots[i].key != Some(key)
  }

  lemma LiveSnoc(init: seq<Slot>, last: Slot)
    ensures Live(init + [last]) ==
            match last.key case None => Live(init) case Some(key) => Live(init) + [Header(key, last.value)]
    ensures forall key :: NoSlot(init + [last], key) <==> NoSlot(init, key) && last.key != Some(key)
  {
    var all := init + [last];
    assert all[..|init|] == init && all[|init|] == last;
    assert forall i :: 0 <= i < |init| ==> all[i] == init[i];
    forall key | NoSlot(all, key)
      ensures NoSlot(init, key)
    {
      forall i | 0 <= i < |init|
        ensures init[i].key != Some(key)
      {
        assert all[i].key != Some(key);
      }
    }
  }

  lemma {:induction false} LiveAbsent(slots: seq<Slot>, key: string)
    ensures NoSlot(slots, key) <==> Absent(Live(slots), key)
  {
    if slots != [] {
      var init, last := slots[..|slots| - 1], slots[|slots| - 1];
      assert slots == init + [last];
      LiveAbsent(init, key);
      LiveSnoc(init, last);
      if last.key.Some? {
        SnocKeys(Live(init), Header(last.key.value, last.value));
      }
    }
  }

  /** Turning the slot of a key into a tombstone removes exactly that key. */
  lemma {:induction false} LiveWithout(slots: seq<Slot>, k: nat, key: string, value: string)
    requires k < |slots| && slots[k].key == Some(key)
    requires DistinctKeys(Live(slots))
    ensures Live(slots[k := Slot(None, value)]) == Without(Live(slots), key)
    ensures Lookup(Live(slots), key) == Some(slots[k].value)
  {
    var n := |slots| - 1;
    var init, last := slots[..n], slots[n];
    assert slots == init + [last];
    LiveSnoc(init, last);
    if k == n {
      LiveLast(init, last, key, value);
      assert slots[k := Slot(None, value)] == init + [Slot(None, value)];
    } else {
      var init' := init[k := Slot(None, value)];
      assert slots[k := Slot(None, value)] == init' + [last];
      LiveSnoc(init', last);
      if last.key.Some? {
        SnocKeys(Live(init), Header(last.key.value, last.value));
      }
      LiveWithout(init, k, key, value);
      LiveEarlier(init, last, key);
    }
  }

  lemma LiveLast(init: seq<Slot>, last: Slot, key: string, value: string)
    requires last.key == Some(key) && DistinctKeys(Live(init + [last]))
    ensures Live(init + [Slot(None, value)]) == Without(Live(init + [last]), key)
    ensures Lookup(Live(init + [last]), key) == Some(last.value)
  {
    var h := Header(key, last.value);
    LiveSnoc(init, last);
    LiveSnoc(init, Slot(None, value));
    SnocKeys(Live(init), h);
    assert (Live(init) + [h])[..|Live(init)|] == Live(init);
    WithoutIsAbsent(Live(init), key);
  }

  lemma LiveEarlier(init: seq<Slot>, last: Slot, key: string)
    requires DistinctKeys(Live(init + [last])) && Lookup(Live(init), key).Some?
    ensures last.key != Some(key)
    ensures Lookup(Live(init + [last]), key) == Lookup(Live(init), key)
    ensures Without(Live(init + [last]), key) ==
            match last.key case None => Without(Live(init), key)
                           case Some(other) => Without(Live(init), key) + [Header(other, last.value)]
  {
    LiveSnoc(init, last);
    LookupAbsent(Live(init), key);
    if last.key.Some? {
      var h := Header(last.key.value, last.value);
      SnocKeys(Live(init), h);
      assert (Live(init) + [h])[..|Live(init)|] == Live(init);
    }
  }

  /** Appending the slot of a key that has just been removed sets the key. */
  lemma SetAppends(before: seq<Header>, slots: seq<Slot>, key: string, value: string)
    requires DistinctKeys(before) && Live(slots) == Without(before, key)
    ensures Live(slots + [Slot(Some(key), value)]) == SetHeader(before, key, value)
    ensures DistinctKeys(SetHeader(before, key, value))
  {
    hide Live, Without, DistinctKeys, Absent;
    LiveSnoc(slots, Slot(Some(key), value));
    WithoutIsAbsent(before, key);
    SnocKeys(Without(before, key), Header(key, value));
  }

  // ---- the table ---------------------------------------------------------------------------------

  function Max(a: nat, b: nat): nat {
    if a >= b then a else b
  }

  class Table {
    var headers: array<Slot>
    var headersUsed: nat
    var headersLen: nat

    ghost predicate Valid()
      reads this, headers
    {
      && headersLen == headers.Length && headersUsed < headersLen
      && headersLen <= Max(DEFAULT_NHDRS, 2 * headersUsed)
      && DistinctKeys(Live(headers[..headersUsed]))
    }

    ghost function Contents(): seq<Header>
      reads this, headers
      requires headersUsed <= headers.Length
    {
      Live(headers[..headersUsed])
    }

    constructor ()
      ensures Valid() && fresh(headers) && Contents() == [] && headersUsed == 0 && headersLen == 8
    {
      headers := new Slot[DEFAULT_NHDRS](_ => Slot(None, ""));
      headersUsed, headersLen := 0, DEFAULT_NHDRS;
    }

    /** ParsedHeader_get: the index of the slot whose key is live and equal. */
    method Get(key: string) returns (slot: Option<nat>)
      requires Valid()
      ensures slot == None <==> Lookup(Contents(), key) == None
      ensures slot.Some? ==>
                && slot.value < headersUsed && headers[slot.value].key == Some(key)
                && Lookup(Contents(), key) == Some(headers[slot.value].value)
    {
      var i := 0;
      ghost var slots := headers[..headersUsed];
      LiveAbsent(slots, key);
      LookupAbsent(Live(slots), key);
      while i < headersUsed
        invariant 0 <= i <= headersUsed
        invariant forall j :: 0 <= j < i ==> headers[j].key != Some(key)
      {
        if headers[i].key == Some(key) {
          LiveWithout(slots, i, key, "");
          return Some(i);
        }
        i := i + 1;
      }
      assert NoSlot(slots, key);
      return None;
    }

    /** ParsedHeader_remove: the slot stays, its key becomes null. */
    method Remove(key: string) returns (r: int)
      requires Valid()
      modifies headers
      ensures Valid()
      ensures Contents() == Without(old(Contents()), key)
      ensures r == if Lookup(old(Contents()), key) == None then -1 else 0
      ensures headersUsed == old(headersUsed) && headersLen == old(headersLen) && headers == old(headers)
    {
      ghost var slots := headers[..headersUsed];
      WithoutIsAbsent(Live(slots), key);
      LookupAbsent(Live(slots), key);
      var tmp := Get(key);
      if tmp == None {
        return -1;
      }
      LiveWithout(slots, tmp.value, key, headers[tmp.value].value);
      headers[tmp.value] := Slot(None, headers[tmp.value].value);
      assert headers[..headersUsed] == slots[tmp.value := Slot(None, slots[tmp.value].value)];
      return 0;
    }

    /** realloc to twice the length. */
    method Grow()
      requires headersLen == headers.Length && headersUsed <= headersLen
      modifies this
      ensures headersLen == 2 * old(headersLen) == headers.Length && fresh(headers)
      ensures headersUsed == old(headersUsed) && headers[..headersUsed] == old(headers[..headersUsed])
    {
      var bigger := new Slot[2 * headersLen](_ => Slot(None, ""));
      forall i | 0 <= i < headersUsed {
        bigger[i] := headers[i];
      }
      headersLen := headersLen * 2;
      headers := bigger;
    }

    /** ParsedHeader_set: remove the key, make room, append. */
    method Set(key: string, value: string)
      requires Valid()
      modifies this, headers
      ensures Valid() && (headers == old(headers) || fresh(headers))
      ensures Contents() == SetHeader(old(Contents()), key, value)
    {
      hide Live, DistinctKeys, Without, SetHeader;
      ghost var before := Contents();
      var _ := Remove(key);
      if headersLen <= headersUsed + 1 {
        Grow();
      }
      ghost var slots := headers[..headersUsed];
      headers[headersUsed] := Slot(Some(key), value);
      headersUsed := headersUsed + 1;
      assert headers[..headersUsed] == slots + [Slot(Some(key), value)];
      SetAppends(before, slots, key, value);
    }
  }
}
