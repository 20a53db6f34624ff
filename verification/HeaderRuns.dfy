/** Whole histories of a header table: what a run of set and remove calls leaves in it. */
module HeaderRuns {
  import opened CStrings
  import opened HeaderTable

  datatype Op = Set(key: string, value: string) | Remove(key: string)

  function Apply(hs: seq<Header>, op: Op): seq<Header> {
    match op
    case Set(key, value) => SetHeader(hs, key, value)
    case Remove(key) => Without(hs, key)
  }

  function Run(ops: seq<Op>): seq<Header> {
    if ops == [] then [] else Apply(Run(ops[..|ops| - 1]), ops[|ops| - 1])
  }

  /** Position of the last call about a key, or -1. */
  function LastAbout(ops: seq<Op>, key: string): (k: int)
    ensures -1 <= k < |ops|
    ensures k >= 0 ==> ops[k].key == key
    ensures forall i :: k < i < |ops| ==> ops[i].key != key
  {
    if ops == [] then -1
    else if ops[|ops| - 1].key == key then |ops| - 1
    else LastAbout(ops[..|ops| - 1], key)
  }

  /** Keys stand in the order of the calls that set them. */
  ghost predicate InOrder(hs: seq<Header>, ops: seq<Op>) {
    forall i, j :: 0 <= i < j < |hs| ==> LastAbout(ops, hs[i].key) < LastAbout(ops, hs[j].key)
  }

  ghost predicate Before(hs: seq<Header>, ops: seq<Op>, bound: int) {
    forall i :: 0 <= i < |hs| ==> LastAbout(ops, hs[i].key) < bound
  }

  lemma SnocInOrder(hs: seq<Header>, h: Header, ops: seq<Op>)
    ensures InOrder(hs + [h], ops) <==> InOrder(hs, ops) && Before(hs, ops, LastAbout(ops, h.key))
    ensures forall bound :: Before(hs + [h], ops, bound) <==> Before(hs, ops, bound) && LastAbout(ops, h.key) < bound
  {
    hide LastAbout;
    var all := hs + [h];
    assert all[|hs|] == h && forall i :: 0 <= i < |hs| ==> all[i] == hs[i];
    if InOrder(all, ops) {
      forall i, j | 0 <= i < j < |hs|
        ensures LastAbout(ops, hs[i].key) < LastAbout(ops, hs[j].key)
      {
        assert LastAbout(ops, all[i].key) < LastAbout(ops, all[j].key);
      }
      forall i | 0 <= i < |hs|
        ensures LastAbout(ops, hs[i].key) < LastAbout(ops, h.key)
      {
        assert LastAbout(ops, all[i].key) < LastAbout(ops, all[|hs|].key);
      }
    }
    forall bound | Before(all, ops, bound)
      ensures Before(hs, ops, bound) && LastAbout(ops, h.key) < bound
    {
      assert LastAbout(ops, all[|hs|].key) < bound;
      forall i | 0 <= i < |hs|
        ensures LastAbout(ops, hs[i].key) < bound
      {
        assert LastAbout(ops, all[i].key) < bound;
      }
    }
  }

  /** Dropping a key keeps the order, also when a call about that key comes last. */
  lemma {:induction false} WithoutInOrder(hs: seq<Header>, ops: seq<Op>, op: Op)
    requires InOrder(hs, ops)
    ensures InOrder(Without(hs, op.key), ops + [op])
    ensures forall bound :: Before(hs, ops, bound) ==> Before(Without(hs, op.key), ops + [op], bound)
  {
    hide LastAbout, InOrder, Before;
    if hs == [] {
      NothingInOrder(ops);
      NothingInOrder(ops + [op]);
    } else {
      var init, last := hs[..|hs| - 1], hs[|hs| - 1];
      assert hs == init + [last];
      SnocInOrder(init, last, ops);
      WithoutInOrder(init, ops, op);
      if last.key != op.key {
        OtherKeyUnmoved(ops, op, last.key);
        SnocInOrder(Without(init, op.key), last, ops + [op]);
      }
    }
  }

  lemma NothingInOrder(ops: seq<Op>)
    ensures InOrder([], ops) && forall bound :: Before([], ops, bound)
  {
  }

  lemma OtherKeyUnmoved(ops: seq<Op>, op: Op, key: string)
    requires key != op.key
    ensures LastAbout(ops + [op], key) == LastAbout(ops, key)
  {
    assert (ops + [op])[..|ops|] == ops;
  }

  lemma AllBefore(hs: seq<Header>, ops: seq<Op>)
    ensures Before(hs, ops, |ops|)
  {
  }

  /** After any run, a key is present with the value of the last call about it when that call was a
      set and absent otherwise, no key is present twice, and keys stand in the order they were last
      set in. */
  lemma {:induction false} RunIsLastWrite(ops: seq<Op>, key: string)
    ensures var k := LastAbout(ops, key);
            Lookup(Run(ops), key) == if k >= 0 && ops[k].Set? then Some(ops[k].value) else None
    ensures DistinctKeys(Run(ops)) && InOrder(Run(ops), ops)
  {
    if ops != [] {
      var init, op := ops[..|ops| - 1], ops[|ops| - 1];
      assert ops == init + [op];
      RunIsLastWrite(init, key);
      LastStep(Run(init), init, op);
      LookupStep(Run(init), op, key);
      hide InOrder, DistinctKeys, Lookup, Without;
    }
  }

  lemma LookupStep(hs: seq<Header>, op: Op, key: string)
    requires DistinctKeys(hs)
    ensures DistinctKeys(Apply(hs, op))
    ensures Lookup(Apply(hs, op), key) ==
            if key != op.key then Lookup(hs, key) else if op.Set? then Some(op.value) else None
  {
    WithoutIsAbsent(hs, op.key);
    LookupAbsent(Without(hs, op.key), op.key);
    if op.Set? {
      SetThenLookup(hs, op.key, op.value, key);
    } else if key != op.key {
      LookupWithout(hs, op.key, key);
    }
  }

  lemma LastStep(hs: seq<Header>, ops: seq<Op>, op: Op)
    requires InOrder(hs, ops)
    ensures InOrder(Apply(hs, op), ops + [op])
  {
    WithoutInOrder(hs, ops, op);
    AllBefore(hs, ops);
    hide InOrder, Before;
    if op.Set? {
      SnocInOrder(Without(hs, op.key), Header(op.key, op.value), ops + [op]);
      assert LastAbout(ops + [op], op.key) == |ops|;
    }
  }
}
