/** The map builtins of sonar-lang/evaluator/map.go: `mapKeys`,
    `mapValues` and `mapEntries`.  Each loop of the source is a method
    proved to compute the function the builtin is defined by. */
module MapBuiltins {
  import opened Basics
  import opened Objects
  import opened State

  /** Every pair is stored under its key's own hash key, as the evaluator
      always stores them. */
  predicate KeyedRight(ps: seq<HashPair>) {
    forall i :: 0 <= i < |ps| ==> HashKeyOf(ps[i].key) == Some(ps[i].hkey)
  }

  function PairKeys(ps: seq<HashPair>): (r: seq<Object>)
    ensures |r| == |ps| && forall i :: 0 <= i < |ps| ==> r[i] == ps[i].key
  {
    seq(|ps|, i requires 0 <= i < |ps| => ps[i].key)
  }

  function PairValues(ps: seq<HashPair>): (r: seq<Object>)
    ensures |r| == |ps| && forall i :: 0 <= i < |ps| ==> r[i] == ps[i].value
  {
    seq(|ps|, i requires 0 <= i < |ps| => ps[i].value)
  }

  /** The loop of `mapKeys`. */
  method CollectKeys(ps: seq<HashPair>) returns (keys: seq<Object>)
    ensures keys == PairKeys(ps)
  {
    keys := [];
    for i := 0 to |ps|
      invariant keys == PairKeys(ps[..i])
    {
      assert ps[..i + 1][..i] == ps[..i];
      keys := keys + [ps[i].key];
    }
    assert ps[..|ps|] == ps;
  }

  /** The loop of `mapValues`. */
  method CollectValues(ps: seq<HashPair>) returns (values: seq<Object>)
    ensures values == PairValues(ps)
  {
    values := [];
    for i := 0 to |ps|
      invariant values == PairValues(ps[..i])
    {
      assert ps[..i + 1][..i] == ps[..i];
      values := values + [ps[i].value];
    }
    assert ps[..|ps|] == ps;
  }

  /** The type check the three builtins share, then the pairs. */
  function MapArgument(args: seq<Object>, st: State): (r: Res<Option<seq<HashPair>>>)
    requires |args| == 1
    ensures r == Done(None) <==> !args[0].Hash? && !args[0].Nil?
    ensures r.Done? && r.value.Some? ==> PairsOf(st, args[0]) == r.value
  {
    if args[0].Nil? then Fail(Crash)
    else if !args[0].Hash? then Done(None)
    else
      var ps := PairsOf(st, args[0]);
      if ps.None? then Fail(Crash) else Done(ps)
  }

  /** `mapKeys(m)`: a new array of m's keys. */
  function MapKeys(args: seq<Object>, st: State): (r: Outcome<Object>)
    ensures |args| != 1 ==> r == Out(Error(RequiresXArguments), st)
    ensures r.Out? ==> Extends(st, r.st)
    ensures |args| == 1 && PairsOf(st, args[0]).Some? ==>
      r.Out? && ElementsOf(r.st, r.value) == Some(PairKeys(PairsOf(st, args[0]).value))
  {
    if |args| != 1 then Out(Error(RequiresXArguments), st)
    else
      var m := MapArgument(args, st);
      if m.Fail? then Stop(m.halt)
      else if m.value.None? then Out(Error(ArgumentMustBe), st)
      else NewArray(st, PairKeys(m.value.value))
  }

  /** `mapValues(m)`: a new array of m's values. */
  function MapValues(args: seq<Object>, st: State): (r: Outcome<Object>)
    ensures |args| != 1 ==> r == Out(Error(RequiresXArguments), st)
    ensures r.Out? ==> Extends(st, r.st)
    ensures |args| == 1 && PairsOf(st, args[0]).Some? ==>
      r.Out? && ElementsOf(r.st, r.value) == Some(PairValues(PairsOf(st, args[0]).value))
  {
    if |args| != 1 then Out(Error(RequiresXArguments), st)
    else
      var m := MapArgument(args, st);
      if m.Fail? then Stop(m.halt)
      else if m.value.None? then Out(Error(ArgumentMustBe), st)
      else NewArray(st, PairValues(m.value.value))
  }

  /** `mapEntries(m)`: one new two-element array per pair, inside a new
      array. */
  function MapEntries(args: seq<Object>, st: State): (r: Outcome<Object>)
    ensures |args| != 1 ==> r == Out(Error(RequiresXArguments), st)
    ensures r.Out? ==> Extends(st, r.st)
    ensures |args| == 1 && PairsOf(st, args[0]).Some? ==>
      r.Out? && ElementsOf(r.st, r.value).Some? && |ElementsOf(r.st, r.value).value| == |PairsOf(st, args[0]).value|
  {
    if |args| != 1 then Out(Error(RequiresXArguments), st)
    else
      var m := MapArgument(args, st);
      if m.Fail? then Stop(m.halt)
      else if m.value.None? then Out(Error(ArgumentMustBe), st)
      else
        var (refs, st1) := NewArrays(st, HashIters(m.value.value));
        NewArray(st1, refs)
  }

  /** The second loop of `mapEntries`: one array allocated per entry. */
  method AllocateEntries(st: State, entries: seq<seq<Object>>) returns (result: seq<Object>, st': State)
    ensures (result, st') == NewArrays(st, entries)
  {
    result := [];
    st' := st;
    assert entries[0..] == entries;
    assert [] + NewArrays(st, entries).0 == NewArrays(st, entries).0;
    for i := 0 to |entries|
      invariant (var rest := NewArrays(st', entries[i..]); NewArrays(st, entries) == (result + rest.0, rest.1))
    {
      assert entries[i..][1..] == entries[i + 1..];
      var o := NewArray(st', entries[i]);
      var rest := NewArrays(o.st, entries[i + 1..]);
      assert result + ([o.value] + rest.0) == (result + [o.value]) + rest.0;
      result := result + [o.value];
      st' := o.st;
    }
    assert result + [] == result;
  }

  /** `mapKeys` gives a new array, leaves the map as it was, and holds one
      key per pair: every key of the map, each once, each finding its pair
      again. */
  lemma MapKeysAreTheKeys(st: State, m: Object)
    requires PairsOf(st, m).Some?
    ensures var ps := PairsOf(st, m).value;
      var r := MapKeys([m], st);
      r.Out? && PairsOf(r.st, m) == Some(ps) && ElementsOf(r.st, r.value) == Some(PairKeys(ps)) &&
      |PairKeys(ps)| == |ps| &&
      (KeyedRight(ps) ==> (set i | 0 <= i < |ps| :: HashKeyOf(PairKeys(ps)[i]).value) == Keys(ps)) &&
      (DistinctKeys(ps) && KeyedRight(ps) ==>
        forall i :: 0 <= i < |ps| ==> Lookup(ps, HashKeyOf(PairKeys(ps)[i]).value) == Some(ps[i]))
  {
    var ps := PairsOf(st, m).value;
    if DistinctKeys(ps) && KeyedRight(ps) {
      forall i | 0 <= i < |ps| ensures Lookup(ps, HashKeyOf(PairKeys(ps)[i]).value) == Some(ps[i]) {
        LookupFindsPair(ps, i);
      }
    }
  }

  /** `mapValues` gives a new array of one value per pair, each the value
      the map holds under that pair's key, and leaves the map as it was. */
  lemma MapValuesAreTheValues(st: State, m: Object)
    requires PairsOf(st, m).Some?
    ensures var ps := PairsOf(st, m).value;
      var r := MapValues([m], st);
      r.Out? && PairsOf(r.st, m) == Some(ps) && ElementsOf(r.st, r.value) == Some(PairValues(ps)) &&
      (DistinctKeys(ps) ==>
        forall i :: 0 <= i < |ps| ==> Lookup(ps, ps[i].hkey).Some? && Lookup(ps, ps[i].hkey).value.value == PairValues(ps)[i])
  {
    var ps := PairsOf(st, m).value;
    if DistinctKeys(ps) {
      forall i | 0 <= i < |ps| ensures Lookup(ps, ps[i].hkey) == Some(ps[i]) {
        LookupFindsPair(ps, i);
      }
    }
  }

  /** Each entry of `mapEntries` is a new array [k, v] where the map holds v
      under k; the map itself is unchanged. */
  lemma MapEntriesArePairs(st: State, m: Object)
    requires PairsOf(st, m).Some?
    ensures var ps := PairsOf(st, m).value;
      var r := MapEntries([m], st);
      r.Out? && PairsOf(r.st, m) == Some(ps) &&
      ElementsOf(r.st, r.value).Some? && |ElementsOf(r.st, r.value).value| == |ps| &&
      forall i :: 0 <= i < |ps| ==>
        var e := ElementsOf(r.st, ElementsOf(r.st, r.value).value[i]);
        e == Some([ps[i].key, ps[i].value]) &&
        (DistinctKeys(ps) && KeyedRight(ps) ==> Lookup(ps, HashKeyOf(e.value[0]).value) == Some(HashPair(ps[i].hkey, e.value[0], e.value[1])))
  {
    var ps := PairsOf(st, m).value;
    var ess := HashIters(ps);
    var (refs, st1) := NewArrays(st, ess);
    var r := MapEntries([m], st);
    assert r == NewArray(st1, refs);
    forall i | 0 <= i < |ps|
      ensures ElementsOf(r.st, refs[i]) == Some([ps[i].key, ps[i].value])
      ensures DistinctKeys(ps) && KeyedRight(ps) ==> Lookup(ps, ps[i].hkey) == Some(ps[i])
    {
      assert refs[i] == Arr(|st.heap| + i);
      assert r.st.heap[|st.heap| + i] == st1.heap[|st.heap| + i] == ArrayCell(ess[i]);
      if DistinctKeys(ps) { LookupFindsPair(ps, i); }
    }
  }

  /** A non-map argument is an error, nil panics. */
  lemma MapBuiltinErrors(st: State, o: Object)
    requires !o.Hash?
    ensures MapKeys([o], st) == MapValues([o], st) == MapEntries([o], st) ==
      (if o.Nil? then Stop(Crash) else Out(Error(ArgumentMustBe), st))
    ensures MapKeys([o, o], st) == Out(Error(RequiresXArguments), st)
  {
  }
}
