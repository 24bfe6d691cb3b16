/** The conversion builtins of sonar-lang/evaluator/types.go:
    `convertable`, `str`, `int`, `float` and `map`.  Parsing a string as a
    float64 (`strconv.ParseFloat`) and float objects are not modelled; a
    conversion that needs them stops as Unmodelled. */
module TypesBuiltins {
  import opened Basics
  import opened Objects
  import opened State
  import opened Operators

  /** `toInteger`: an integer as it is; floats and the parse of a string
      are not modelled; any other object is an illegal conversion. */
  function ToInteger(from: Object): (r: Res<Object>)
    ensures from.Integer? ==> r == Done(from)
    ensures from.Nil? ==> r == Fail(Crash)
    ensures !from.Integer? && !from.Str? && !from.Nil? ==> r == Done(Error(IllegalConversion))
  {
    if from.Nil? then Fail(Crash)
    else if from.Str? then Fail(Unmodelled)
    else if from.Integer? then Done(from)
    else Done(Error(IllegalConversion))
  }

  /** `toFloat`: every successful conversion yields a float, which is not
      modelled; the other objects are an illegal conversion. */
  function ToFloat(from: Object): (r: Res<Object>)
    ensures from.Integer? || from.Str? ==> r == Fail(Unmodelled)
    ensures !from.Integer? && !from.Str? && !from.Nil? ==> r == Done(Error(IllegalConversion))
  {
    if from.Nil? then Fail(Crash)
    else if from.Str? || from.Integer? then Fail(Unmodelled)
    else Done(Error(IllegalConversion))
  }

  /** `float(value)` reaches a float: the conversion produces one (a result
      this model leaves out, hence `Unmodelled`) rather than an error. */
  predicate FloatConvertible(value: Object) {
    ToFloat(value) == Fail(Unmodelled)
  }

  /** Whether `convertable(value, to)` holds, by the upper-cased text of
      `to`: anything converts to a string, an integer to an integer or a
      float, an array to a map, and nothing to any other type. */
  function ConvertsTo(value: Object, target: string): Res<bool> {
    if target == "STRING" then Done(true)
    else if target == "INTEGER" then
      if value.Nil? then Fail(Crash)
      else if value.Str? then Fail(Unmodelled)
      else Done(value.Integer?)
    else if target == "FLOAT" then
      if value.Nil? then Fail(Crash)
      else if value.Str? then Fail(Unmodelled)
      else Done(value.Integer?)
    else if target == "MAP" then
      if value.Nil? then Fail(Crash) else Done(value.Arr?)
    else Done(false)
  }

  /** `convertable(value, to)`: a boolean allocated on its own. */
  function Convertable(args: seq<Object>, st: State): (r: Outcome<Object>)
    ensures |args| != 2 ==> r == Out(Error(RequiresXArguments), st)
    ensures r.Out? && |args| == 2 ==> r.value.Boolean? && r.st == st.(next := st.next + 1)
    ensures |args| == 2 && !args[0].Nil? && TextOf(st, args[1]).Done? && ToUpper(TextOf(st, args[1]).value) == "STRING" ==>
      r.Out? && r.value.boolValue
  {
    if |args| != 2 then Out(Error(RequiresXArguments), st)
    else
      var to := TextOf(st, args[1]);
      if to.Fail? then Stop(to.halt)
      else
        var ok := ConvertsTo(args[0], ToUpper(to.value));
        if ok.Fail? then Stop(ok.halt) else NewBoolean(st, ok.value)
  }

  /** `convertable` agrees with the conversions themselves: an integer
      target is reached exactly when `int` gives an integer, a float
      target exactly when `float` produces a float, a map target exactly when
      `map` accepts the value. */
  lemma ConvertableMatchesConversions(value: Object)
    requires !value.Nil? && !value.Str?
    ensures ConvertsTo(value, "INTEGER") == Done(ToInteger(value).value.Integer?)
    ensures ConvertsTo(value, "FLOAT") == Done(FloatConvertible(value))
    ensures ConvertsTo(value, "MAP") == Done(value.Arr?)
    ensures ConvertsTo(value, "STRING") == Done(true)
    ensures ConvertsTo(value, "BOOLEAN") == Done(false)
  {
  }

  /** The target is read without regard to case. */
  lemma ConvertableIgnoresCase(st: State, value: Object)
    requires !value.Nil?
    ensures var r := Convertable([value, Str("string")], st);
      r.Out? && r.value.Boolean? && r.value.boolValue
    ensures var r := Convertable([value, Str("Map")], st);
      r.Out? && r.value.Boolean? && r.value.boolValue == value.Arr?
  {
    assert ToUpper("string") == "STRING";
    assert ToUpper("Map") == "MAP";
  }

  /** `str(x)`: a string as it is, anything else as its text. */
  function StrBuiltin(args: seq<Object>, st: State): (r: Outcome<Object>)
    ensures |args| == 1 && args[0].Str? ==> r == Out(args[0], st)
    ensures |args| == 1 && !args[0].Str? && TextOf(st, args[0]).Done? ==> r == Out(Str(TextOf(st, args[0]).value), st)
    ensures |args| == 1 && args[0].Nil? ==> r == Stop(Crash)
  {
    if |args| != 1 then Out(Error(RequiresXArguments), st)
    else if args[0].Nil? then Stop(Crash)
    else if args[0].Str? then Out(args[0], st)
    else
      var t := TextOf(st, args[0]);
      if t.Fail? then Stop(t.halt) else Out(Str(t.value), st)
  }

  /** `str` is idempotent: converting its result again changes nothing,
      since the result is already a string. */
  lemma StrIdempotent(st: State, x: Object)
    requires StrBuiltin([x], st).Out?
    ensures var r := StrBuiltin([x], st);
      r.value.Str? && r.st == st && StrBuiltin([r.value], st) == r
  {
  }

  /** `str` of an integer reads back as the integer. */
  lemma StrOfInteger(st: State, v: Int64)
    ensures var r := StrBuiltin([Integer(v)], st);
      r.Out? && r.value.Str? && ParseInt64(r.value.strValue) == Some(v)
  {
    IntegerTextRoundTrip(st.heap, v);
  }

  function IntBuiltin(args: seq<Object>, st: State): (r: Outcome<Object>)
    ensures |args| != 1 ==> r == Out(Error(RequiresXArguments), st)
    ensures |args| == 1 && args[0].Integer? ==> r == Out(args[0], st)
    ensures |args| == 1 && args[0].Nil? ==> r == Stop(Crash)
    ensures |args| == 1 && !args[0].Integer? && !args[0].Str? && !args[0].Nil? ==> r == Out(Error(IllegalConversion), st)
  {
    if |args| != 1 then Out(Error(RequiresXArguments), st) else Lift(ToInteger(args[0]), st)
  }

  function FloatBuiltin(args: seq<Object>, st: State): (r: Outcome<Object>)
    ensures |args| != 1 ==> r == Out(Error(RequiresXArguments), st)
    ensures |args| == 1 && (args[0].Integer? || args[0].Str?) ==> r == Stop(Unmodelled)
    ensures |args| == 1 && !args[0].Integer? && !args[0].Str? && !args[0].Nil? ==> r == Out(Error(IllegalConversion), st)
  {
    if |args| != 1 then Out(Error(RequiresXArguments), st) else Lift(ToFloat(args[0]), st)
  }

  /** The pair `map` stores for element i: integer key i, value v. */
  function IndexPair(i: nat, v: Object): HashPair {
    HashPair(HashKey(INTEGER_OBJ, ToUint64(Wrap64(i))), Integer(Wrap64(i)), v)
  }

  /** The pairs after the loop of `map` has stored elements 0..n-1, one
      `pairs[key] = pair` at a time. */
  function IndexPairs(es: seq<Object>, n: nat): seq<HashPair>
    requires n <= |es|
  {
    if n == 0 then [] else Put(IndexPairs(es, n - 1), IndexPair(n - 1, es[n - 1]))
  }

  /** The loop of `map`. */
  method IndexMap(es: seq<Object>) returns (ps: seq<HashPair>)
    ensures ps == IndexPairs(es, |es|)
  {
    ps := [];
    for i := 0 to |es|
      invariant ps == IndexPairs(es, i)
    {
      ps := Put(ps, IndexPair(i, es[i]));
    }
  }

  /** Storing a pair under a new key appends it. */
  lemma {:induction false} PutNew(ps: seq<HashPair>, p: HashPair)
    requires p.hkey !in Keys(ps)
    ensures Put(ps, p) == ps + [p]
    decreases |ps|
  {
    if |ps| > 0 {
      assert ps[0].hkey in Keys(ps);
      assert Keys(ps[1..]) <= Keys(ps) by {
        forall k | k in Keys(ps[1..]) ensures k in Keys(ps) {
          var j :| 0 <= j < |ps[1..]| && ps[1..][j].hkey == k;
          assert ps[j + 1].hkey == k;
        }
      }
      PutNew(ps[1..], p);
      assert ps == [ps[0]] + ps[1..];
    }
  }

  /** The first n pairs of `map` over es: element i under the integer key
      i, in order, one pair per key. */
  ghost predicate IndexShaped(ps: seq<HashPair>, es: seq<Object>, n: nat)
    requires n <= |es| <= MAX_INT64
  {
    |ps| == n && DistinctKeys(ps) &&
    (forall i :: 0 <= i < n ==> ps[i] == HashPair(HashKey(INTEGER_OBJ, i), Integer(i), es[i])) &&
    Keys(ps) == set i | 0 <= i < n :: HashKey(INTEGER_OBJ, i)
  }

  /** For an array that int64 can index, `map` holds element i under the
      integer key i, in order, one pair per key. */
  lemma {:induction false} IndexPairsShape(es: seq<Object>, n: nat)
    requires n <= |es| && |es| <= MAX_INT64
    ensures IndexShaped(IndexPairs(es, n), es, n)
    decreases n
  {
    if n > 0 {
      IndexPairsShape(es, n - 1);
      IndexPairStep(IndexPairs(es, n - 1), es, n);
    }
  }

  lemma IndexPairStep(ps: seq<HashPair>, es: seq<Object>, n: nat)
    requires 0 < n <= |es| <= MAX_INT64 && IndexShaped(ps, es, n - 1)
    ensures IndexShaped(Put(ps, IndexPair(n - 1, es[n - 1])), es, n)
  {
    var p := IndexPair(n - 1, es[n - 1]);
    assert p == HashPair(HashKey(INTEGER_OBJ, n - 1), Integer(n - 1), es[n - 1]);
    assert p.hkey !in Keys(ps);
    PutNew(ps, p);
    PutKeys(ps, p);
    IndexKeysExtend(ps, p, n);
  }

  lemma IndexKeysExtend(ps: seq<HashPair>, p: HashPair, n: nat)
    requires 0 < n <= MAX_INT64 && Keys(ps) == set i | 0 <= i < n - 1 :: HashKey(INTEGER_OBJ, i)
    requires p.hkey == HashKey(INTEGER_OBJ, n - 1) && Keys(ps + [p]) == Keys(ps) + {p.hkey}
    ensures Keys(ps + [p]) == set i | 0 <= i < n :: HashKey(INTEGER_OBJ, i)
  {
    forall k | k in set i | 0 <= i < n :: HashKey(INTEGER_OBJ, i) ensures k in Keys(ps + [p]) {
      var i :| 0 <= i < n && k == HashKey(INTEGER_OBJ, i);
      if i < n - 1 { assert k in Keys(ps); }
    }
  }

  /** `map(a)[i]` is `a[i]` for every position i. */
  lemma MapOfArrayIndexes(heap: Heap, es: seq<Object>, i: Int64)
    requires |es| <= MAX_INT64 && 0 <= i < |es|
    ensures HashIndex(heap, IndexPairs(es, |es|), Integer(i)) == Done(es[i])
  {
    var ps := IndexPairs(es, |es|);
    IndexPairsShape(es, |es|);
    assert ps[i].hkey == HashKey(INTEGER_OBJ, ToUint64(i));
    assert Lookup(ps, HashKey(INTEGER_OBJ, ToUint64(i))) == Some(ps[i]) by {
      LookupFindsPair(ps, i);
    }
  }

  /** `map(a)`: a new map from each position of the array to its
      element. */
  function MapBuiltin(args: seq<Object>, st: State): (r: Outcome<Object>)
    ensures |args| != 1 ==> r == Out(Error(RequiresXArguments), st)
    ensures |args| == 1 && !args[0].Arr? && !args[0].Nil? ==> r == Out(Error(ArgumentMustBe), st)
    ensures r.Out? ==> Extends(st, r.st)
    ensures |args| == 1 && ElementsOf(st, args[0]).Some? ==>
      var es := ElementsOf(st, args[0]).value;
      r.Out? && ElementsOf(r.st, args[0]) == Some(es) && PairsOf(r.st, r.value) == Some(IndexPairs(es, |es|))
  {
    if |args| != 1 then Out(Error(RequiresXArguments), st)
    else if args[0].Nil? then Stop(Crash)
    else if !args[0].Arr? then Out(Error(ArgumentMustBe), st)
    else
      var es := ElementsOf(st, args[0]);
      if es.None? then Stop(Crash) else NewHash(st, IndexPairs(es.value, |es.value|))
  }
}
