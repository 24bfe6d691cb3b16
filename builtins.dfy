/** The builtin functions of sonar-lang/evaluator/builtins.go: `len`,
    `print`, `slice`, `contains`, `copy`, `type`, `index`, `sort`, `reverse`
    and `range`, with `ArrayIndexOf` and `SliceArray`.  Each takes the
    evaluated arguments and the state and gives an outcome; a loop of the
    source is also written as a method proved to compute its function. */
module Builtins {
  import opened Basics
  import opened Objects
  import opened State
  import opened SliceUtils
  import opened Operators

  // ---------------------------------------------------------------------
  // Argument checks

  /** The position of the first argument that is not an integer. */
  function FirstNonInteger(xs: seq<Object>): (r: Option<nat>)
    ensures r.None? <==> forall i :: 0 <= i < |xs| ==> xs[i].Integer?
    ensures r.Some? ==> (r.value < |xs| && !xs[r.value].Integer? &&
      forall i :: 0 <= i < r.value ==> xs[i].Integer?)
    decreases |xs|
  {
    if |xs| == 0 then None
    else if !xs[0].Integer? then Some(0)
    else
      var r := FirstNonInteger(xs[1..]);
      assert forall i :: 1 <= i < |xs| ==> xs[i] == xs[1..][i - 1];
      if r.None? then None else Some(r.value + 1)
  }

  /** An int that fits in int64 as an integer object; the lengths and
      positions the builtins convert always fit. */
  function IntegerOf(n: int): Object {
    Integer(Wrap64(n))
  }

  // ---------------------------------------------------------------------
  // len and print

  /** `len`: elements, characters or pairs. */
  function Len(args: seq<Object>, st: State): (r: Outcome<Object>)
    ensures |args| != 1 ==> r == Out(Error(RequiresXArguments), st)
    ensures |args| == 1 && args[0].Str? && |args[0].strValue| <= MAX_INT64 ==> r == Out(Integer(|args[0].strValue|), st)
    ensures |args| == 1 && ElementsOf(st, args[0]).Some? && |ElementsOf(st, args[0]).value| <= MAX_INT64 ==>
      r == Out(Integer(|ElementsOf(st, args[0]).value|), st)
    ensures |args| == 1 && PairsOf(st, args[0]).Some? && |PairsOf(st, args[0]).value| <= MAX_INT64 ==>
      r == Out(Integer(|PairsOf(st, args[0]).value|), st)
    ensures |args| == 1 && !args[0].Arr? && !args[0].Str? && !args[0].Hash? ==>
      r == (if args[0].Nil? then Stop(Crash) else Out(Error(TypeOfArgumentNotAllowed), st))
  {
    if |args| != 1 then Out(Error(RequiresXArguments), st)
    else
      var a := args[0];
      if a.Arr? then
        var es := ElementsOf(st, a);
        if es.None? then Stop(Crash) else Out(IntegerOf(|es.value|), st)
      else if a.Str? then Out(IntegerOf(|a.strValue|), st)
      else if a.Hash? then
        var ps := PairsOf(st, a);
        if ps.None? then Stop(Crash) else Out(IntegerOf(|ps.value|), st)
      else if a.Nil? then Stop(Crash)
      else Out(Error(TypeOfArgumentNotAllowed), st)
  }

  /** `print`: the shared NULL once every argument prints; the printed line
      itself is output, which is not modelled. */
  function Print(args: seq<Object>, st: State): (r: Outcome<Object>)
    ensures r.Out? ==> r == Out(NULL, st)
    ensures r.Out? <==> forall i :: 0 <= i < |args| ==> Formatted(st.heap, args[i], |st.heap|).Done?
  {
    var rs := seq(|args|, i requires 0 <= i < |args| => Formatted(st.heap, args[i], |st.heap|));
    var texts := Collect(rs);
    assert forall i :: 0 <= i < |args| ==> rs[i] == Formatted(st.heap, args[i], |st.heap|);
    if texts.Fail? then Stop(texts.halt) else Out(NULL, st)
  }

  // ---------------------------------------------------------------------
  // slice

  /** What `SliceArray` gives: the elements of the new array, or an
      error. */
  datatype Sliced = Cut(elements: seq<Object>) | Refused(kind: ErrorKind)

  /** The positions k of s, up to `end`, with `k % step == 0`, as the loop
      of `SliceArray` visits them from k. */
  function StepFrom(s: seq<Object>, step: int, end: int, k: nat): (r: seq<Object>)
    requires step != 0
    requires k <= |s|
    ensures |r| <= |s| - k
    ensures forall x :: x in r ==> x in s[k..]
    decreases |s| - k
  {
    if k == |s| || k >= end then []
    else if k % step == 0 then [s[k]] + StepFrom(s, step, end, k + 1)
    else StepFrom(s, step, end, k + 1)
  }

  /** The loop of `SliceArray` that keeps every step-th element. */
  method StepSlice(s: seq<Object>, step: int, end: int) returns (r: seq<Object>)
    requires step != 0
    ensures r == StepFrom(s, step, end, 0)
  {
    r := [];
    var k := 0;
    while k < |s|
      invariant 0 <= k <= |s|
      invariant r + StepFrom(s, step, end, k) == StepFrom(s, step, end, 0)
      decreases |s| - k
    {
      if k >= end {
        break;
      } else if k % step == 0 {
        r := r + [s[k]];
      }
      k := k + 1;
    }
  }

  /** The reference for a positive step: the first element, then the
      same from `step` positions further on. */
  function EveryStep(t: seq<Object>, step: nat): (r: seq<Object>)
    requires step > 0
    ensures |t| > 0 ==> |r| > 0 && r[0] == t[0]
    ensures |r| <= |t|
    ensures forall x :: x in r ==> x in t
    decreases |t|
  {
    if |t| == 0 then []
    else if |t| <= step then [t[0]]
    else
      var rest := EveryStep(t[step..], step);
      assert forall x :: x in rest ==> x in t by {
        forall x | x in rest ensures x in t {
          var j :| 0 <= j < |t[step..]| && t[step..][j] == x;
          assert t[step + j] == x;
        }
      }
      [t[0]] + rest
  }

  /** A remainder is determined by the quotient it comes with. */
  lemma ModUnique(x: int, b: int, q: int, r: int)
    requires b > 0 && 0 <= r < b && x == q * b + r
    ensures x % b == r
  {
    var q2, r2 := x / b, x % b;
    assert x == q2 * b + r2;
    assert (q - q2) * b == r2 - r;
    if q > q2 {
      MulAtLeast(q - q2, b);
    } else if q < q2 {
      MulAtLeast(q2 - q, b);
    }
  }

  lemma {:induction false} MulAtLeast(x: int, b: int)
    requires x >= 1 && b > 0
    ensures x * b >= b
    decreases x
  {
    if x > 1 {
      MulAtLeast(x - 1, b);
      assert x * b == (x - 1) * b + b;
    }
  }

  /** Past a multiple k of step, the loop skips every position up to the
      next multiple (or the end). */
  lemma {:induction false} SkipGap(s: seq<Object>, step: nat, end: int, k: nat, i: nat)
    requires step > 0 && end >= |s| && k % step == 0
    requires 0 < i <= step && k + i <= |s|
    ensures StepFrom(s, step, end, k + i) == StepFrom(s, step, end, if k + step <= |s| then k + step else |s|)
    decreases step - i
  {
    if i < step && k + i < |s| {
      ModUnique(k + i, step, k / step, i);
      SkipGap(s, step, end, k, i + 1);
    }
  }

  /** From a multiple of a positive step, with an end past every position,
      the loop keeps what EveryStep keeps. */
  lemma {:induction false} StepFromEvery(s: seq<Object>, step: nat, end: int, k: nat)
    requires step > 0 && end >= |s| && k % step == 0 && k <= |s|
    ensures StepFrom(s, step, end, k) == EveryStep(s[k..], step)
    decreases |s| - k
  {
    if k < |s| {
      SkipGap(s, step, end, k, 1);
      if k + step < |s| {
        ModUnique(k + step, step, k / step + 1, 0);
        StepFromEvery(s, step, end, k + step);
        assert s[k..][step..] == s[k + step..];
      }
    }
  }

  /** `SliceArray` on the elements es with the index arguments `more`
      (start, end, step), in the order the source checks them. */
  function SliceElements(es: seq<Object>, more: seq<Object>): (r: Res<Sliced>)
    requires |more| <= 3
    ensures r.Done? && r.value.Cut? ==> |r.value.elements| <= |es| && forall x :: x in r.value.elements ==> x in es
    ensures r.Done? && r.value.Refused? ==> r.value.kind in {ArgumentMustBe, OutOfRange, InvalidRange}
    ensures |more| > 0 && FirstNonInteger(more).None? && more[0].intValue >= |es| ==> r == Done(Refused(OutOfRange))
  {
    if |more| == 0 then Done(Cut(es))
    else
      var bad := FirstNonInteger(more);
      if bad.Some? then (if more[bad.value].Nil? then Fail(Crash) else Done(Refused(ArgumentMustBe)))
      else
        var n := |es|;
        var start0 := more[0].intValue as int;
        if start0 >= n then Done(Refused(OutOfRange))
        else
          var start := if start0 < 0 then n + start0 else start0;
          if |more| == 1 then (if start < 0 then Fail(Crash) else Done(Cut(es[start..])))
          else
            var end0 := more[1].intValue as int;
            if end0 > n then Done(Refused(OutOfRange))
            else
              var end := if end0 < 0 then n + end0 else end0;
              if end < start then Done(Refused(InvalidRange))
              else if start < 0 then Fail(Crash)
              else
                var sliced := es[start..end];
                if |more| == 2 then Done(Cut(sliced))
                else
                  var step0 := more[2].intValue as int;
                  var step := if step0 < 0 then n + step0 else step0;
                  if step == 0 then (if |sliced| == 0 then Done(Cut([])) else Fail(Crash))
                  else Done(Cut(StepFrom(sliced, step, end, 0)))
  }

  /** The index rules of `slice`: a start past the length is an error, a
      negative start counts from the end, and with an end the result is the
      elements between. */
  lemma SliceStart(es: seq<Object>, a: Int64)
    ensures a >= |es| ==> SliceElements(es, [Integer(a)]) == Done(Refused(OutOfRange))
    ensures 0 <= a < |es| ==> SliceElements(es, [Integer(a)]) == Done(Cut(es[a..]))
    ensures -|es| <= a < 0 ==> SliceElements(es, [Integer(a)]) == Done(Cut(es[|es| + a..]))
    ensures a < -|es| ==> SliceElements(es, [Integer(a)]) == Fail(Crash)
  {
    assert FirstNonInteger([Integer(a)]) == None;
  }

  lemma SliceStartEnd(es: seq<Object>, a: Int64, b: Int64)
    ensures a < |es| && b > |es| ==> SliceElements(es, [Integer(a), Integer(b)]) == Done(Refused(OutOfRange))
    ensures 0 <= a <= b <= |es| && a < |es| ==> SliceElements(es, [Integer(a), Integer(b)]) == Done(Cut(es[a..b]))
    ensures 0 <= b < a < |es| ==> SliceElements(es, [Integer(a), Integer(b)]) == Done(Refused(InvalidRange))
  {
    assert FirstNonInteger([Integer(a), Integer(b)]) == None;
  }

  /** With a positive step the result is EveryStep of the elements
      between start and end. */
  lemma SliceStep(es: seq<Object>, a: Int64, b: Int64, step: Int64)
    requires 0 <= a <= b <= |es| && a < |es| && step > 0
    ensures SliceElements(es, [Integer(a), Integer(b), Integer(step)]) == Done(Cut(EveryStep(es[a..b], step as nat)))
  {
    var s := es[a..b];
    SliceThree(es, a, b, step);
    if |s| > 0 {
      StepFromEvery(s, step as nat, b, 0);
      assert s[0..] == s;
    }
  }

  lemma SliceThree(es: seq<Object>, a: Int64, b: Int64, step: Int64)
    requires 0 <= a <= b <= |es| && a < |es| && step > 0
    ensures SliceElements(es, [Integer(a), Integer(b), Integer(step)]) == Done(Cut(StepFrom(es[a..b], step, b, 0)))
  {
    assert FirstNonInteger([Integer(a), Integer(b), Integer(step)]) == None;
  }

  /** `slice(a, 0, 10, 2)` of 1..10 has five elements, the first 1, and
      `slice(a, -1, -1)` of a three-element array is empty
      (sonar-lang/evaluator/builtins_test.go:113-140). */
  lemma SliceExamples()
    ensures var a := seq(10, i requires 0 <= i < 10 => Integer(i + 1));
      var r := SliceElements(a, [Integer(0), Integer(10), Integer(2)]);
      r.Done? && r.value.Cut? && |r.value.elements| == 5 && r.value.elements[0] == Integer(1)
    ensures SliceElements([Integer(1), Integer(2), Integer(3)], [Integer(-1), Integer(-1)]) == Done(Cut([]))
  {
    var a := seq(10, i requires 0 <= i < 10 => Integer(i + 1));
    SliceStep(a, 0, 10, 2);
    assert a[0..10] == a;
    assert |EveryStep(a[8..], 2)| == 1;
    assert a[6..][2..] == a[8..];
    assert |EveryStep(a[6..], 2)| == 2;
    assert a[4..][2..] == a[6..];
    assert |EveryStep(a[4..], 2)| == 3;
    assert a[2..][2..] == a[4..];
    assert |EveryStep(a[2..], 2)| == 4;
    assert a[2..] == a[2..];
    assert |EveryStep(a, 2)| == 5;
    assert FirstNonInteger([Integer(-1), Integer(-1)]) == None;
    var e := SliceElements([Integer(1), Integer(2), Integer(3)], [Integer(-1), Integer(-1)]);
    assert e.Done? && e.value.Cut? && e.value.elements == [];
  }

  /** `slice`: arrays directly; a string is cut into one-character strings,
      sliced, and joined back. */
  function Slice(args: seq<Object>, st: State): (r: Outcome<Object>)
    ensures |args| == 0 ==> r == Out(Error(RequiresAtLeastXArguments), st)
    ensures r.Out? ==> Extends(st, r.st)
    ensures r.Out? && |args| > 0 && args[0].Str? ==> r.st == st && (r.value.Str? || r.value.Error?)
    ensures r.Out? && |args| > 0 && ElementsOf(st, args[0]).Some? && !r.value.Error? ==>
      var es := ElementsOf(st, args[0]).value;
      ElementsOf(r.st, args[0]) == Some(es) && ElementsOf(r.st, r.value).Some? && r.value != args[0] &&
      |ElementsOf(r.st, r.value).value| <= |es| && forall x :: x in ElementsOf(r.st, r.value).value ==> x in es
  {
    if |args| == 0 then Out(Error(RequiresAtLeastXArguments), st)
    else
      var obj := args[0];
      if obj.Nil? then Stop(Crash)
      else if !obj.Arr? && !obj.Str? then Out(Error(ArgumentMustBe), st)
      else if |args| > 4 then Out(Error(RequiresAtMostXArguments), st)
      else if obj.Arr? then
        var es := ElementsOf(st, obj);
        if es.None? then Stop(Crash)
        else
          var r := SliceElements(es.value, args[1..]);
          if r.Fail? then Stop(r.halt)
          else if r.value.Refused? then Out(Error(r.value.kind), st)
          else NewArray(st, r.value.elements)
      else
        var r := SliceElements(StringIters(obj.strValue), args[1..]);
        if r.Fail? then Stop(r.halt)
        else if r.value.Refused? then Out(Error(r.value.kind), st)
        else
          var cs := r.value.elements;
          Out(Str(Concat(seq(|cs|, i requires 0 <= i < |cs| => if cs[i].Str? then cs[i].strValue else ""))), st)
  }

  /** `slice(s)` of a string is the string. */
  lemma SliceWholeString(s: string, st: State)
    ensures Slice([Str(s)], st) == Out(Str(s), st)
  {
    var cs := StringIters(s);
    StringItersConcat(s);
    assert seq(|cs|, i requires 0 <= i < |cs| => if cs[i].Str? then cs[i].strValue else "") ==
      seq(|s|, i requires 0 <= i < |s| => cs[i].strValue);
  }

  // ---------------------------------------------------------------------
  // index and contains: the first element that prints as, and has the
  // type of, the element looked for

  /** The first position from k whose element agrees with elm; -1 for none.
      Each step prints the element, then elm, then compares types. */
  function MatchFrom(heap: Heap, es: seq<Object>, elm: Object, k: nat): (r: Res<int>)
    requires k <= |es|
    ensures r.Done? && r.value >= 0 ==> (k <= r.value < |es| && Agree(heap, es[r.value], elm) &&
      forall j :: k <= j < r.value ==> !Agree(heap, es[j], elm))
    ensures r.Done? ==> r.value >= -1
    ensures r == Done(-1) ==> forall j :: k <= j < |es| ==> !Agree(heap, es[j], elm)
    decreases |es| - k
  {
    if k == |es| then Done(-1)
    else
      var tv := Text(heap, es[k]);
      var te := Text(heap, elm);
      if tv.Fail? then Fail(tv.halt)
      else if te.Fail? then Fail(te.halt)
      else if tv == te && TypeOf(es[k]) == TypeOf(elm) then Done(k)
      else MatchFrom(heap, es, elm, k + 1)
  }

  /** Every element prints, and so does elm, whenever es is non-empty:
      then the search gives an answer. */
  lemma {:induction false} MatchFromAnswers(heap: Heap, es: seq<Object>, elm: Object, k: nat)
    requires k <= |es|
    requires forall j :: k <= j < |es| ==> Text(heap, es[j]).Done?
    requires k < |es| ==> Text(heap, elm).Done?
    ensures MatchFrom(heap, es, elm, k).Done?
    decreases |es| - k
  {
    if k < |es| { MatchFromAnswers(heap, es, elm, k + 1); }
  }

  /** `ArrayIndexOf`, as the loop of the source. */
  method ArrayIndexOf(heap: Heap, elements: seq<Object>, element: Object) returns (r: Res<int>)
    ensures r == MatchFrom(heap, elements, element, 0)
  {
    for i := 0 to |elements|
      invariant MatchFrom(heap, elements, element, 0) == MatchFrom(heap, elements, element, i)
    {
      var tv := Text(heap, elements[i]);
      var te := Text(heap, element);
      if tv.Fail? { return Fail(tv.halt); }
      if te.Fail? { return Fail(te.halt); }
      if tv == te && TypeOf(elements[i]) == TypeOf(element) {
        return Done(i);
      }
    }
    return Done(-1);
  }

  /** `index`: the position in an array, or in the characters of a
      string. */
  function IndexOf(args: seq<Object>, st: State): (r: Outcome<Object>)
    ensures |args| != 2 ==> r == Out(Error(RequiresXArguments), st)
    ensures r.Out? ==> r.st == st
    ensures |args| == 2 && ElementsOf(st, args[0]).Some? && |ElementsOf(st, args[0]).value| <= MAX_INT64 && r.Out? ==>
      var es := ElementsOf(st, args[0]).value;
      r.value.Integer? && -1 <= r.value.intValue < |es| &&
      (r.value.intValue >= 0 ==> Agree(st.heap, es[r.value.intValue], args[1])) &&
      forall j :: 0 <= j < |es| && (r.value.intValue == -1 || j < r.value.intValue) ==> !Agree(st.heap, es[j], args[1])
  {
    if |args| != 2 then Out(Error(RequiresXArguments), st)
    else if args[0].Nil? then Stop(Crash)
    else if args[0].Arr? then
      var es := ElementsOf(st, args[0]);
      if es.None? then Stop(Crash)
      else
        var k := MatchFrom(st.heap, es.value, args[1], 0);
        if k.Fail? then Stop(k.halt) else Out(IntegerOf(k.value), st)
    else if args[0].Str? then
      var k := MatchFrom(st.heap, StringIters(args[0].strValue), args[1], 0);
      if k.Fail? then Stop(k.halt) else Out(IntegerOf(k.value), st)
    else Out(Error(ArgumentMustBe), st)
  }

  /** `index([1, 2, 3], 2)` is 1 and `index([1, 2, 3], 6)` is -1
      (sonar-lang/evaluator/builtins_test.go:164-185). */
  lemma IndexExamples(heap: Heap)
    ensures MatchFrom(heap, [Integer(1), Integer(2), Integer(3)], Integer(2), 0) == Done(1)
    ensures MatchFrom(heap, [Integer(1), Integer(2), Integer(3)], Integer(6), 0) == Done(-1)
  {
    var es := [Integer(1), Integer(2), Integer(3)];
    var t := seq(7, i requires 0 <= i < 7 => IntString(i));
    assert IntString(1) == "1" && IntString(2) == "2" && IntString(3) == "3" && IntString(6) == "6";
    assert MatchFrom(heap, es, Integer(2), 0) == MatchFrom(heap, es, Integer(2), 1);
    assert MatchFrom(heap, es, Integer(6), 2) == MatchFrom(heap, es, Integer(6), 3);
  }

  /** `contains`: for an array, whether some element agrees with the
      element (the loop of `arrayContains`); for a string, whether it
      contains the element's text (`stringContains`).  The answer is a
      boolean allocated on its own. */
  function ContainsBuiltin(args: seq<Object>, st: State): (r: Outcome<Object>)
    ensures |args| != 2 ==> r == Out(Error(RequiresXArguments), st)
    ensures r.Out? && !r.value.Error? ==> r.value.Boolean? && r.st == st.(next := st.next + 1)
    ensures |args| == 2 && ElementsOf(st, args[0]).Some? && r.Out? && !r.value.Error? ==>
      var es := ElementsOf(st, args[0]).value;
      r.value.boolValue <==> exists j :: 0 <= j < |es| && Agree(st.heap, es[j], args[1])
    ensures |args| == 2 && args[0].Str? && r.Out? && !r.value.Error? ==>
      TextOf(st, args[1]).Done? && r.value.boolValue == Contains(args[0].strValue, TextOf(st, args[1]).value)
  {
    if |args| != 2 then Out(Error(RequiresXArguments), st)
    else if args[0].Nil? then Stop(Crash)
    else if args[0].Arr? then
      var es := ElementsOf(st, args[0]);
      if es.None? then Stop(Crash)
      else
        var k := MatchFrom(st.heap, es.value, args[1], 0);
        if k.Fail? then Stop(k.halt) else NewBoolean(st, k.value >= 0)
    else if args[0].Str? then
      var t := TextOf(st, args[1]);
      if t.Fail? then Stop(t.halt) else NewBoolean(st, Contains(args[0].strValue, t.value))
    else Out(Error(ArgumentMustBe), st)
  }

  /** `arrayContains`, as the loop of the source. */
  method ArrayContains(heap: Heap, elements: seq<Object>, elm: Object) returns (r: Res<bool>)
    ensures MatchFrom(heap, elements, elm, 0).Fail? ==> r == Fail(MatchFrom(heap, elements, elm, 0).halt)
    ensures MatchFrom(heap, elements, elm, 0).Done? ==> r == Done(MatchFrom(heap, elements, elm, 0).value >= 0)
  {
    for i := 0 to |elements|
      invariant MatchFrom(heap, elements, elm, 0) == MatchFrom(heap, elements, elm, i)
    {
      var tv := Text(heap, elements[i]);
      var te := Text(heap, elm);
      if tv.Fail? { return Fail(tv.halt); }
      if te.Fail? { return Fail(te.halt); }
      if tv == te && TypeOf(elements[i]) == TypeOf(elm) {
        return Done(true);
      }
    }
    return Done(false);
  }

  /** An array contains an element exactly when `index` finds it, and then
      the element at that position agrees with it. */
  lemma ContainsIffIndex(st: State, a: Object, elm: Object)
    requires ElementsOf(st, a).Some?
    requires MatchFrom(st.heap, ElementsOf(st, a).value, elm, 0).Done?
    ensures var es := ElementsOf(st, a).value;
      var c := ContainsBuiltin([a, elm], st);
      c.Out? && c.value.Boolean? &&
      (c.value.boolValue <==> exists j :: 0 <= j < |es| && Agree(st.heap, es[j], elm))
  {
    var es := ElementsOf(st, a).value;
    var k := MatchFrom(st.heap, es, elm, 0);
    if k.value >= 0 {
      assert Agree(st.heap, es[k.value], elm);
    }
  }

  // ---------------------------------------------------------------------
  // copy and type

  /** `copy`: integers and strings as they are, a new boolean, a new
      function object over the same parameters, body and environment, a
      new array with the same elements, and a map object over the same Go
      map. */
  function Copy(args: seq<Object>, st: State): (r: Outcome<Object>)
    ensures |args| != 1 ==> r == Out(Error(RequiresXArguments), st)
    ensures r.Out? ==> Extends(st, r.st)
    ensures r.Out? && |args| == 1 && ElementsOf(st, args[0]).Some? ==>
      r.value != args[0] && ElementsOf(r.st, r.value) == ElementsOf(st, args[0]) &&
      ElementsOf(r.st, args[0]) == ElementsOf(st, args[0])
  {
    if |args| != 1 then Out(Error(RequiresXArguments), st)
    else
      var o := args[0];
      match o
      case Integer(_) => Out(o, st)
      case Boolean(b, _) => NewBoolean(st, b)
      case Str(_) => Out(o, st)
      case Function(ps, body, env, _) => Out(Function(ps, body, env, st.next), st.(next := st.next + 1))
      case Arr(_) =>
        var es := ElementsOf(st, o);
        if es.None? then Stop(Crash) else NewArray(st, es.value)
      case Hash(_) => Out(o, st)
      case Nil => Stop(Crash)
      case _ => Out(Error(TypeCannotBeCopied), st)
  }

  /** A copy has the original's value: the same integer or string, a
      boolean of the same truth, a new array with the same elements in a
      state where the original is unchanged, the same map. */
  lemma CopyKeepsValue(st: State, o: Object)
    ensures var c := Copy([o], st);
      (o.Integer? || o.Str? || o.Hash? ==> c == Out(o, st)) &&
      (o.Boolean? ==> c == Out(Boolean(o.boolValue, Fresh(st.next)), st.(next := st.next + 1))) &&
      (ElementsOf(st, o).Some? ==> (c.Out? && c.value != o &&
        ElementsOf(c.st, c.value) == ElementsOf(st, o) && ElementsOf(c.st, o) == ElementsOf(st, o)))
  {
  }

  /** `type`: the name of the argument's type. */
  function TypeBuiltin(args: seq<Object>, st: State): (r: Outcome<Object>)
    ensures |args| == 1 && TypeOf(args[0]).Done? && TypeName(TypeOf(args[0]).value).Some? ==>
      r == Out(Str(TypeName(TypeOf(args[0]).value).value), st)
    ensures |args| == 1 && args[0].Nil? ==> r == Stop(Crash)
    ensures |args| != 1 ==> r == Out(Error(RequiresXArguments), st)
  {
    if |args| != 1 then Out(Error(RequiresXArguments), st)
    else
      var t := TypeOf(args[0]);
      if t.Fail? then Stop(t.halt)
      else
        var name := TypeName(t.value);
        if name.None? then Stop(Unmodelled) else Out(Str(name.value), st)
  }

  // ---------------------------------------------------------------------
  // sort and reverse

  /** The elements paired with their texts. */
  function KeyedBy(es: seq<Object>, texts: seq<string>): (r: seq<Keyed>)
    requires |texts| == |es|
    ensures |r| == |es| && forall i :: 0 <= i < |es| ==> r[i] == Keyed(texts[i], es[i])
  {
    seq(|es|, i requires 0 <= i < |es| => Keyed(texts[i], es[i]))
  }

  function Objs(ks: seq<Keyed>): (r: seq<Object>)
    ensures |r| == |ks| && forall i :: 0 <= i < |ks| ==> r[i] == ks[i].obj
  {
    seq(|ks|, i requires 0 <= i < |ks| => ks[i].obj)
  }

  /** `SortObjectArray`: a new array of the elements ordered by their
      texts; fewer than two elements are never compared, so never
      printed. */
  function SortedElements(heap: Heap, es: seq<Object>): (r: Res<seq<Object>>)
    ensures r.Done? ==> multiset(r.value) == multiset(es)
  {
    if |es| < 2 then Done(es)
    else
      var texts := Collect(seq(|es|, i requires 0 <= i < |es| => Text(heap, es[i])));
      if texts.Fail? then Fail(texts.halt)
      else
        var ks := KeyedBy(es, texts.value);
        ObjsSort(ks);
        assert Objs(ks) == es;
        Done(Objs(SortByText(ks)))
  }

  /** Inserting by text adds the element's object to the objects. */
  lemma {:induction false} ObjsInsert(k: Keyed, s: seq<Keyed>)
    ensures multiset(Objs(Insert(k, s))) == multiset{k.obj} + multiset(Objs(s))
    decreases |s|
  {
    if |s| > 0 && !LessEq(k.text, s[0].text) {
      ObjsInsert(k, s[1..]);
      assert Objs([s[0]] + Insert(k, s[1..])) == [s[0].obj] + Objs(Insert(k, s[1..]));
      assert Objs(s) == [s[0].obj] + Objs(s[1..]);
    } else {
      assert Objs([k] + s) == [k.obj] + Objs(s);
    }
  }

  /** Sorting by text permutes the objects. */
  lemma {:induction false} ObjsSort(s: seq<Keyed>)
    ensures multiset(Objs(SortByText(s))) == multiset(Objs(s))
    decreases |s|
  {
    if |s| > 0 {
      ObjsSort(s[1..]);
      ObjsInsert(s[0], SortByText(s[1..]));
      assert Objs(s) == [s[0].obj] + Objs(s[1..]);
    }
  }

  /** The sorted array is in ascending order of texts and holds the same
      text-element pairs as the input, each as often. */
  lemma SortedElementsCorrect(heap: Heap, es: seq<Object>, texts: seq<string>)
    requires |texts| == |es| && |es| >= 2
    requires forall i :: 0 <= i < |es| ==> Text(heap, es[i]) == Done(texts[i])
    ensures var ks := SortByText(KeyedBy(es, texts));
      SortedElements(heap, es) == Done(Objs(ks)) &&
      SortedByText(ks) && multiset(ks) == multiset(KeyedBy(es, texts)) &&
      forall i :: 0 <= i < |ks| ==> Text(heap, ks[i].obj) == Done(ks[i].text)
  {
    var rs := seq(|es|, i requires 0 <= i < |es| => Text(heap, es[i]));
    assert Collect(rs).value == texts;
    var ks := SortByText(KeyedBy(es, texts));
    SortByTextCorrect(KeyedBy(es, texts));
    forall i | 0 <= i < |ks| ensures Text(heap, ks[i].obj) == Done(ks[i].text) {
      assert ks[i] in multiset(KeyedBy(es, texts));
      var j :| 0 <= j < |es| && KeyedBy(es, texts)[j] == ks[i];
    }
  }

  /** `sort([3, 1, 2])` is [1, 2, 3]
      (sonar-lang/evaluator/builtins_test.go:38-59). */
  lemma SortExample(heap: Heap)
    ensures SortedElements(heap, [Integer(3), Integer(1), Integer(2)]) == Done([Integer(1), Integer(2), Integer(3)])
  {
    var es := [Integer(3), Integer(1), Integer(2)];
    assert IntString(1) == "1" && IntString(2) == "2" && IntString(3) == "3";
    var rs := seq(|es|, i requires 0 <= i < |es| => Text(heap, es[i]));
    assert rs == [Done("3"), Done("1"), Done("2")];
    assert Collect(rs).value == ["3", "1", "2"];
    var k1, k2, k3 := Keyed("1", Integer(1)), Keyed("2", Integer(2)), Keyed("3", Integer(3));
    var ks := KeyedBy(es, ["3", "1", "2"]);
    assert ks == [k3, k1, k2];
    assert LessEq("1", "2") && !LessEq("3", "1") && !LessEq("3", "2");
    assert SortByText([k2]) == [k2] by { assert [k2][1..] == []; }
    assert Insert(k1, [k2]) == [k1, k2];
    assert SortByText([k1, k2]) == [k1, k2] by { assert [k1, k2][1..] == [k2]; }
    assert Insert(k3, [k2]) == [k2, k3] by { assert Insert(k3, []) == [k3]; }
    assert Insert(k3, [k1, k2]) == [k1, k2, k3] by { assert [k1, k2][1..] == [k2]; }
    assert SortByText(ks) == [k1, k2, k3] by { assert ks[1..] == [k1, k2]; }
    assert Objs([k1, k2, k3]) == [Integer(1), Integer(2), Integer(3)];
  }

  function Sort(args: seq<Object>, st: State): (r: Outcome<Object>)
    ensures |args| != 1 ==> r == Out(Error(RequiresXArguments), st)
    ensures r.Out? ==> Extends(st, r.st)
    ensures r.Out? && |args| == 1 && ElementsOf(st, args[0]).Some? ==>
      var es := ElementsOf(st, args[0]).value;
      r.value != args[0] && ElementsOf(r.st, args[0]) == Some(es) &&
      ElementsOf(r.st, r.value).Some? && multiset(ElementsOf(r.st, r.value).value) == multiset(es)
  {
    if |args| != 1 then Out(Error(RequiresXArguments), st)
    else if args[0].Nil? then Stop(Crash)
    else if args[0].Arr? then
      var es := ElementsOf(st, args[0]);
      if es.None? then Stop(Crash)
      else
        var sorted := SortedElements(st.heap, es.value);
        if sorted.Fail? then Stop(sorted.halt) else NewArray(st, sorted.value)
    else Out(Error(ArgumentMustBe), st)
  }

  /** `reverse`: prints its argument (output not modelled), then a new
      array of the elements in the opposite order. */
  function Reverse(args: seq<Object>, st: State): (r: Outcome<Object>)
    ensures |args| != 1 ==> r == Out(Error(RequiresXArguments), st)
    ensures r.Out? ==> Extends(st, r.st)
    ensures r.Out? && |args| == 1 && !args[0].Arr? ==> r == Out(Error(ArgumentMustBe), st)
    ensures r.Out? && |args| == 1 && ElementsOf(st, args[0]).Some? ==>
      var es := ElementsOf(st, args[0]).value;
      ElementsOf(r.st, args[0]) == Some(es) && ElementsOf(r.st, r.value) == Some(Reversed(es))
  {
    if |args| != 1 then Out(Error(RequiresXArguments), st)
    else
      var t := TextOf(st, args[0]);
      if t.Fail? then Stop(t.halt)
      else if args[0].Arr? then
        var es := ElementsOf(st, args[0]);
        if es.None? then Stop(Crash) else NewArray(st, Reversed(es.value))
      else Out(Error(ArgumentMustBe), st)
  }

  /** Reversing a printable array gives a new array with element i at
      position len-1-i, and its input is unchanged. */
  lemma ReverseContents(st: State, a: Object)
    requires ElementsOf(st, a).Some? && TextOf(st, a).Done?
    ensures var es := ElementsOf(st, a).value;
      var r := Reverse([a], st);
      r.Out? && ElementsOf(r.st, a) == Some(es) &&
      ElementsOf(r.st, r.value) == Some(Reversed(es))
  {
  }

  // ---------------------------------------------------------------------
  // range

  /** The values the loop of `range` appends starting from i; the loop
      stops when i passes e, and an `i += step` that overflows int64 is
      not modelled. */
  function RangeFrom(i: Int64, e: Int64, step: Int64): (r: Res<seq<Int64>>)
    requires step != 0
    ensures r.Done? && |r.value| > 0 ==> r.value[0] == i
    ensures r.Done? && |r.value| == 0 <==> (if step > 0 then i >= e else i <= e)
    decreases if step > 0 then e - i else i - e
  {
    if (step > 0 && i >= e) || (step < 0 && i <= e) then Done([])
    else if !(MIN_INT64 <= i + step <= MAX_INT64) then Fail(Unmodelled)
    else
      var rest := RangeFrom(i + step, e, step);
      if rest.Fail? then rest else Done([i] + rest.value)
  }

  /** The values go up (or down) by the step, stay strictly before e, and
      the last one is followed by a value that would not be. */
  lemma {:induction false} RangeFromValues(i: Int64, e: Int64, step: Int64)
    requires step != 0
    ensures var r := RangeFrom(i, e, step);
      r.Done? ==>
        (forall k :: 0 <= k < |r.value| - 1 ==> r.value[k + 1] == r.value[k] + step) &&
        (forall k :: 0 <= k < |r.value| ==> if step > 0 then i <= r.value[k] < e else e < r.value[k] <= i) &&
        (|r.value| > 0 ==> if step > 0 then r.value[|r.value| - 1] + step >= e else r.value[|r.value| - 1] + step <= e)
    decreases if step > 0 then e - i else i - e
  {
    if !((step > 0 && i >= e) || (step < 0 && i <= e)) && MIN_INT64 <= i + step <= MAX_INT64 {
      RangeFromValues(i + step, e, step);
      var rest := RangeFrom(i + step, e, step);
      if rest.Done? {
        assert forall k :: 1 <= k < |rest.value| + 1 ==> ([i] + rest.value)[k] == rest.value[k - 1];
      }
    }
  }

  /** The loop never overflows when the end is at least one step away from
      the int64 bounds. */
  lemma {:induction false} RangeFromFits(i: Int64, e: Int64, step: Int64)
    requires step != 0
    requires step > 0 ==> e + step <= MAX_INT64 + 1
    requires step < 0 ==> e + step >= MIN_INT64 - 1
    ensures RangeFrom(i, e, step).Done?
    decreases if step > 0 then e - i else i - e
  {
    if !((step > 0 && i >= e) || (step < 0 && i <= e)) {
      RangeFromFits(i + step, e, step);
    }
  }

  /** Values already appended, followed by those still to come. */
  function Glue(acc: seq<Int64>, rest: Res<seq<Int64>>): Res<seq<Int64>> {
    if rest.Fail? then rest else Done(acc + rest.value)
  }

  lemma GlueNothing(rest: Res<seq<Int64>>)
    ensures Glue([], rest) == rest
  {
    if rest.Done? { assert [] + rest.value == rest.value; }
  }

  /** One more turn of the loop. */
  lemma RangeStep(acc: seq<Int64>, i: Int64, e: Int64, step: Int64)
    requires step != 0 && ((step > 0 && i < e) || (step < 0 && i > e)) && MIN_INT64 <= i + step <= MAX_INT64
    ensures Glue(acc, RangeFrom(i, e, step)) == Glue(acc + [i], RangeFrom(i + step, e, step))
  {
    var rest := RangeFrom(i + step, e, step);
    if rest.Done? {
      assert acc + ([i] + rest.value) == (acc + [i]) + rest.value;
    }
  }

  /** The loop has ended. */
  lemma RangeEnd(acc: seq<Int64>, i: Int64, e: Int64, step: Int64)
    requires step != 0 && !((step > 0 && i < e) || (step < 0 && i > e))
    ensures Glue(acc, RangeFrom(i, e, step)) == Done(acc)
  {
    assert acc + [] == acc;
  }

  /** Overflow stops the loop. */
  lemma RangeOverflow(acc: seq<Int64>, i: Int64, e: Int64, step: Int64)
    requires step != 0 && ((step > 0 && i < e) || (step < 0 && i > e)) && !(MIN_INT64 <= i + step <= MAX_INT64)
    ensures Glue(acc, RangeFrom(i, e, step)) == Fail(Unmodelled)
  {
  }

  /** The loop of the source, building the list of values. */
  method RangeLoop(s: Int64, e: Int64, step: Int64) returns (r: Res<seq<Int64>>)
    requires step != 0
    ensures r == RangeFrom(s, e, step)
  {
    var result: seq<Int64> := [];
    var i: Int64 := s;
    GlueNothing(RangeFrom(s, e, step));
    while (step > 0 && i < e) || (step < 0 && i > e)
      invariant RangeFrom(s, e, step) == Glue(result, RangeFrom(i, e, step))
      decreases if step > 0 then e - i else i - e
    {
      if !(MIN_INT64 <= i + step <= MAX_INT64) {
        RangeOverflow(result, i, e, step);
        return Fail(Unmodelled);
      }
      RangeStep(result, i, e, step);
      result := result + [i];
      i := i + step;
    }
    RangeEnd(result, i, e, step);
    return Done(result);
  }

  /** The values of `range(s, e, step)` in the cases where it ends. */
  function RangeValues(s: Int64, e: Int64, step: Int64): Res<seq<Int64>> {
    if s == e then Done([])
    else if step < 0 && s < e then Done([])
    else if step > 0 && s > e then Done([])
    else if step == 0 then (if s > e then Fail(Diverge) else Done([]))
    else RangeFrom(s, e, step)
  }

  function Integers(vs: seq<Int64>): (r: seq<Object>)
    ensures |r| == |vs| && forall i :: 0 <= i < |vs| ==> r[i] == Integer(vs[i])
  {
    seq(|vs|, i requires 0 <= i < |vs| => Integer(vs[i]))
  }

  /** `range`: two or three integer arguments; a non-integer argument is
      printed in the error. */
  function Range(args: seq<Object>, st: State): (r: Outcome<Object>)
    ensures |args| < 2 ==> r == Out(Error(RequiresAtLeastXArguments), st)
    ensures |args| > 3 ==> r == Out(Error(RequiresAtMostXArguments), st)
    ensures r.Out? ==> Extends(st, r.st)
    ensures r.Out? && !r.value.Error? ==> forall i :: 0 <= i < |args| ==> args[i].Integer?
    ensures r.Out? && !r.value.Error? ==>
      ElementsOf(r.st, r.value).Some? && forall x :: x in ElementsOf(r.st, r.value).value ==> x.Integer?
  {
    if |args| < 2 then Out(Error(RequiresAtLeastXArguments), st)
    else if |args| > 3 then Out(Error(RequiresAtMostXArguments), st)
    else
      var bad := FirstNonInteger(args);
      if bad.Some? then
        var t := TextOf(st, args[bad.value]);
        if t.Fail? then Stop(t.halt) else Out(Error(ArgumentMustBe), st)
      else
        var step := if |args| == 3 then args[2].intValue else 1;
        var vs := RangeValues(args[0].intValue, args[1].intValue, step);
        if vs.Fail? then Stop(vs.halt) else NewArray(st, Integers(vs.value))
  }

  /** The values start at s, go up (or down) by step, stay before e and
      stop at the first value that would reach it; a step pointing away
      from e gives no values, and a zero step toward e never ends. */
  lemma RangeShape(s: Int64, e: Int64, step: Int64)
    ensures step > 0 && s >= e ==> RangeValues(s, e, step) == Done([])
    ensures step < 0 && s <= e ==> RangeValues(s, e, step) == Done([])
    ensures step == 0 && s > e ==> RangeValues(s, e, step) == Fail(Diverge)
    ensures step != 0 ==> RangeValues(s, e, step) == RangeFrom(s, e, step)
  {
  }

  /** The cases of sonar-lang/evaluator/builtins_test.go:9-36. */
  lemma RangeExamplesUp()
    ensures RangeValues(0, 4, 1) == Done([0, 1, 2, 3])
    ensures RangeValues(-4, -2, 1) == Done([-4, -3])
  {
    assert RangeFrom(4, 4, 1).Done? && RangeFrom(4, 4, 1).value == [];
    assert RangeFrom(3, 4, 1).Done? && RangeFrom(3, 4, 1).value == [3];
    assert RangeFrom(2, 4, 1).Done? && RangeFrom(2, 4, 1).value == [2, 3];
    assert RangeFrom(1, 4, 1).Done? && RangeFrom(1, 4, 1).value == [1, 2, 3];
    assert RangeFrom(0, 4, 1).Done? && RangeFrom(0, 4, 1).value == [0, 1, 2, 3];
    assert RangeFrom(-2, -2, 1).Done? && RangeFrom(-2, -2, 1).value == [];
    assert RangeFrom(-3, -2, 1).Done? && RangeFrom(-3, -2, 1).value == [-3];
    assert RangeFrom(-4, -2, 1).Done? && RangeFrom(-4, -2, 1).value == [-4, -3];
  }

  lemma RangeExamplesStep()
    ensures RangeValues(0, 5, 2) == Done([0, 2, 4])
    ensures RangeValues(10, 5, -2) == Done([10, 8, 6])
  {
    assert RangeFrom(6, 5, 2).Done? && RangeFrom(6, 5, 2).value == [];
    assert RangeFrom(4, 5, 2).Done? && RangeFrom(4, 5, 2).value == [4];
    assert RangeFrom(2, 5, 2).Done? && RangeFrom(2, 5, 2).value == [2, 4];
    assert RangeFrom(0, 5, 2).Done? && RangeFrom(0, 5, 2).value == [0, 2, 4];
    assert RangeFrom(4, 5, -2).Done? && RangeFrom(4, 5, -2).value == [];
    assert RangeFrom(6, 5, -2).Done? && RangeFrom(6, 5, -2).value == [6];
    assert RangeFrom(8, 5, -2).Done? && RangeFrom(8, 5, -2).value == [8, 6];
    assert RangeFrom(10, 5, -2).Done? && RangeFrom(10, 5, -2).value == [10, 8, 6];
  }

  lemma RangeExamplesEmpty(st: State)
    ensures RangeValues(0, -5, 2) == Done([])
    ensures RangeValues(0, 5, -2) == Done([])
    ensures Range([Integer(0)], st) == Out(Error(RequiresAtLeastXArguments), st)
  {
    assert RangeValues(0, -5, 2).value == [] && RangeValues(0, 5, -2).value == [];
  }
}
