/** The array builtins of sonar-lang/evaluator/array.go: `push` and
    `pop`. */
module ArrayBuiltins {
  import opened Basics
  import opened Objects
  import opened State

  /** The error for an argument of the wrong type, whose message prints
      the argument. */
  function ArgumentError(st: State, o: Object): Outcome<Object> {
    var t := TextOf(st, o);
    if t.Fail? then Stop(t.halt) else Out(Error(ArgumentMustBe), st)
  }

  /** `push(a, x, ...)`: a new array of a's elements followed by the
      pushed ones. */
  function Push(args: seq<Object>, st: State): (r: Outcome<Object>)
    ensures |args| < 2 ==> r == Out(Error(RequiresXArguments), st)
    ensures r.Out? ==> Extends(st, r.st)
    ensures |args| >= 2 && ElementsOf(st, args[0]).Some? ==>
      var es := ElementsOf(st, args[0]).value;
      r.Out? && r.value != args[0] && ElementsOf(r.st, args[0]) == Some(es) &&
      ElementsOf(r.st, r.value) == Some(es + args[1..])
  {
    if |args| < 2 then Out(Error(RequiresXArguments), st)
    else if args[0].Nil? then Stop(Crash)
    else if !args[0].Arr? then ArgumentError(st, args[0])
    else
      var es := ElementsOf(st, args[0]);
      if es.None? then Stop(Crash) else NewArray(st, es.value + args[1..])
  }

  /** `push` leaves its array as it was and gives a new one of length
      len(a) + the number pushed, holding a's elements first. */
  lemma PushAppends(st: State, a: Object, xs: seq<Object>)
    requires ElementsOf(st, a).Some? && |xs| > 0
    ensures var es := ElementsOf(st, a).value;
      var r := Push([a] + xs, st);
      r.Out? && r.value != a && ElementsOf(r.st, a) == Some(es) &&
      ElementsOf(r.st, r.value) == Some(es + xs) &&
      |es + xs| == |es| + |xs| && (es + xs)[..|es|] == es && (es + xs)[|es|..] == xs
  {
    assert ([a] + xs)[1..] == xs;
  }

  /** A push with nothing to push, or onto something other than an array,
      is an error. */
  lemma PushErrors(st: State, a: Object, x: Object)
    ensures Push([a], st) == Out(Error(RequiresXArguments), st)
    ensures a.Integer? ==> Push([a, x], st) == Out(Error(ArgumentMustBe), st)
  {
  }

  /** `pop` as written: `append(a[0:idx], a[idx+1:]...)` writes into a's
      storage before `a[idx]` is read, so for any position but the last the
      element returned is the one that followed the removed one. */
  function PopAsWritten(args: seq<Object>, st: State): (r: Outcome<Object>)
    ensures |args| < 1 ==> r == Out(Error(RequiresAtLeastXArguments), st)
    ensures r.Out? <==> Pop(args, st).Out?
    ensures r.Out? ==> r.st == Pop(args, st).st
    ensures r.Out? && r.value != Pop(args, st).value ==>
      |args| >= 1 && ElementsOf(st, args[0]).Some? && (|args| == 2 ==> args[1].Integer?) &&
      var es := ElementsOf(st, args[0]).value;
      var i := if |args| == 2 then args[1].intValue as int else |es| - 1;
      0 <= i < |es| - 1 && r.value == es[i + 1] && Pop(args, st).value == es[i]
  {
    if |args| < 1 then Out(Error(RequiresAtLeastXArguments), st)
    else if args[0].Nil? then Stop(Crash)
    else if !args[0].Arr? then ArgumentError(st, args[0])
    else
      var es := ElementsOf(st, args[0]);
      if es.None? then Stop(Crash)
      else if |args| == 2 && args[1].Nil? then Stop(Crash)
      else if |args| == 2 && !args[1].Integer? then ArgumentError(st, args[1])
      else
        var i := if |args| == 2 then args[1].intValue as int else |es.value| - 1;
        if i < 0 || i >= |es.value| then Stop(Crash)
        else
          var kept := es.value[..i] + es.value[i + 1..];
          var popped := if i < |es.value| - 1 then es.value[i + 1] else es.value[i];
          Out(popped, SetElements(st, args[0], kept))
  }

  /** `pop` as intended: the element at the position is removed and
      returned. */
  function Pop(args: seq<Object>, st: State): (r: Outcome<Object>)
    ensures |args| < 1 ==> r == Out(Error(RequiresAtLeastXArguments), st)
    ensures r.Out? ==> r.st.frames == st.frames && r.st.next == st.next && |r.st.heap| == |st.heap|
    ensures r.Out? && |args| >= 1 ==> forall i :: 0 <= i < |st.heap| && !(args[0].Arr? && i == args[0].aref) ==> r.st.heap[i] == st.heap[i]
    ensures r.Out? && |args| >= 1 && ElementsOf(st, args[0]).Some? && (|args| != 2 || args[1].Integer?) ==>
      var es := ElementsOf(st, args[0]).value;
      ElementsOf(r.st, args[0]).Some? && multiset(ElementsOf(r.st, args[0]).value) + multiset{r.value} == multiset(es)
  {
    if |args| < 1 then Out(Error(RequiresAtLeastXArguments), st)
    else if args[0].Nil? then Stop(Crash)
    else if !args[0].Arr? then ArgumentError(st, args[0])
    else
      var es := ElementsOf(st, args[0]);
      if es.None? then Stop(Crash)
      else if |args| == 2 && args[1].Nil? then Stop(Crash)
      else if |args| == 2 && !args[1].Integer? then ArgumentError(st, args[1])
      else
        var i := if |args| == 2 then args[1].intValue as int else |es.value| - 1;
        if i < 0 || i >= |es.value| then Stop(Crash)
        else
          assert es.value == es.value[..i] + [es.value[i]] + es.value[i + 1..];
          Out(es.value[i], SetElements(st, args[0], es.value[..i] + es.value[i + 1..]))
  }

  /** `pop(a, i)` for a position i of a returns a[i] and leaves a with its
      other elements in order; an empty array or a position outside it
      panics. */
  lemma PopRemoves(st: State, a: Object, i: Int64)
    requires ElementsOf(st, a).Some?
    ensures var es := ElementsOf(st, a).value;
      var r := Pop([a, Integer(i)], st);
      (0 <= i < |es| ==>
        var kept := es[..i] + es[i + 1..];
        r.Out? && r.value == es[i] && ElementsOf(r.st, a) == Some(kept) &&
        |kept| == |es| - 1 &&
        (forall j :: 0 <= j < i ==> kept[j] == es[j]) &&
        (forall j :: i <= j < |es| - 1 ==> kept[j] == es[j + 1]) &&
        multiset(kept) + multiset{es[i]} == multiset(es)) &&
      (!(0 <= i < |es|) ==> r == Stop(Crash))
  {
    var es := ElementsOf(st, a).value;
    if 0 <= i < |es| {
      assert es == es[..i] + [es[i]] + es[i + 1..];
    }
  }

  /** `pop(a, i)` as written, for a position i of a: a loses its element
      i, keeping the others in order, and the element returned is the one
      after position i, or the last element when i is the last position. */
  lemma PopAsWrittenRemoves(st: State, a: Object, i: Int64)
    requires ElementsOf(st, a).Some?
    ensures var es := ElementsOf(st, a).value;
      var r := PopAsWritten([a, Integer(i)], st);
      (0 <= i < |es| ==>
        var kept := es[..i] + es[i + 1..];
        r.Out? && ElementsOf(r.st, a) == Some(kept) &&
        r.value == (if i < |es| - 1 then es[i + 1] else es[i]) &&
        |kept| == |es| - 1 &&
        (forall j :: 0 <= j < i ==> kept[j] == es[j]) &&
        (forall j :: i <= j < |es| - 1 ==> kept[j] == es[j + 1])) &&
      (!(0 <= i < |es|) ==> r == Stop(Crash))
  {
  }

  /** `pop(a)` returns the last element and drops it
      (sonar-lang/evaluator/array_test.go): from [1, 2, 3] it returns 3 and
      leaves [1, 2]. */
  lemma PopLast(st: State, a: Object)
    requires ElementsOf(st, a).Some? && |ElementsOf(st, a).value| > 0
    ensures var es := ElementsOf(st, a).value;
      Pop([a], st) == Out(es[|es| - 1], SetElements(st, a, es[..|es| - 1])) &&
      PopAsWritten([a], st) == Pop([a], st)
  {
    var es := ElementsOf(st, a).value;
    assert es[..|es| - 1] + es[|es|..] == es[..|es| - 1];
  }

  /** `pop([1, 2, 3], 0)` as written returns 2 though it removes 1; the
      intended `pop` returns 1.  Both leave [2, 3]. */
  lemma PopReturnsNeighbour()
    ensures var es := [Integer(1), Integer(2), Integer(3)];
      var st := State([ArrayCell(es)], [], 0);
      var w := PopAsWritten([Arr(0), Integer(0)], st);
      var c := Pop([Arr(0), Integer(0)], st);
      w.Out? && w.value == Integer(2) && c.Out? && c.value == Integer(1) &&
      ElementsOf(w.st, Arr(0)) == Some([Integer(2), Integer(3)]) &&
      ElementsOf(c.st, Arr(0)) == Some([Integer(2), Integer(3)])
  {
    var es := [Integer(1), Integer(2), Integer(3)];
    assert es[..0] + es[1..] == [Integer(2), Integer(3)];
  }
}
