/** The operators of the evaluator (sonar-lang/evaluator/evaluator.go):
    truthiness, prefix and infix operators, indexing and key assignment.
    Each takes evaluated operands; the evaluator evaluates the operands and
    returns their errors before it gets here. */
module Operators {
  import opened Basics
  import opened Objects
  import opened State
  import opened SliceUtils

  // ---------------------------------------------------------------------
  // Truthiness and `!`

  /** `nativeBoolToBooleanObject`: one of the two shared booleans. */
  function NativeBool(b: bool): (r: Object)
    ensures r.Boolean? && r.boolValue == b && r.bid == Shared
  {
    if b then TRUE else FALSE
  }

  /** `isTruthy`: a pointer comparison against the three singletons. */
  predicate IsTruthy(o: Object) {
    if o == NULL then false
    else if o == TRUE then true
    else if o == FALSE then false
    else true
  }

  /** Only the shared FALSE and NULL are falsy: a false or null object
      allocated on its own, zero, the empty string and nil are all truthy. */
  lemma Truthiness(o: Object, n: nat)
    ensures !IsTruthy(o) <==> o == FALSE || o == NULL
    ensures IsTruthy(Boolean(false, Fresh(n))) && IsTruthy(Null(Fresh(n)))
    ensures IsTruthy(Integer(0)) && IsTruthy(Str("")) && IsTruthy(Nil)
  {
  }

  /** `evalBangOperatorExpression`. */
  function Bang(o: Object): (r: Object)
    ensures r == NativeBool(!IsTruthy(o))
  {
    if o == TRUE then FALSE
    else if o == FALSE then TRUE
    else if o == NULL then TRUE
    else FALSE
  }

  /** `!!x` is the shared boolean of x's truthiness. */
  lemma DoubleBang(o: Object)
    ensures Bang(Bang(o)) == NativeBool(IsTruthy(o))
  {
  }

  // ---------------------------------------------------------------------
  // Prefix operators

  /** `evalMinusPrefixOperatorExpression` on objects other than floats. */
  function Minus(o: Object): (r: Res<Object>)
    ensures o.Nil? <==> r.Fail?
    ensures o.Integer? ==> r == Done(Integer(Wrap64(-(o.intValue as int))))
    ensures !o.Nil? && !o.Integer? ==> r == Done(Error(UnknownOperator))
  {
    if o.Nil? then Fail(Crash)
    else if !o.Integer? then Done(Error(UnknownOperator))
    else Done(Integer(Wrap64(-(o.intValue as int))))
  }

  /** Negation is exact except on the smallest int64, which is its own
      negation in Go. */
  lemma MinusInt64(v: Int64)
    ensures v != MIN_INT64 ==> Minus(Integer(v)) == Done(Integer(-v))
    ensures Minus(Integer(MIN_INT64)) == Done(Integer(MIN_INT64))
  {
  }

  /** `evalPrefixExpression`: an unknown operator reports the type of its
      operand, which panics on nil. */
  function Prefix(op: string, right: Object): (r: Res<Object>)
    ensures op == "!" ==> r == Done(NativeBool(!IsTruthy(right)))
    ensures op == "-" ==> r == Minus(right)
    ensures op != "!" && op != "-" ==> (r.Fail? <==> right.Nil?)
    ensures op != "!" && op != "-" && r.Done? ==> r.value == Error(UnknownPrefixOperator)
  {
    if op == "!" then Done(Bang(right))
    else if op == "-" then Minus(right)
    else if right.Nil? then Fail(Crash)
    else Done(Error(UnknownPrefixOperator))
  }

  // ---------------------------------------------------------------------
  // Infix operators on integers and strings

  /** `evalIntegerInfixExpression`.  Division by zero is an error; any
      other division goes through float64 and fmt, which are not
      modelled. */
  function IntegerInfix(op: string, a: Int64, b: Int64): (r: Res<Object>)
    ensures r.Fail? <==> op == "/" && b != 0
    ensures op == "/" && b == 0 ==> r == Done(Error(ZeroDivision))
    ensures op in {"+", "-", "*"} ==> r.Done? && r.value.Integer?
    ensures op in {"<", ">", "==", "!=", "<=", ">="} ==> r == Done(TRUE) || r == Done(FALSE)
    ensures op !in {"+", "-", "*", "/", "<", ">", "==", "!=", "<=", ">="} ==> r == Done(Error(UnknownOperator))
  {
    if op == "+" then Done(Integer(Wrap64(a + b)))
    else if op == "-" then Done(Integer(Wrap64(a - b)))
    else if op == "*" then Done(Integer(Wrap64(a * b)))
    else if op == "/" then (if b == 0 then Done(Error(ZeroDivision)) else Fail(Unmodelled))
    else if op == "<" then Done(NativeBool(a < b))
    else if op == ">" then Done(NativeBool(a > b))
    else if op == "==" then Done(NativeBool(a == b))
    else if op == "!=" then Done(NativeBool(a != b))
    else if op == "<=" then Done(NativeBool(a <= b))
    else if op == ">=" then Done(NativeBool(a >= b))
    else Done(Error(UnknownOperator))
  }

  /** The arithmetic of two's-complement int64: each of `+ - *` gives the
      mathematical result modulo 2^64, exactly that result when it fits.  */
  lemma IntegerArithmetic(a: Int64, b: Int64)
    ensures forall op | op in ["+", "-", "*"] :: IntegerInfix(op, a, b).Done? && IntegerInfix(op, a, b).value.Integer?
    ensures (IntegerInfix("+", a, b).value.intValue - (a + b)) % TWO_64 == 0
    ensures (IntegerInfix("-", a, b).value.intValue - (a - b)) % TWO_64 == 0
    ensures (IntegerInfix("*", a, b).value.intValue - (a * b)) % TWO_64 == 0
    ensures MIN_INT64 <= a + b <= MAX_INT64 ==> IntegerInfix("+", a, b) == Done(Integer(a + b))
    ensures MIN_INT64 <= a - b <= MAX_INT64 ==> IntegerInfix("-", a, b) == Done(Integer(a - b))
    ensures MIN_INT64 <= a * b <= MAX_INT64 ==> IntegerInfix("*", a, b) == Done(Integer(a * b))
    ensures IntegerInfix("/", a, 0) == Done(Error(ZeroDivision))
  {
  }

  /** The six comparisons answer with the shared TRUE exactly when the
      comparison holds of the two values, and with FALSE otherwise. */
  lemma IntegerComparisons(a: Int64, b: Int64)
    ensures IntegerInfix("<", a, b) == Done(if a < b then TRUE else FALSE)
    ensures IntegerInfix(">", a, b) == Done(if a > b then TRUE else FALSE)
    ensures IntegerInfix("==", a, b) == Done(if a == b then TRUE else FALSE)
    ensures IntegerInfix("!=", a, b) == Done(if a != b then TRUE else FALSE)
    ensures IntegerInfix("<=", a, b) == Done(if a <= b then TRUE else FALSE)
    ensures IntegerInfix(">=", a, b) == Done(if a >= b then TRUE else FALSE)
  {
  }

  /** `evalStringInfixExpression`. */
  function StringInfix(op: string, a: string, b: string): (r: Object)
    ensures op == "+" ==> r.Str? && |r.strValue| == |a| + |b| && r.strValue[..|a|] == a && r.strValue[|a|..] == b
    ensures op == "-" ==> r.Str? && |r.strValue| <= |a|
    ensures op in {"==", "!=", "<", ">", "<=", ">="} ==> r == TRUE || r == FALSE
    ensures op == "==" ==> (r == TRUE <==> a == b)
    ensures op !in {"+", "-", "==", "!=", "<", ">", "<=", ">="} ==> r == Error(UnknownOperator)
  {
    if op == "+" then Str(a + b)
    else if op == "-" then Str(RemoveAll(a, b))
    else if op == "==" then NativeBool(a == b)
    else if op == "!=" then NativeBool(a != b)
    else if op == "<" then NativeBool(Less(a, b))
    else if op == ">" then NativeBool(Less(b, a))
    else if op == "<=" then NativeBool(LessEq(a, b))
    else if op == ">=" then NativeBool(LessEq(b, a))
    else Error(UnknownOperator)
  }

  /** String subtraction removes every occurrence: a string without the
      pattern is unchanged, removing "" changes nothing, and the result is
      never longer.  The order is a strict total order. */
  lemma StringOperators(a: string, b: string)
    ensures StringInfix("+", a, b) == Str(a + b)
    ensures !Contains(a, b) ==> StringInfix("-", a, b) == Str(a)
    ensures StringInfix("-", a, "") == Str(a)
    ensures |StringInfix("-", a, b).strValue| <= |a|
    ensures StringInfix("<", a, a) == FALSE && StringInfix("<=", a, a) == TRUE
    ensures a != b ==> (StringInfix("<", a, b) == TRUE <==> StringInfix(">", a, b) == FALSE)
  {
    if !Contains(a, b) { RemoveAllAbsent(a, b); }
    LessIrreflexive(a);
    if a != b {
      LessTotal(a, b);
      if Less(a, b) { LessAsymmetric(a, b); }
    }
  }

  // ---------------------------------------------------------------------
  // Infix operators on arrays

  /** `SliceChunkAsArrayObject(arr, n)`: one new array per chunk, then the
      array that holds them.  A zero size never ends and a negative one
      slices below zero. */
  function ChunkArray(st: State, es: seq<Object>, n: Int64): (r: Outcome<Object>)
    ensures r.Out? ==> Extends(st, r.st)
    ensures |es| > 0 && n == 0 ==> r == Stop(Diverge)
    ensures |es| > 0 && n < 0 ==> r == Stop(Crash)
    ensures |es| == 0 || n > 0 ==>
      r.Out? && ElementsOf(r.st, r.value).Some? &&
      |ElementsOf(r.st, r.value).value| == (if |es| == 0 then 0 else |Chunks(es, n)|)
  {
    if |es| == 0 then NewArray(st, [])
    else if n == 0 then Stop(Diverge)
    else if n < 0 then Stop(Crash)
    else
      var (refs, st1) := NewArrays(st, Chunks(es, n));
      NewArray(st1, refs)
  }

  /** `a - n` as written: Go's `append(a[0:n], a[n+1:]...)` writes into
      a's own storage, so a ends up with its element n dropped and its last
      element doubled; the result is a new array of the remaining
      elements. */
  function RemoveAtAsWritten(st: State, left: Object, es: seq<Object>, n: Int64): (r: Outcome<Object>)
    requires ElementsOf(st, left) == Some(es)
    ensures r.Out? <==> RemoveAt(st, es, n).Out?
    ensures !(0 <= n < |es|) ==> r == RemoveAt(st, es, n)
    ensures 0 <= n < |es| ==>
      r.value == RemoveAt(st, es, n).value &&
      ElementsOf(r.st, r.value) == ElementsOf(RemoveAt(st, es, n).st, r.value) &&
      ElementsOf(r.st, left) == Some(es[..n] + es[n + 1..] + [es[|es| - 1]])
  {
    if n >= |es| then Out(Error(OutOfRange), st)
    else if n < 0 then Stop(Crash)
    else
      var kept := es[..n] + es[n + 1..];
      NewArray(SetElements(st, left, kept + [es[|es| - 1]]), kept)
  }

  /** `a - n` as intended: a new array without element n, and a left as
      it was. */
  function RemoveAt(st: State, es: seq<Object>, n: Int64): (r: Outcome<Object>)
    ensures r.Out? ==> Extends(st, r.st)
    ensures n >= |es| ==> r == Out(Error(OutOfRange), st)
    ensures 0 <= n < |es| ==>
      r.Out? && ElementsOf(r.st, r.value).Some? &&
      multiset(ElementsOf(r.st, r.value).value) + multiset{es[n]} == multiset(es)
  {
    if n >= |es| then Out(Error(OutOfRange), st)
    else if n < 0 then Stop(Crash)
    else
      assert es == es[..n] + [es[n]] + es[n + 1..];
      NewArray(st, es[..n] + es[n + 1..])
  }

  /** `[1, 2, 3] - 0` as written leaves the operand holding [2, 3, 3];
      the intended operator leaves it holding [1, 2, 3].  Both give
      [2, 3]. */
  lemma RemoveAtChangesOperand()
    ensures var es := [Integer(1), Integer(2), Integer(3)];
      var st := State([ArrayCell(es)], [], 0);
      var w := RemoveAtAsWritten(st, Arr(0), es, 0);
      var c := RemoveAt(st, es, 0);
      w.Out? && ElementsOf(w.st, Arr(0)) == Some([Integer(2), Integer(3), Integer(3)]) &&
      ElementsOf(w.st, w.value) == Some([Integer(2), Integer(3)]) &&
      c.Out? && ElementsOf(c.st, Arr(0)) == Some(es) &&
      ElementsOf(c.st, c.value) == Some([Integer(2), Integer(3)])
  {
    var es := [Integer(1), Integer(2), Integer(3)];
    assert es[..0] + es[1..] == [Integer(2), Integer(3)];
    assert [Integer(2), Integer(3)] + [es[2]] == [Integer(2), Integer(3), Integer(3)];
  }

  /** `a * n`: n new arrays with a's elements, inside a new array. */
  function Repeat(st: State, es: seq<Object>, n: Int64): (r: Outcome<Object>)
    ensures r.Out? && Extends(st, r.st)
    ensures ElementsOf(r.st, r.value).Some? && |ElementsOf(r.st, r.value).value| == (if n <= 0 then 0 else n)
  {
    var count := if n <= 0 then 0 else n;
    var (refs, st1) := NewArrays(st, seq(count, _ => es));
    NewArray(st1, refs)
  }

  /** `evalArrayInfixExpression`. */
  function ArrayInfix(op: string, left: Object, right: Object, st: State): (r: Outcome<Object>)
    requires left.Arr?
    ensures r.Out? ==> r.st.frames == st.frames && |st.heap| <= |r.st.heap| && st.next <= r.st.next
    ensures r.Out? && !(op == "-" && right.Integer?) ==> Extends(st, r.st)
    ensures ElementsOf(st, left).Some? && !right.Arr? && !right.Integer? && !right.Nil? ==>
      r == Out(Error(UnacceptableRHSInArrayInfix), st)
    ensures ElementsOf(st, left).Some? && right.Integer? && op !in {"/", "-", "*"} ==> r == Out(Error(UnknownOperator), st)
  {
    var lv := ElementsOf(st, left);
    if lv.None? || right.Nil? then Stop(Crash)
    else if right.Arr? then
      var rv := ElementsOf(st, right);
      if rv.None? then Stop(Crash)
      else if op == "+" then NewArray(st, lv.value + rv.value)
      else if op == "==" || op == "!=" then
        var eq := ArraysEqual(st.heap, lv.value, rv.value);
        if eq.Fail? then Stop(eq.halt)
        else NewBoolean(st, if op == "==" then eq.value else !eq.value)
      else Out(Error(UnknownOperator), st)
    else if right.Integer? then
      if op == "/" then ChunkArray(st, lv.value, right.intValue)
      else if op == "-" then RemoveAtAsWritten(st, left, lv.value, right.intValue)
      else if op == "*" then Repeat(st, lv.value, right.intValue)
      else Out(Error(UnknownOperator), st)
    else Out(Error(UnacceptableRHSInArrayInfix), st)
  }

  // ---------------------------------------------------------------------
  // Infix operators on maps

  /** Some key of the map prints as t. */
  predicate SomeKeyPrints(heap: Heap, ps: seq<HashPair>, t: string) {
    exists i :: 0 <= i < |ps| && Text(heap, ps[i].key) == Done(t)
  }

  /** `evalMapInfixExpression`: `m - k` deletes k's key from m's own Go map
      when some key prints as k does, and returns a map object over the
      same Go map. */
  function MapInfix(op: string, left: Object, right: Object, st: State): (r: Outcome<Object>)
    requires left.Hash?
    ensures r.Out? ==> r.value == left || r.value.Error?
    ensures r.Out? ==> r.st.frames == st.frames && r.st.next == st.next && |r.st.heap| == |st.heap|
    ensures r.Out? ==> forall c :: 0 <= c < |st.heap| && c != left.href ==> r.st.heap[c] == st.heap[c]
    ensures op != "-" && !right.Nil? ==> r == Out(Error(UnknownOperator), st)
  {
    if op == "-" then
      var hk := HashKeyOf(right);
      var t := TextOf(st, right);
      var ps := PairsOf(st, left);
      if t.Fail? then Stop(t.halt)
      else if hk.None? then Out(Error(UnusableAsHashKey), st)
      else if ps.None? then Stop(Crash)
      else if SomeKeyPrints(st.heap, ps.value, t.value) then Out(left, SetPairs(st, left, Remove(ps.value, hk.value)))
      else Out(left, st)
    else if right.Nil? then Stop(Crash)
    else Out(Error(UnknownOperator), st)
  }

  // ---------------------------------------------------------------------
  // Dispatch

  /** `evalInfixExpression`, in the order of its switch: the logical
      operators look only at truthiness; the type tests panic on a nil
      operand once they reach it; two objects of a kind without operators
      of its own compare by pointer. */
  function Infix(op: string, left: Object, right: Object, st: State): (r: Outcome<Object>)
    ensures r.Out? ==> r.st.frames == st.frames && Grows(st, r.st)
  {
    if op == "and" then Out(NativeBool(IsTruthy(left) && IsTruthy(right)), st)
    else if op == "or" then Out(NativeBool(IsTruthy(left) || IsTruthy(right)), st)
    else if left.Nil? then Stop(Crash)
    else if (left.Integer? || left.Str?) && right.Nil? then Stop(Crash)
    else if left.Integer? && right.Integer? then Lift(IntegerInfix(op, left.intValue, right.intValue), st)
    else if left.Str? && right.Str? then Out(StringInfix(op, left.strValue, right.strValue), st)
    else if left.Arr? then ArrayInfix(op, left, right, st)
    else if left.Hash? then MapInfix(op, left, right, st)
    else if op == "==" then Out(NativeBool(left == right), st)
    else if op == "!=" then Out(NativeBool(left != right), st)
    else if right.Nil? then Stop(Crash)
    else if TypeOf(left) != TypeOf(right) then Out(Error(TypeMismatch), st)
    else Out(Error(UnknownOperator), st)
  }

  /** `and` and `or` combine truthiness, for operands of any kind, and
      answer with a shared boolean. */
  lemma LogicalOperators(l: Object, r: Object, st: State)
    ensures Infix("and", l, r, st) == Out(if IsTruthy(l) && IsTruthy(r) then TRUE else FALSE, st)
    ensures Infix("or", l, r, st) == Out(if IsTruthy(l) || IsTruthy(r) then TRUE else FALSE, st)
    ensures Infix("and", FALSE, r, st).value == FALSE && Infix("or", TRUE, r, st).value == TRUE
  {
  }

  /** Integers and strings neither read nor change the heap, environments
      or counter. */
  lemma ScalarInfixKeepsState(op: string, l: Object, r: Object, st: State)
    requires op != "and" && op != "or"
    requires (l.Integer? && r.Integer?) || (l.Str? && r.Str?)
    ensures Infix(op, l, r, st).Out? ==> Infix(op, l, r, st).st == st
    ensures l.Str? ==> Infix(op, l, r, st) == Out(StringInfix(op, l.strValue, r.strValue), st)
  {
  }

  /** Booleans and nulls other than through `and`/`or` compare by
      pointer: the shared booleans compare by value, while a boolean
      allocated on its own equals only itself. */
  lemma BooleansCompareByPointer(a: bool, b: bool, n: nat, st: State)
    ensures Infix("==", NativeBool(a), NativeBool(b), st) == Out(NativeBool(a == b), st)
    ensures Infix("!=", NativeBool(a), NativeBool(b), st) == Out(NativeBool(a != b), st)
    ensures Infix("==", Boolean(a, Fresh(n)), NativeBool(a), st) == Out(FALSE, st)
    ensures Infix("==", NULL, Null(Fresh(n)), st) == Out(FALSE, st)
  {
  }

  /** An integer against an object of another kind is a type mismatch,
      except for the pointer comparisons, which answer unequal. */
  lemma MixedOperands(op: string, v: Int64, r: Object, st: State)
    requires !r.Integer? && !r.Nil?
    requires op !in ["and", "or", "==", "!="]
    ensures Infix(op, Integer(v), r, st) == Out(Error(TypeMismatch), st)
    ensures Infix("==", Integer(v), r, st) == Out(FALSE, st)
  {
  }

  /** `a + b` on arrays is a new array holding a's elements then b's; no
      existing cell changes. */
  lemma ArrayConcat(st: State, l: Object, r: Object)
    requires ElementsOf(st, l).Some? && ElementsOf(st, r).Some?
    ensures var o := Infix("+", l, r, st);
      o.Out? && o.value == Arr(|st.heap|) && o.st.heap[..|st.heap|] == st.heap &&
      ElementsOf(o.st, o.value) == Some(ElementsOf(st, l).value + ElementsOf(st, r).value)
  {
  }

  /** `a == b` on arrays is a boolean allocated on its own whose value is
      `ObjectArrayEqual`, and `!=` its negation; so even a false answer is
      truthy. */
  lemma ArrayEquality(st: State, l: Object, r: Object)
    requires ElementsOf(st, l).Some? && ElementsOf(st, r).Some?
    requires ArraysEqual(st.heap, ElementsOf(st, l).value, ElementsOf(st, r).value).Done?
    ensures var eq := ArraysEqual(st.heap, ElementsOf(st, l).value, ElementsOf(st, r).value).value;
      Infix("==", l, r, st) == Out(Boolean(eq, Fresh(st.next)), st.(next := st.next + 1)) &&
      Infix("!=", l, r, st) == Out(Boolean(!eq, Fresh(st.next)), st.(next := st.next + 1)) &&
      IsTruthy(Infix("==", l, r, st).value)
  {
  }

  /** `a - n` as written, for 0 <= n < len(a): the result is a without
      its element n, and a's own storage is shifted over position n, so a
      keeps its length and ends with its last element twice.  An index
      past the end is an error. */
  lemma ArrayRemoveAsWritten(st: State, l: Object, n: Int64)
    requires ElementsOf(st, l).Some?
    ensures var es := ElementsOf(st, l).value;
      var o := Infix("-", l, Integer(n), st);
      (n >= |es| ==> o == Out(Error(OutOfRange), st)) &&
      (n < 0 && n < |es| ==> o == Stop(Crash)) &&
      (0 <= n < |es| ==>
        var kept := es[..n] + es[n + 1..];
        o.Out? &&
        ElementsOf(o.st, o.value) == Some(kept) &&
        |kept| == |es| - 1 &&
        (forall i :: 0 <= i < n ==> kept[i] == es[i]) &&
        (forall i :: n <= i < |es| - 1 ==> kept[i] == es[i + 1]) &&
        ElementsOf(o.st, l) == Some(kept + [es[|es| - 1]]))
  {
    var es := ElementsOf(st, l).value;
    if 0 <= n < |es| {
      var kept := es[..n] + es[n + 1..];
      assert Infix("-", l, Integer(n), st) == NewArray(SetElements(st, l, kept + [es[|es| - 1]]), kept);
    }
  }

  /** `a - n` as intended, for 0 <= n < len(a): the result is a without
      its element n, and a itself is unchanged.  An index past the end is
      an error. */
  lemma ArrayRemove(st: State, l: Object, n: Int64)
    requires ElementsOf(st, l).Some?
    ensures var es := ElementsOf(st, l).value;
      var o := RemoveAt(st, es, n);
      (n >= |es| ==> o == Out(Error(OutOfRange), st)) &&
      (n < 0 && n < |es| ==> o == Stop(Crash)) &&
      (0 <= n < |es| ==>
        var kept := es[..n] + es[n + 1..];
        o.Out? &&
        ElementsOf(o.st, o.value) == Some(kept) &&
        |kept| == |es| - 1 &&
        (forall i :: 0 <= i < n ==> kept[i] == es[i]) &&
        (forall i :: n <= i < |es| - 1 ==> kept[i] == es[i + 1]) &&
        multiset(kept) + multiset{es[n]} == multiset(es) &&
        ElementsOf(o.st, l) == Some(es))
  {
    var es := ElementsOf(st, l).value;
    if 0 <= n < |es| {
      assert es == es[..n] + [es[n]] + es[n + 1..];
    }
  }

  /** `a * n` holds n arrays each with a's elements (none when n <= 0). */
  lemma ArrayRepeat(st: State, l: Object, n: Int64)
    requires ElementsOf(st, l).Some?
    ensures var es := ElementsOf(st, l).value;
      var o := Infix("*", l, Integer(n), st);
      var count := if n <= 0 then 0 else n;
      o.Out? && ElementsOf(o.st, o.value).Some? && |ElementsOf(o.st, o.value).value| == count &&
      forall i :: 0 <= i < count ==> ElementsOf(o.st, ElementsOf(o.st, o.value).value[i]) == Some(es)
  {
    var es := ElementsOf(st, l).value;
    var count := if n <= 0 then 0 else n;
    var copies := seq(count, _ => es);
    var (refs, st1) := NewArrays(st, copies);
    var o := NewArray(st1, refs);
    assert Infix("*", l, Integer(n), st) == o;
    forall i | 0 <= i < count ensures ElementsOf(o.st, refs[i]) == Some(es) {
      assert refs[i] == Arr(|st.heap| + i);
      assert o.st.heap[|st.heap| + i] == ArrayCell(copies[i]);
    }
  }

  /** `a / n` for n > 0 of a non-empty array holds the chunks of a, each a
      new array; put back together they give a. */
  lemma ArrayChunk(st: State, l: Object, n: Int64)
    requires ElementsOf(st, l).Some? && ElementsOf(st, l).value != [] && n > 0
    ensures var es := ElementsOf(st, l).value;
      var o := Infix("/", l, Integer(n), st);
      var cs := Chunks(es, n);
      o.Out? && ElementsOf(o.st, o.value).Some? && |ElementsOf(o.st, o.value).value| == |cs| &&
      (forall i :: 0 <= i < |cs| ==> ElementsOf(o.st, ElementsOf(o.st, o.value).value[i]) == Some(cs[i])) &&
      Flatten(cs) == es
  {
    var es := ElementsOf(st, l).value;
    var cs := Chunks(es, n);
    var (refs, st1) := NewArrays(st, cs);
    var o := NewArray(st1, refs);
    assert Infix("/", l, Integer(n), st) == o;
    forall i | 0 <= i < |cs| ensures ElementsOf(o.st, refs[i]) == Some(cs[i]) {
      assert refs[i] == Arr(|st.heap| + i);
      assert o.st.heap[|st.heap| + i] == ArrayCell(cs[i]);
    }
    ChunksFlatten(es, n);
  }

  /** `m - k` changes m itself: when k's key is in m under a key that
      prints as k, afterwards m no longer has it and every other key is
      as before; when no key prints as k, m is unchanged. */
  lemma MapDelete(st: State, m: Object, k: Object)
    requires PairsOf(st, m).Some? && HashKeyOf(k).Some?
    ensures var ps := PairsOf(st, m).value;
      var o := Infix("-", m, k, st);
      var hk := HashKeyOf(k).value;
      o.Out? && o.value == m &&
      (SomeKeyPrints(st.heap, ps, TextOf(st, k).value) ==>
        PairsOf(o.st, m).Some? && Lookup(PairsOf(o.st, m).value, hk).None? &&
        forall k2 :: k2 != hk ==> Lookup(PairsOf(o.st, m).value, k2) == Lookup(ps, k2)) &&
      (!SomeKeyPrints(st.heap, ps, TextOf(st, k).value) ==> o.st == st)
  {
    var ps := PairsOf(st, m).value;
    var hk := HashKeyOf(k).value;
    forall k2 ensures Lookup(Remove(ps, hk), k2) == if k2 == hk then None else Lookup(ps, k2) {
      LookupRemove(ps, hk, k2);
    }
  }

  // ---------------------------------------------------------------------
  // Indexing

  /** `evalArrayIndexExpression`: a negative index counts from the end. */
  function ArrayIndex(es: seq<Object>, idx: Int64): (r: Res<Object>)
    ensures r.Done? ==> r.value in es || r.value == Error(OutOfRange)
    ensures r.Fail? <==> |es| > 0 && idx < -|es|
  {
    if |es| == 0 || idx > |es| - 1 then Done(Error(OutOfRange))
    else if idx >= 0 then Done(es[idx])
    else if |es| + idx >= 0 then Done(es[|es| + idx])
    else Fail(Crash)
  }

  /** The index rules, for every index: 0 <= i < len gives element i,
      -len <= i < 0 gives element len+i, i >= len is an out-of-range
      error, and i < -len panics. */
  lemma ArrayIndexRules(es: seq<Object>, i: Int64)
    ensures 0 <= i < |es| ==> ArrayIndex(es, i) == Done(es[i])
    ensures -|es| <= i < 0 ==> ArrayIndex(es, i) == Done(es[|es| + i])
    ensures i >= |es| ==> ArrayIndex(es, i) == Done(Error(OutOfRange))
    ensures i < -|es| ==> ArrayIndex(es, i) == (if |es| == 0 then Done(Error(OutOfRange)) else Fail(Crash))
  {
  }

  /** `evalStringindexExpression` as written: the bound is the length, not
      the last position, and a negative index is moved one too far. */
  function StringIndexAsWritten(s: string, idx: Int64): (r: Res<Object>)
    ensures 0 <= idx < |s| || idx > |s| || |s| == 0 ==> r == StringIndex(s, idx)
    ensures |s| > 0 && (idx == |s| || idx == -1) ==> r == Fail(Crash)
    ensures |s| > 0 && idx < -1 ==> r == StringIndex(s, idx + 1)
  {
    var max := |s|;
    if |s| == 0 || idx > max then Done(Error(OutOfRange))
    else
      var i := if idx < 0 then max + 1 + idx else idx as int;
      if 0 <= i < |s| then Done(Str([s[i]])) else Fail(Crash)
  }

  /** The string index as evidently intended: the same rules as arrays,
      on the characters of the string. */
  function StringIndex(s: string, idx: Int64): (r: Res<Object>)
    ensures r == ArrayIndex(StringIters(s), idx)
  {
    if |s| == 0 || idx > |s| - 1 then Done(Error(OutOfRange))
    else if idx >= 0 then Done(Str([s[idx]]))
    else if |s| + idx >= 0 then Done(Str([s[|s| + idx]]))
    else Fail(Crash)
  }

  /** On "abc" the code as written panics on index 3 instead of reporting
      it out of range, panics on -1 instead of giving the last character,
      and gives "b" for -3, where the corrected index gives "a". */
  lemma StringIndexOffByOne()
    ensures StringIndexAsWritten("abc", 3) == Fail(Crash) && StringIndex("abc", 3) == Done(Error(OutOfRange))
    ensures StringIndexAsWritten("abc", -1) == Fail(Crash) && StringIndex("abc", -1) == Done(Str("c"))
    ensures StringIndexAsWritten("abc", -3) == Done(Str("b")) && StringIndex("abc", -3) == Done(Str("a"))
  {
  }

  /** The two agree on every non-negative index below the length, which
      the tests exercise. */
  lemma StringIndexAgreesInside(s: string, i: Int64)
    requires 0 <= i < |s|
    ensures StringIndexAsWritten(s, i) == StringIndex(s, i) == Done(Str([s[i]]))
  {
  }

  /** `evalHashIndexExpression`: a missing key gives the shared NULL. */
  function HashIndex(heap: Heap, ps: seq<HashPair>, index: Object): (r: Res<Object>)
    ensures HashKeyOf(index).Some? ==>
      r == Done(if Lookup(ps, HashKeyOf(index).value).Some? then Lookup(ps, HashKeyOf(index).value).value.value else NULL)
    ensures HashKeyOf(index).None? && !index.Nil? ==> r.Fail? || r == Done(Error(UnusableAsHashKey))
  {
    var hk := HashKeyOf(index);
    if hk.None? then
      var t := Text(heap, index);
      if t.Fail? then Fail(t.halt) else Done(Error(UnusableAsHashKey))
    else
      var p := Lookup(ps, hk.value);
      if p.None? then Done(NULL) else Done(p.value.value)
  }

  /** `evalIndexExpression`: which indexing applies, in the order of its
      switch. */
  function Index(left: Object, index: Object, st: State): (r: Res<Object>)
    ensures r.Done? && ElementsOf(st, left).Some? && index.Integer? ==> r.value in ElementsOf(st, left).value || r.value == Error(OutOfRange)
    ensures r.Done? && left.Str? && index.Integer? ==> r.value == Error(OutOfRange) || (r.value.Str? && |r.value.strValue| == 1 && r.value.strValue[0] in left.strValue)
    ensures r.Done? && PairsOf(st, left).Some? && HashKeyOf(index).Some? ==>
      r.value == NULL || exists p :: p in PairsOf(st, left).value && p.value == r.value
    ensures !left.Arr? && !left.Str? && !left.Hash? && !left.Nil? ==> r == Done(Error(IndexOperatorNotAllowed))
  {
    if left.Nil? then Fail(Crash)
    else if left.Arr? && index.Nil? then Fail(Crash)
    else if left.Arr? && index.Integer? then
      var es := ElementsOf(st, left);
      if es.None? then Fail(Crash) else ArrayIndex(es.value, index.intValue)
    else if left.Str? && index.Nil? then Fail(Crash)
    else if left.Str? && index.Integer? then StringIndexAsWritten(left.strValue, index.intValue)
    else if left.Hash? then
      var ps := PairsOf(st, left);
      if ps.None? then Fail(Crash) else HashIndex(st.heap, ps.value, index)
    else Done(Error(IndexOperatorNotAllowed))
  }

  /** Only arrays, strings and maps can be indexed, arrays and strings only
      by integers. */
  lemma IndexNotAllowed(left: Object, index: Object, st: State)
    requires !left.Nil? && !index.Nil?
    requires !(left.Arr? && index.Integer?) && !(left.Str? && index.Integer?) && !left.Hash?
    ensures Index(left, index, st) == Done(Error(IndexOperatorNotAllowed))
  {
  }

  // ---------------------------------------------------------------------
  // Key assignment

  /** The `SquareBracketAssignment` case of `Eval` once its three operands
      are known not to be errors: an array is written in place at a
      non-negative index below its length, a map gets the pair under the
      key's hash key; the result is the container itself. */
  function KeyAssign(left: Object, index: Object, value: Object, st: State): (r: Outcome<Object>)
    ensures r.Out? ==> r.value == left || r.value.Error?
    ensures r.Out? ==> r.st.frames == st.frames && r.st.next == st.next && |r.st.heap| == |st.heap|
    ensures r.Out? && (left.Arr? || left.Hash?) ==>
      forall c :: 0 <= c < |st.heap| && c != (if left.Arr? then left.aref else left.href) ==> r.st.heap[c] == st.heap[c]
    ensures r.Out? && !left.Arr? && !left.Hash? ==> r.st == st
  {
    if left.Nil? then Stop(Crash)
    else if left.Arr? then
      var es := ElementsOf(st, left);
      if !index.Integer? || es.None? then Stop(Crash)
      else if index.intValue > |es.value| then Out(Error(OutOfRange), st)
      else if index.intValue < 0 || index.intValue == |es.value| then Stop(Crash)
      else Out(left, SetElements(st, left, es.value[index.intValue := value]))
    else if left.Hash? then
      var hk := HashKeyOf(index);
      var ps := PairsOf(st, left);
      if hk.None? then
        var t := TextOf(st, index);
        if t.Fail? then Stop(t.halt) else Out(Error(UnusableAsHashKey), st)
      else if ps.None? then Stop(Crash)
      else Out(left, SetPairs(st, left, Put(ps.value, HashPair(hk.value, index, value))))
    else Out(Error(UnacceptableTypeInKeyAssignment), st)
  }

  /** Reading back what was assigned gives the value: `a[i] = v; a[i]` and
      `m[k] = v; m[k]` both give v, and no other cell changes. */
  lemma KeyAssignThenIndex(left: Object, index: Object, value: Object, st: State)
    requires (left.Arr? && ElementsOf(st, left).Some? && index.Integer? && 0 <= index.intValue < |ElementsOf(st, left).value|)
          || (left.Hash? && PairsOf(st, left).Some? && HashKeyOf(index).Some?)
    ensures var o := KeyAssign(left, index, value, st);
      o.Out? && o.value == left && Index(left, index, o.st) == Done(value) &&
      |o.st.heap| == |st.heap| && o.st.frames == st.frames &&
      forall c :: 0 <= c < |st.heap| && c != (if left.Arr? then left.aref else left.href) ==> o.st.heap[c] == st.heap[c]
  {
    if left.Hash? {
      var ps := PairsOf(st, left).value;
      var hk := HashKeyOf(index).value;
      LookupPut(ps, HashPair(hk, index, value), hk);
    }
  }

  /** An array index past the end is an error, one at the end or below
      zero a panic; anything but an array or a map cannot be assigned
      into. */
  lemma KeyAssignErrors(left: Object, index: Object, value: Object, st: State)
    ensures left.Arr? && index.Integer? && ElementsOf(st, left).Some? && index.intValue > |ElementsOf(st, left).value| ==>
      KeyAssign(left, index, value, st) == Out(Error(OutOfRange), st)
    ensures left.Arr? && index.Integer? && ElementsOf(st, left).Some? && (index.intValue < 0 || index.intValue == |ElementsOf(st, left).value|) ==>
      KeyAssign(left, index, value, st) == Stop(Crash)
    ensures !left.Nil? && !left.Arr? && !left.Hash? ==>
      KeyAssign(left, index, value, st) == Out(Error(UnacceptableTypeInKeyAssignment), st)
  {
  }

  // ---------------------------------------------------------------------
  // Postfix and function results

  /** The value `x++` and `x--` store for the current value of x. */
  function Step(op: string, cur: Object): (r: Object)
    ensures op == "++" && cur.Integer? ==> r == Integer(Wrap64(cur.intValue + 1))
    ensures op == "--" && cur.Integer? ==> r == Integer(Wrap64(cur.intValue - 1))
    ensures (op == "++" || op == "--") && !cur.Integer? ==> r == Error(UnacceptableLHSInPostfix)
    ensures op != "++" && op != "--" ==> r == Error(UnknownOperator)
  {
    if op != "++" && op != "--" then Error(UnknownOperator)
    else if !cur.Integer? then Error(UnacceptableLHSInPostfix)
    else if op == "++" then Integer(Wrap64(cur.intValue + 1))
    else Integer(Wrap64(cur.intValue - 1))
  }

  /** `++` then `--` gives the value back, including across the int64
      wrap-around. */
  lemma StepInverse(v: Int64)
    ensures Step("--", Step("++", Integer(v))) == Integer(v)
    ensures Step("++", Step("--", Integer(v))) == Integer(v)
  {
    var up := Wrap64(v + 1);
    var down := Wrap64(v - 1);
    assert Wrap64(up as int - 1) == v by {
      if v == MAX_INT64 { assert up == MIN_INT64; }
    }
    assert Wrap64(down as int + 1) == v by {
      if v == MIN_INT64 { assert down == MAX_INT64; }
    }
  }

  /** `unwrapReturnValue`. */
  function Unwrap(o: Object): (r: Object)
    ensures o.ReturnValue? ==> r == o.inner
    ensures !o.ReturnValue? ==> r == o
  {
    if o.ReturnValue? then o.inner else o
  }
}
