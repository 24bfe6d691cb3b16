/** The slice helpers of sonar-lang/utils/slice.go: membership, chunking,
    reversal, sorting by printed text and element-wise equality.  Each loop
    of the source is a method proved against a function that says what it
    computes; the evaluator uses the functions. */
module SliceUtils {
  import opened Basics
  import opened Objects

  // ---------------------------------------------------------------------
  // SliceContains

  /** `SliceContains(slice, elm)`. */
  method SliceContains<T(==)>(slice: seq<T>, elm: T) returns (found: bool)
    ensures found <==> elm in slice
  {
    for i := 0 to |slice|
      invariant elm !in slice[..i]
    {
      if slice[i] == elm {
        return true;
      }
    }
    return false;
  }

  // ---------------------------------------------------------------------
  // SliceChunk

  /** The chunks of size `size` that `SliceChunk` cuts arr into, the last
      one possibly shorter. */
  function Chunks<T>(arr: seq<T>, size: nat): seq<seq<T>>
    requires size > 0
    decreases |arr|
  {
    if |arr| == 0 then []
    else if |arr| <= size then [arr]
    else [arr[..size]] + Chunks(arr[size..], size)
  }

  function Flatten<T>(xs: seq<seq<T>>): seq<T> decreases |xs| {
    if |xs| == 0 then [] else xs[0] + Flatten(xs[1..])
  }

  /** `SliceChunk(arr, size)` for a positive size (a zero size never ends
      and a negative one panics; the evaluator handles both before calling). */
  method SliceChunk<T>(arr: seq<T>, size: nat) returns (chunks: seq<seq<T>>)
    requires size > 0
    ensures chunks == Chunks(arr, size)
  {
    chunks := [];
    var i := 0;
    while i < |arr|
      invariant 0 <= i <= |arr|
      invariant chunks + Chunks(arr[i..], size) == Chunks(arr, size)
      decreases |arr| - i
    {
      var end := i + size;
      if end > |arr| {
        end := |arr|;
      }
      ChunkStep(arr, i, size);
      chunks := chunks + [arr[i..end]];
      i := end;
    }
    assert arr[i..] == [];
  }

  /** One round of the loop in `SliceChunk`: the first chunk of what is
      left, and the chunks after it. */
  lemma ChunkStep<T>(arr: seq<T>, i: nat, size: nat)
    requires size > 0 && i < |arr|
    ensures var end := if i + size > |arr| then |arr| else i + size;
      Chunks(arr[i..], size) == [arr[i..end]] + Chunks(arr[end..], size)
  {
    var end := if i + size > |arr| then |arr| else i + size;
    if |arr[i..]| <= size {
      assert arr[i..end] == arr[i..];
      assert arr[end..] == [];
    } else {
      assert arr[i..][..size] == arr[i..end];
      assert arr[i..][size..] == arr[end..];
    }
  }

  /** The chunks put back together give arr. */
  lemma {:induction false} ChunksFlatten<T>(arr: seq<T>, size: nat)
    requires size > 0
    ensures Flatten(Chunks(arr, size)) == arr
    decreases |arr|
  {
    if |arr| > size {
      ChunksFlatten(arr[size..], size);
      assert arr == arr[..size] + arr[size..];
    } else if |arr| > 0 {
      assert Flatten([arr]) == arr + Flatten([arr][1..]);
    }
  }

  /** Every chunk has `size` elements except the last, which has between
      one and `size`; there are ceil(|arr| / size) of them, that is, the
      fewest chunks of that size that hold all of arr. */
  lemma {:induction false} ChunksShape<T>(arr: seq<T>, size: nat)
    requires size > 0
    ensures var cs := Chunks(arr, size);
      (|cs| == 0 <==> |arr| == 0) &&
      (forall i :: 0 <= i < |cs| - 1 ==> |cs[i]| == size) &&
      (|cs| > 0 ==> 1 <= |cs[|cs| - 1]| <= size) &&
      (|cs| > 0 ==> (|cs| - 1) * size < |arr| <= |cs| * size)
    decreases |arr|
  {
    var cs := Chunks(arr, size);
    if |arr| > size {
      ChunksShape(arr[size..], size);
      var rest := Chunks(arr[size..], size);
      assert cs == [arr[..size]] + rest;
      assert |cs| * size == |rest| * size + size;
      assert (|cs| - 1) * size == (|rest| - 1) * size + size;
      forall i | 0 <= i < |cs| - 1 ensures |cs[i]| == size {
        if i > 0 { assert cs[i] == rest[i - 1]; }
      }
    }
  }

  // ---------------------------------------------------------------------
  // ReverseSlice

  /** The elements of s in the opposite order. */
  function Reversed<T>(s: seq<T>): seq<T> decreases |s| {
    if |s| == 0 then [] else Reversed(s[1..]) + [s[0]]
  }

  /** Position i of the reversal holds the element at |s| - 1 - i. */
  lemma {:induction false} ReversedAt<T>(s: seq<T>)
    ensures |Reversed(s)| == |s|
    ensures forall i :: 0 <= i < |s| ==> Reversed(s)[i] == s[|s| - 1 - i]
    decreases |s|
  {
    if |s| > 0 {
      ReversedAt(s[1..]);
    }
  }

  /** Reversing twice gives the original. */
  lemma ReversedTwice<T>(s: seq<T>)
    ensures Reversed(Reversed(s)) == s
  {
    ReversedAt(s);
    ReversedAt(Reversed(s));
  }

  /** `ReverseSlice(arr)`: copies arr, then swaps from both ends inward
      until the indices meet.  arr itself is a value and stays as it was. */
  method ReverseSlice<T>(arr: seq<T>) returns (r: seq<T>)
    ensures r == Reversed(arr)
  {
    var s := new T[|arr|](k requires 0 <= k < |arr| => arr[k]);
    var i, j := 0, |arr| - 1;
    while i < j
      invariant 0 <= i && i + j == |arr| - 1 && i <= j + 1
      invariant forall k :: 0 <= k < i ==> s[k] == arr[|arr| - 1 - k] && s[|arr| - 1 - k] == arr[k]
      invariant forall k :: i <= k <= j ==> s[k] == arr[k]
      decreases j - i
    {
      s[i], s[j] := s[j], s[i];
      i, j := i + 1, j - 1;
    }
    r := s[..];
    ReversedAt(arr);
    forall k | 0 <= k < |arr| ensures r[k] == arr[|arr| - 1 - k] {
      if i <= k <= j { assert k == |arr| - 1 - k; }
      else if k >= i { assert |arr| - 1 - k < i; }
    }
  }

  // ---------------------------------------------------------------------
  // SortObjectArray

  /** An element together with its `Inspect()` text, the sort key. */
  datatype Keyed = Keyed(text: string, obj: Object)

  predicate SortedByText(s: seq<Keyed>) {
    forall i, j :: 0 <= i < j < |s| ==> LessEq(s[i].text, s[j].text)
  }

  /** Inserts k before the first element whose text it does not exceed. */
  function Insert(k: Keyed, s: seq<Keyed>): seq<Keyed> decreases |s| {
    if |s| == 0 || LessEq(k.text, s[0].text) then [k] + s else [s[0]] + Insert(k, s[1..])
  }

  /** Insertion sort by text, the order `SortObjectArray` produces (Go's
      sort.Slice may order elements with equal texts differently). */
  function SortByText(s: seq<Keyed>): seq<Keyed> decreases |s| {
    if |s| == 0 then [] else Insert(s[0], SortByText(s[1..]))
  }

  lemma {:induction false} InsertKeeps(k: Keyed, s: seq<Keyed>)
    ensures multiset(Insert(k, s)) == multiset{k} + multiset(s)
    ensures |Insert(k, s)| == |s| + 1
    decreases |s|
  {
    if |s| > 0 && !LessEq(k.text, s[0].text) {
      InsertKeeps(k, s[1..]);
      assert s == [s[0]] + s[1..];
    }
  }

  lemma {:induction false} InsertSorted(k: Keyed, s: seq<Keyed>)
    requires SortedByText(s)
    ensures SortedByText(Insert(k, s))
    ensures |Insert(k, s)| > 0 && (Insert(k, s)[0] == k || (|s| > 0 && Insert(k, s)[0] == s[0]))
    decreases |s|
  {
    if |s| > 0 && !LessEq(k.text, s[0].text) {
      InsertSorted(k, s[1..]);
      var t := Insert(k, s[1..]);
      LessTotal(k.text, s[0].text);
      forall i, j | 0 <= i < j < |[s[0]] + t| ensures LessEq(([s[0]] + t)[i].text, ([s[0]] + t)[j].text) {
        if i == 0 {
          InsertMember(k, s[1..], j - 1);
          var x := t[j - 1];
          if x != k {
            assert x in s[1..];
            var m :| 0 <= m < |s[1..]| && s[1..][m] == x;
            assert s[m + 1] == x;
          }
        }
      }
    } else if |s| > 0 {
      forall i, j | 0 <= i < j < |[k] + s| ensures LessEq(([k] + s)[i].text, ([k] + s)[j].text) {
        if i == 0 && j > 1 {
          assert LessEq(s[0].text, s[j - 1].text);
          LessEqTransitive(k.text, s[0].text, s[j - 1].text);
        }
      }
    }
  }

  /** Every element of an insertion is the inserted one or an old one. */
  lemma {:induction false} InsertMember(k: Keyed, s: seq<Keyed>, i: nat)
    requires i < |Insert(k, s)|
    ensures Insert(k, s)[i] == k || Insert(k, s)[i] in s
    decreases |s|
  {
    InsertKeeps(k, s);
    var x := Insert(k, s)[i];
    assert x in multiset(Insert(k, s));
  }

  lemma LessEqTransitive(a: string, b: string, c: string)
    requires LessEq(a, b) && LessEq(b, c)
    ensures LessEq(a, c)
  {
    if a != b && b != c { LessTransitive(a, b, c); }
  }

  /** The sorted sequence is ordered by text and is a permutation of the
      input. */
  lemma {:induction false} SortByTextCorrect(s: seq<Keyed>)
    ensures SortedByText(SortByText(s))
    ensures multiset(SortByText(s)) == multiset(s)
    decreases |s|
  {
    if |s| > 0 {
      SortByTextCorrect(s[1..]);
      InsertSorted(s[0], SortByText(s[1..]));
      InsertKeeps(s[0], SortByText(s[1..]));
      assert s == [s[0]] + s[1..];
    }
  }

  /** The sort of `SortObjectArray`, in place on the copy it makes: each
      element from the right end leftwards is inserted into the sorted
      part after it. */
  method SortInPlace(a: array<Keyed>)
    modifies a
    ensures a[..] == SortByText(old(a[..]))
  {
    ghost var input := a[..];
    var i := a.Length;
    while i > 0
      invariant 0 <= i <= a.Length
      invariant a[..i] == input[..i]
      invariant a[i..] == SortByText(input[i..])
      decreases i
    {
      i := i - 1;
      ghost var before := a[..];
      assert before[i] == input[i] && before[i + 1..] == SortByText(input[i + 1..]);
      InsertLeftmost(a, i);
      assert input[i..][1..] == input[i + 1..];
      assert a[..i] == before[..i];
    }
  }

  /** Moves a[i] rightwards into the sorted run after it, shifting the
      smaller elements one place left. */
  method InsertLeftmost(a: array<Keyed>, i: nat)
    requires i < a.Length
    modifies a
    ensures a[..i] == old(a[..i])
    ensures a[i..] == Insert(old(a[i]), old(a[i + 1..]))
  {
    ghost var prior := a[..];
    ghost var t := a[i + 1..];
    var x := a[i];
    var n := a.Length;
    var j := i;
    assert t[..0] == [] && t[0..] == t;
    while j + 1 < n && !LessEq(x.text, a[j + 1].text)
      invariant n == a.Length
      invariant Shifting(a[..], prior, i, j, x, t)
      decreases n - j
    {
      ShiftStep(a[..], prior, i, j, x, t);
      ghost var s := a[..];
      a[j] := a[j + 1];
      assert a[..] == s[j := s[j + 1]];
      j := j + 1;
    }
    Placed(a[..], prior, i, j, x, t);
    ghost var s := a[..];
    a[j] := x;
    assert a[..] == s[j := x];
  }

  /** The state of InsertLeftmost's loop: before i nothing has moved, the
      elements of the run before j have moved one place left, those after
      j are where they were, and the insertion has passed over the first
      j - i of them. */
  ghost predicate Shifting(s: seq<Keyed>, prior: seq<Keyed>, i: nat, j: nat, x: Keyed, t: seq<Keyed>) {
    |s| == |prior| && i <= j < |s| && |t| == |s| - i - 1 &&
    (forall k :: 0 <= k < i ==> s[k] == prior[k]) &&
    (forall k :: i <= k < j ==> s[k] == t[k - i]) &&
    (forall k :: j < k < |s| ==> s[k] == t[k - i - 1]) &&
    Insert(x, t) == t[..j - i] + Insert(x, t[j - i..])
  }

  lemma ShiftStep(s: seq<Keyed>, prior: seq<Keyed>, i: nat, j: nat, x: Keyed, t: seq<Keyed>)
    requires Shifting(s, prior, i, j, x, t) && j + 1 < |s| && !LessEq(x.text, s[j + 1].text)
    ensures Shifting(s[j := s[j + 1]], prior, i, j + 1, x, t)
  {
    assert s[j + 1] == t[j - i];
    InsertStep(x, t, j - i);
  }

  lemma Placed(s: seq<Keyed>, prior: seq<Keyed>, i: nat, j: nat, x: Keyed, t: seq<Keyed>)
    requires Shifting(s, prior, i, j, x, t) && (j + 1 == |s| || LessEq(x.text, s[j + 1].text))
    ensures s[j := x][..i] == prior[..i]
    ensures s[j := x][i..] == Insert(x, t)
  {
    var r := s[j := x];
    var m := j - i;
    assert m == |t| || LessEq(x.text, t[m].text);
    assert Insert(x, t[m..]) == [x] + t[m..];
    var want := t[..m] + [x] + t[m..];
    assert r[i..] == want by {
      forall k | i <= k < |r| ensures r[k] == want[k - i] {
        if k < j { assert want[k - i] == t[k - i]; }
        else if k > j { assert want[k - i] == t[k - i - 1]; }
      }
    }
  }

  /** Insertion passes over an element whose text is smaller. */
  lemma InsertStep(x: Keyed, t: seq<Keyed>, m: nat)
    requires m < |t| && !LessEq(x.text, t[m].text)
    requires Insert(x, t) == t[..m] + Insert(x, t[m..])
    ensures Insert(x, t) == t[..m + 1] + Insert(x, t[m + 1..])
  {
    assert t[m..][1..] == t[m + 1..];
    assert t[..m + 1] == t[..m] + [t[m]];
  }

  // ---------------------------------------------------------------------
  // ObjectArrayEqual

  /** Positions from i on agree: for each, `Type()` of both sides (the
      second array's element first), then, when the types agree, both
      `Inspect()` texts.  The first disagreement answers false. */
  function EqualFrom(heap: Heap, a: seq<Object>, b: seq<Object>, i: nat): Res<bool>
    requires |a| == |b| && i <= |a|
    decreases |a| - i
  {
    if i == |a| then Done(true)
    else
      var te := TypeOf(b[i]);
      if te.Fail? then Fail(te.halt)
      else
        var tv := TypeOf(a[i]);
        if tv.Fail? then Fail(tv.halt)
        else if te != tv then Done(false)
        else
          var ie := Text(heap, b[i]);
          if ie.Fail? then Fail(ie.halt)
          else
            var iv := Text(heap, a[i]);
            if iv.Fail? then Fail(iv.halt)
            else if ie != iv then Done(false)
            else EqualFrom(heap, a, b, i + 1)
  }

  /** `ObjectArrayEqual(arr1, arr2)` on the two element lists. */
  function ArraysEqual(heap: Heap, a: seq<Object>, b: seq<Object>): Res<bool> {
    if |a| != |b| then Done(false) else EqualFrom(heap, a, b, 0)
  }

  /** `ObjectArrayEqual`, as the loop the source runs. */
  method ObjectArrayEqual(heap: Heap, arr1: seq<Object>, arr2: seq<Object>) returns (r: Res<bool>)
    ensures r == ArraysEqual(heap, arr1, arr2)
  {
    if |arr1| != |arr2| {
      return Done(false);
    }
    for i := 0 to |arr1|
      invariant EqualFrom(heap, arr1, arr2, 0) == EqualFrom(heap, arr1, arr2, i)
    {
      var elm := arr2[i];
      var v := arr1[i];
      var te := TypeOf(elm);
      var tv := TypeOf(v);
      if te.Fail? { return Fail(te.halt); }
      if tv.Fail? { return Fail(tv.halt); }
      if te != tv { return Done(false); }
      var ie := Text(heap, elm);
      if ie.Fail? { return Fail(ie.halt); }
      var iv := Text(heap, v);
      if iv.Fail? { return Fail(iv.halt); }
      if ie != iv { return Done(false); }
    }
    return Done(true);
  }

  /** Two elements agree on type and on printed text, both of which exist. */
  predicate Agree(heap: Heap, x: Object, y: Object) {
    TypeOf(x).Done? && TypeOf(x) == TypeOf(y) && Text(heap, x).Done? && Text(heap, x) == Text(heap, y)
  }

  /** The arrays are equal exactly when they have the same length and
      every position agrees on type and text; a failure to print stops
      the comparison. */
  lemma {:induction false} EqualFromMeaning(heap: Heap, a: seq<Object>, b: seq<Object>, i: nat)
    requires |a| == |b| && i <= |a|
    ensures EqualFrom(heap, a, b, i) == Done(true) <==>
      forall k :: i <= k < |a| ==> Agree(heap, a[k], b[k])
    decreases |a| - i
  {
    if i < |a| {
      EqualFromMeaning(heap, a, b, i + 1);
    }
  }

  /** An array whose elements all print equals itself. */
  lemma ArraysEqualReflexive(heap: Heap, a: seq<Object>)
    requires forall k :: 0 <= k < |a| ==> Text(heap, a[k]).Done?
    ensures ArraysEqual(heap, a, a) == Done(true)
  {
    forall k | 0 <= k < |a| ensures TypeOf(a[k]).Done? {
      assert !a[k].Nil?;
    }
    EqualFromMeaning(heap, a, a, 0);
  }

  /** Whenever the comparison gives an answer, the other order gives the
      same one. */
  lemma {:induction false} EqualFromSymmetric(heap: Heap, a: seq<Object>, b: seq<Object>, i: nat)
    requires |a| == |b| && i <= |a|
    requires EqualFrom(heap, a, b, i).Done?
    ensures EqualFrom(heap, b, a, i) == EqualFrom(heap, a, b, i)
    decreases |a| - i
  {
    if i < |a| && TypeOf(a[i]) == TypeOf(b[i]) && Text(heap, a[i]) == Text(heap, b[i]) {
      EqualFromSymmetric(heap, a, b, i + 1);
    }
  }

  lemma ArraysEqualSymmetric(heap: Heap, a: seq<Object>, b: seq<Object>)
    requires ArraysEqual(heap, a, b).Done?
    ensures ArraysEqual(heap, b, a) == ArraysEqual(heap, a, b)
  {
    if |a| == |b| { EqualFromSymmetric(heap, a, b, 0); }
  }
}
