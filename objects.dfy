/** Runtime values of the interpreter (sonar-lang/object/object.go).

    Go objects are pointers.  Integers and strings are never compared by
    pointer, so they are plain values here.  Booleans, nulls, functions and
    return values are compared by pointer in the evaluator, so they carry an
    identity: `Shared` for the TRUE, FALSE and NULL singletons of the
    evaluator, `Fresh(n)` for an object allocated on its own.  Arrays and
    maps are mutated in place, so they are references into a heap of cells.
    Go's nil object is `Nil`; calling a method on it panics. */
module Objects {
  import opened Basics
  import opened Token
  import opened Ast

  // ---------------------------------------------------------------------
  // How a computation can fail to produce a value

  /** Crash: a Go panic (nil dereference, index out of range, stack
      overflow).  Diverge: a loop that never ends.  OutOfFuel: the
      evaluation needs more steps than the model was given.  Unmodelled:
      floating point and the few objects whose methods are not in the
      source. */
  datatype Halt = Crash | Diverge | OutOfFuel | Unmodelled

  datatype Res<T> = Done(value: T) | Fail(halt: Halt)

  // ---------------------------------------------------------------------
  // Object types

  datatype ObjType =
    | INTEGER_OBJ | FLOAT_OBJ | BOOLEAN_OBJ | NULL_OBJ | STRING_OBJ
    | RETURN_VALUE_OBJ | ERROR_OBJ | FUNCTION_OBJ | BUILTIN_OBJ
    | ARRAY_OBJ | HASH_OBJ | BREAK_OBJ | CONTINUE_OBJ

  /** The string value of each type constant.  The evaluator also uses
      BREAK_OBJ and CONTINUE_OBJ, which object.go does not define: they are
      distinct tags here whose text is unknown. */
  function TypeName(t: ObjType): (r: Option<string>)
    ensures r.None? <==> t == BREAK_OBJ || t == CONTINUE_OBJ
  {
    match t
    case NULL_OBJ => Some("NULL")
    case ERROR_OBJ => Some("ERROR")
    case INTEGER_OBJ => Some("INTEGER")
    case FLOAT_OBJ => Some("FLOAT")
    case BOOLEAN_OBJ => Some("BOOLEAN")
    case STRING_OBJ => Some("STRING")
    case RETURN_VALUE_OBJ => Some("RETURN_VALUE")
    case FUNCTION_OBJ => Some("FUNCTION")
    case BUILTIN_OBJ => Some("BUILTIN")
    case ARRAY_OBJ => Some("ARRAY")
    case HASH_OBJ => Some("MAP")
    case _ => None
  }

  /** Distinct types have distinct names. */
  lemma TypeNamesDistinct(a: ObjType, b: ObjType)
    requires TypeName(a).Some? && TypeName(b).Some? && a != b
    ensures TypeName(a) != TypeName(b)
  {
  }

  // ---------------------------------------------------------------------
  // Objects

  datatype Identity = Shared | Fresh(n: nat)

  /** The error an `Error` object reports.  The message texts built in
      sonar-lang/errors are not modelled, only which error it is. */
  datatype ErrorKind =
    | IdentifierAlreadyDefined | IdentifierNotDefined
    | UnknownPrefixOperator | UnknownOperator | TypeMismatch
    | ZeroDivision | UnusableAsHashKey | OutOfRange | InvalidRange
    | UnacceptableRHSInArrayInfix | IndexOperatorNotAllowed
    | IllegalToken | UnacceptableLHSInPostfix
    | UnacceptableTypeInKeyAssignment | NonIterableInForLoop
    | NotAFunction | RequiresXArguments | RequiresAtLeastXArguments
    | RequiresAtMostXArguments | TypeOfArgumentNotAllowed
    | ArgumentMustBe | TypeCannotBeCopied | IllegalConversion

  datatype Object =
    | Integer(intValue: Int64)
    | Boolean(boolValue: bool, bid: Identity)
    | Null(nid: Identity)
    | Str(strValue: string)
    | ReturnValue(inner: Object, rid: nat)
    | Error(kind: ErrorKind)
    | Function(parameters: seq<Identifier>, body: Block, env: nat, fid: nat)
    | Builtin(name: string)
    | Arr(aref: nat)
    | Hash(href: nat)
    | Break
    | Continue
    | Nil

  const TRUE: Object := Boolean(true, Shared)
  const FALSE: Object := Boolean(false, Shared)
  const NULL: Object := Null(Shared)

  /** `Type()`: a fixed tag per kind of object; a panic on nil. */
  function TypeOf(o: Object): (r: Res<ObjType>)
    ensures r.Fail? <==> o.Nil?
    ensures r.Fail? ==> r.halt == Crash
    ensures o.Hash? ==> r == Done(HASH_OBJ) && TypeName(r.value) == Some("MAP")
    ensures o.Arr? ==> r == Done(ARRAY_OBJ)
    ensures o.Str? ==> r == Done(STRING_OBJ)
    ensures o.Integer? ==> r == Done(INTEGER_OBJ)
  {
    match o
    case Integer(_) => Done(INTEGER_OBJ)
    case Boolean(_, _) => Done(BOOLEAN_OBJ)
    case Null(_) => Done(NULL_OBJ)
    case Str(_) => Done(STRING_OBJ)
    case ReturnValue(_, _) => Done(RETURN_VALUE_OBJ)
    case Error(_) => Done(ERROR_OBJ)
    case Function(_, _, _, _) => Done(FUNCTION_OBJ)
    case Builtin(_) => Done(BUILTIN_OBJ)
    case Arr(_) => Done(ARRAY_OBJ)
    case Hash(_) => Done(HASH_OBJ)
    case Break => Done(BREAK_OBJ)
    case Continue => Done(CONTINUE_OBJ)
    case Nil => Fail(Crash)
  }

  /** Type() as a test that does not panic: false for nil. */
  predicate HasType(o: Object, t: ObjType) {
    TypeOf(o) == Done(t)
  }

  // ---------------------------------------------------------------------
  // Hash keys

  datatype HashKey = HashKey(typ: ObjType, value: Uint64)

  const FNV_OFFSET: bv64 := 0xcbf2_9ce4_8422_2325
  const FNV_PRIME: bv64 := 0x0000_0100_0000_01b3

  /** 64-bit FNV-1a of the bytes of s (hash/fnv's New64a), with the state
      passed in. */
  function Fnv1a(h: bv64, s: string): bv64 decreases |s| {
    if |s| == 0 then h
    else Fnv1a((h ^ ((s[0] as int % 256) as bv64)) * FNV_PRIME, s[1..])
  }

  /** The 64-bit FNV-1a hash of a string, as a number. */
  function StringHash(s: string): Uint64 {
    Fnv1a(FNV_OFFSET, s) as int
  }

  /** `HashKey()` of the hashable objects (integers, booleans and strings);
      None for an object that has no HashKey method. */
  function HashKeyOf(o: Object): (r: Option<HashKey>)
    ensures r.Some? <==> o.Integer? || o.Boolean? || o.Str?
    ensures r.Some? ==> TypeOf(o) == Done(r.value.typ)
    ensures o.Integer? ==> r == Some(HashKey(INTEGER_OBJ, ToUint64(o.intValue)))
    ensures o.Boolean? ==> r == Some(HashKey(BOOLEAN_OBJ, if o.boolValue then 1 else 0))
  {
    match o
    case Integer(v) => Some(HashKey(INTEGER_OBJ, ToUint64(v)))
    case Boolean(b, _) => Some(HashKey(BOOLEAN_OBJ, if b then 1 else 0))
    case Str(s) => Some(HashKey(STRING_OBJ, StringHash(s)))
    case _ => None
  }

  /** Two integers have the same key exactly when they have the same value,
      and so do two booleans. */
  lemma IntegerKeysInjective(a: Int64, b: Int64)
    ensures HashKeyOf(Integer(a)) == HashKeyOf(Integer(b)) <==> a == b
  {
    if HashKeyOf(Integer(a)) == HashKeyOf(Integer(b)) { ToUint64Injective(a, b); }
  }

  lemma BooleanKeys(a: Object, b: Object)
    requires a.Boolean? && b.Boolean?
    ensures HashKeyOf(a) == HashKeyOf(b) <==> a.boolValue == b.boolValue
  {
  }

  /** The type tag is part of the key: objects of different types never
      share a key, whatever their values. */
  lemma KeysOfDifferentTypesDiffer(a: Object, b: Object)
    requires HashKeyOf(a).Some? && HashKeyOf(b).Some?
    requires TypeOf(a) != TypeOf(b)
    ensures HashKeyOf(a) != HashKeyOf(b)
  {
  }

  // ---------------------------------------------------------------------
  // The heap and Go maps

  datatype HashPair = HashPair(hkey: HashKey, key: Object, value: Object)

  /** One Go map: its pairs, in the order its iteration visits them, with at
      most one pair per key. */
  predicate DistinctKeys(ps: seq<HashPair>) {
    forall i, j :: 0 <= i < j < |ps| ==> ps[i].hkey != ps[j].hkey
  }

  datatype Cell = ArrayCell(elements: seq<Object>) | HashCell(pairs: seq<HashPair>)

  type Heap = seq<Cell>

  /** `pairs[k]` with its `ok` flag. */
  function Lookup(ps: seq<HashPair>, k: HashKey): (r: Option<HashPair>)
    ensures r.Some? <==> exists i :: 0 <= i < |ps| && ps[i].hkey == k
    ensures r.Some? ==> r.value in ps && r.value.hkey == k
    decreases |ps|
  {
    if |ps| == 0 then None
    else if ps[0].hkey == k then Some(ps[0])
    else
      var r := Lookup(ps[1..], k);
      assert forall i :: 1 <= i < |ps| ==> ps[i] == ps[1..][i - 1];
      r
  }

  /** `pairs[p.hkey] = p`: replaces the pair with that key where it stands,
      or adds it at the end. */
  function Put(ps: seq<HashPair>, p: HashPair): (r: seq<HashPair>)
    ensures |r| == |ps| || |r| == |ps| + 1
    decreases |ps|
  {
    if |ps| == 0 then [p]
    else if ps[0].hkey == p.hkey then [p] + ps[1..]
    else [ps[0]] + Put(ps[1..], p)
  }

  /** `delete(pairs, k)`. */
  function Remove(ps: seq<HashPair>, k: HashKey): (r: seq<HashPair>)
    ensures |r| <= |ps|
    decreases |ps|
  {
    if |ps| == 0 then []
    else if ps[0].hkey == k then Remove(ps[1..], k)
    else [ps[0]] + Remove(ps[1..], k)
  }

  function Keys(ps: seq<HashPair>): set<HashKey> {
    set i | 0 <= i < |ps| :: ps[i].hkey
  }

  lemma KeysCons(x: HashPair, r: seq<HashPair>)
    ensures Keys([x] + r) == {x.hkey} + Keys(r)
  {
    forall k | k in Keys(r) ensures k in Keys([x] + r) {
      var i :| 0 <= i < |r| && r[i].hkey == k;
      assert ([x] + r)[i + 1].hkey == k;
    }
    forall k | k in Keys([x] + r) ensures k in {x.hkey} + Keys(r) {
      var i :| 0 <= i < |[x] + r| && ([x] + r)[i].hkey == k;
      if i > 0 { assert r[i - 1].hkey == k; }
    }
    assert ([x] + r)[0].hkey == x.hkey;
  }

  lemma PutKeys(ps: seq<HashPair>, p: HashPair)
    ensures Keys(Put(ps, p)) == Keys(ps) + {p.hkey}
    ensures DistinctKeys(ps) ==> DistinctKeys(Put(ps, p))
  {
    PutKeySet(ps, p);
    if DistinctKeys(ps) { PutDistinct(ps, p); }
  }

  lemma {:induction false} PutKeySet(ps: seq<HashPair>, p: HashPair)
    ensures Keys(Put(ps, p)) == Keys(ps) + {p.hkey}
    decreases |ps|
  {
    if |ps| > 0 {
      assert ps == [ps[0]] + ps[1..];
      KeysCons(ps[0], ps[1..]);
      if ps[0].hkey == p.hkey {
        assert Put(ps, p) == [p] + ps[1..];
        KeysCons(p, ps[1..]);
      } else {
        PutKeySet(ps[1..], p);
        KeysCons(ps[0], Put(ps[1..], p));
      }
    } else {
      KeysCons(p, []);
      assert [p] + [] == [p];
    }
  }

  lemma {:induction false} PutDistinct(ps: seq<HashPair>, p: HashPair)
    requires DistinctKeys(ps)
    ensures DistinctKeys(Put(ps, p))
    decreases |ps|
  {
    if |ps| > 0 {
      if ps[0].hkey == p.hkey {
        var r := Put(ps, p);
        assert r == [p] + ps[1..];
        forall i, j | 0 <= i < j < |r| ensures r[i].hkey != r[j].hkey {
          assert r[j] == ps[j];
          if i > 0 { assert r[i] == ps[i]; }
        }
      } else {
        TailDistinct(ps);
        PutDistinct(ps[1..], p);
        PutKeySet(ps[1..], p);
        ConsDistinct(ps[0], Put(ps[1..], p));
      }
    }
  }

  /** The tail of a list with distinct keys has distinct keys, none of them
      the head's. */
  lemma TailDistinct(ps: seq<HashPair>)
    requires |ps| > 0 && DistinctKeys(ps)
    ensures DistinctKeys(ps[1..]) && ps[0].hkey !in Keys(ps[1..])
  {
    forall i | 0 <= i < |ps[1..]| ensures ps[1..][i].hkey != ps[0].hkey {
      assert ps[1..][i] == ps[i + 1];
    }
  }

  lemma ConsDistinct(x: HashPair, r: seq<HashPair>)
    requires DistinctKeys(r) && x.hkey !in Keys(r)
    ensures DistinctKeys([x] + r)
  {
    forall i, j | 0 <= i < j < |[x] + r| ensures ([x] + r)[i].hkey != ([x] + r)[j].hkey {
      if i == 0 { assert r[j - 1].hkey in Keys(r); }
      else { assert ([x] + r)[i] == r[i - 1] && ([x] + r)[j] == r[j - 1]; }
    }
  }

  /** After `pairs[k] = p` the map holds p under k. */
  lemma {:induction false} LookupPut(ps: seq<HashPair>, p: HashPair, k: HashKey)
    ensures Lookup(Put(ps, p), k) == if k == p.hkey then Some(p) else Lookup(ps, k)
    decreases |ps|
  {
    if |ps| > 0 && ps[0].hkey != p.hkey {
      LookupPut(ps[1..], p, k);
    }
  }

  /** Storing pairs one after another, as a map literal does. */
  function PutAll(ps: seq<HashPair>, kvs: seq<HashPair>): (r: seq<HashPair>)
    ensures DistinctKeys(ps) ==> DistinctKeys(r)
    decreases |kvs|
  {
    if |kvs| == 0 then ps
    else
      PutKeys(ps, kvs[0]);
      PutAll(Put(ps, kvs[0]), kvs[1..])
  }

  /** After storing kvs, a key that none of them carries finds what it
      found before. */
  lemma {:induction false} LookupPutAllAbsent(ps: seq<HashPair>, kvs: seq<HashPair>, k: HashKey)
    requires forall j :: 0 <= j < |kvs| ==> kvs[j].hkey != k
    ensures Lookup(PutAll(ps, kvs), k) == Lookup(ps, k)
    decreases |kvs|
  {
    if |kvs| > 0 {
      LookupPut(ps, kvs[0], k);
      LookupPutAllAbsent(Put(ps, kvs[0]), kvs[1..], k);
    }
  }

  /** After storing kvs, the key of pair j finds pair j when no later pair
      carries that key: of pairs with the same key, the last one wins. */
  lemma {:induction false} LookupPutAllLast(ps: seq<HashPair>, kvs: seq<HashPair>, j: nat)
    requires j < |kvs|
    requires forall j' :: j < j' < |kvs| ==> kvs[j'].hkey != kvs[j].hkey
    ensures Lookup(PutAll(ps, kvs), kvs[j].hkey) == Some(kvs[j])
    decreases |kvs|
  {
    var rest := kvs[1..];
    if j == 0 {
      LookupPut(ps, kvs[0], kvs[0].hkey);
      assert forall i :: 0 <= i < |rest| ==> rest[i] == kvs[i + 1];
      LookupPutAllAbsent(Put(ps, kvs[0]), rest, kvs[0].hkey);
    } else {
      assert rest[j - 1] == kvs[j];
      assert forall j' :: j - 1 < j' < |rest| ==> rest[j'] == kvs[j' + 1];
      LookupPutAllLast(Put(ps, kvs[0]), rest, j - 1);
    }
  }

  /** After `delete(pairs, k)` no pair has key k and the others remain. */
  lemma {:induction false} LookupRemove(ps: seq<HashPair>, k: HashKey, k2: HashKey)
    ensures Lookup(Remove(ps, k), k2) == if k2 == k then None else Lookup(ps, k2)
    decreases |ps|
  {
    if |ps| > 0 {
      LookupRemove(ps[1..], k, k2);
    }
  }

  /** With one pair per key, looking up a pair's key finds that pair. */
  lemma {:induction false} LookupFindsPair(ps: seq<HashPair>, i: nat)
    requires DistinctKeys(ps) && i < |ps|
    ensures Lookup(ps, ps[i].hkey) == Some(ps[i])
    decreases i
  {
    if i > 0 {
      assert ps[0].hkey != ps[i].hkey;
      assert DistinctKeys(ps[1..]) by {
        forall a, b | 0 <= a < b < |ps[1..]| ensures ps[1..][a].hkey != ps[1..][b].hkey {
          assert ps[1..][a] == ps[a + 1] && ps[1..][b] == ps[b + 1];
        }
      }
      LookupFindsPair(ps[1..], i - 1);
    }
  }

  /** Deleting an absent key changes nothing. */
  lemma {:induction false} RemoveAbsent(ps: seq<HashPair>, k: HashKey)
    requires Lookup(ps, k).None?
    ensures Remove(ps, k) == ps
    decreases |ps|
  {
    if |ps| > 0 { RemoveAbsent(ps[1..], k); }
  }

  // ---------------------------------------------------------------------
  // Inspect

  /** The text of an error; the message itself is not modelled, so the
      text after the prefix is a placeholder. */
  function ErrorText(k: ErrorKind): (r: string)
    ensures |r| >= 7 && r[..7] == "ERROR: "
  {
    "ERROR: " + "error"
  }

  /** `FormattedInspect` for strings inside arrays and maps, `Inspect` for
      every other object. */
  function Formatted(heap: Heap, o: Object, depth: nat): Res<string>
    decreases depth, o, 1
  {
    if o.Str? then Done("'" + o.strValue + "'")
    else if o.Nil? then Fail(Crash)
    else Inspect(heap, o, depth)
  }

  /** The first failure of a list of results, or all their values. */
  function Collect(rs: seq<Res<string>>): (r: Res<seq<string>>)
    ensures r.Done? <==> forall i :: 0 <= i < |rs| ==> rs[i].Done?
    ensures r.Done? ==> |r.value| == |rs| && forall i :: 0 <= i < |rs| ==> r.value[i] == rs[i].value
    decreases |rs|
  {
    if |rs| == 0 then Done([])
    else if rs[0].Fail? then Fail(rs[0].halt)
    else
      var rest := Collect(rs[1..]);
      assert forall i :: 1 <= i < |rs| ==> rs[i] == rs[1..][i - 1];
      if rest.Fail? then rest else Done([rs[0].value] + rest.value)
  }

  /** `Inspect()`.  Arrays and maps are printed through the heap; depth
      bounds the nesting, and runs out only on a structure that contains
      itself, whose printing overflows Go's stack.  A function whose body
      holds an assignment panics while printing; nil panics; the two loop
      signals have no Inspect in the source. */
  function Inspect(heap: Heap, o: Object, depth: nat): (r: Res<string>)
    decreases depth, o, 0
  {
    match o
    case Integer(v) => Done(IntString(v))
    case Boolean(b, _) => Done(if b then "true" else "false")
    case Null(_) => Done("null")
    case Str(s) => Done(s)
    case ReturnValue(v, _) => Inspect(heap, v, depth)
    case Error(k) => Done(ErrorText(k))
    case Function(ps, body, _, _) =>
      if BlockPrintable(body) then
        Done("func" + "(" + Join(IdentStrings(ps), ", ") + ") {\n" + BlockString(body) + "\n}")
      else Fail(Crash)
    case Builtin(_) => Done("builtin function")
    case Arr(a) =>
      if depth == 0 || a >= |heap| || !heap[a].ArrayCell? then Fail(Crash)
      else
        var es := heap[a].elements;
        var texts := Collect(seq(|es|, i requires 0 <= i < |es| => Formatted(heap, es[i], depth - 1)));
        if texts.Fail? then Fail(texts.halt) else Done("[" + Join(texts.value, ", ") + "]")
    case Hash(h) =>
      if depth == 0 || h >= |heap| || !heap[h].HashCell? then Fail(Crash)
      else
        var ps := heap[h].pairs;
        var texts := Collect(seq(|ps|, i requires 0 <= i < |ps| => PairText(heap, ps[i], depth - 1)));
        if texts.Fail? then Fail(texts.halt) else Done("{" + Join(texts.value, ", ") + "}")
    case Break => Fail(Unmodelled)
    case Continue => Fail(Unmodelled)
    case Nil => Fail(Crash)
  }

  /** `fmt.Sprintf("%s: %s", key, value)` with both sides formatted. */
  function PairText(heap: Heap, p: HashPair, depth: nat): Res<string>
    decreases depth, p, 2
  {
    var k := Formatted(heap, p.key, depth);
    var v := Formatted(heap, p.value, depth);
    if k.Fail? then k else if v.Fail? then v else Done(k.value + ": " + v.value)
  }

  /** Inspect with a depth that only a cyclic structure exhausts. */
  function Text(heap: Heap, o: Object): (r: Res<string>)
    ensures o.Str? ==> r == Done(o.strValue)
    ensures o.Nil? ==> r == Fail(Crash)
    ensures o.Arr? && r.Done? ==> |r.value| >= 2 && r.value[0] == '[' && r.value[|r.value| - 1] == ']'
    ensures o.Hash? && r.Done? ==> |r.value| >= 2 && r.value[0] == '{' && r.value[|r.value| - 1] == '}'
  {
    Inspect(heap, o, |heap|)
  }

  /** The fixed texts of the scalar objects. */
  lemma ScalarTexts(heap: Heap, v: Int64, id: Identity, k: ErrorKind)
    ensures Text(heap, Null(id)) == Done("null")
    ensures Text(heap, Boolean(true, id)) == Done("true")
    ensures Text(heap, Boolean(false, id)) == Done("false")
    ensures Text(heap, Integer(v)) == Done(IntString(v))
    ensures Text(heap, Error(k)).Done? && Text(heap, Error(k)).value[..7] == "ERROR: "
  {
  }

  /** The integer text reads back as the integer. */
  lemma IntegerTextRoundTrip(heap: Heap, v: Int64)
    ensures Text(heap, Integer(v)).Done? && ParseInt64(Text(heap, Integer(v)).value) == Some(v)
  {
    ParseIntString(v);
  }

  /** An array prints as its formatted elements joined by ", " inside
      brackets, strings in single quotes. */
  lemma ArrayText(heap: Heap, a: nat, depth: nat, texts: seq<string>)
    requires depth > 0 && a < |heap| && heap[a].ArrayCell?
    requires |texts| == |heap[a].elements|
    requires forall i :: 0 <= i < |texts| ==> Formatted(heap, heap[a].elements[i], depth - 1) == Done(texts[i])
    ensures Inspect(heap, Arr(a), depth) == Done("[" + Join(texts, ", ") + "]")
  {
    var es := heap[a].elements;
    var rs := seq(|es|, i requires 0 <= i < |es| => Formatted(heap, es[i], depth - 1));
    assert Collect(rs).value == texts;
  }

  /** `[1, 2] * 2` prints as "[[1, 2], [1, 2]]"
      (sonar-lang/evaluator/evaluator_test.go:986). */
  lemma NestedArrayText()
    ensures var heap := [ArrayCell([Integer(1), Integer(2)]), ArrayCell([Integer(1), Integer(2)]),
                         ArrayCell([Arr(0), Arr(1)])];
      Text(heap, Arr(2)) == Done("[[1, 2], [1, 2]]")
  {
    var heap := [ArrayCell([Integer(1), Integer(2)]), ArrayCell([Integer(1), Integer(2)]),
                 ArrayCell([Arr(0), Arr(1)])];
    NestedText(heap);
  }

  lemma NestedText(heap: Heap)
    requires |heap| == 3 && heap[2] == ArrayCell([Arr(0), Arr(1)])
    requires heap[0] == ArrayCell([Integer(1), Integer(2)]) && heap[1] == ArrayCell([Integer(1), Integer(2)])
    ensures Text(heap, Arr(2)) == Done("[[1, 2], [1, 2]]")
  {
    InnerArrayText(heap, 0);
    InnerArrayText(heap, 1);
    PairOfArraysText(heap, 2, 0, 1, 3, "[1, 2]", "[1, 2]");
    NestedLiteral();
  }

  lemma NestedLiteral()
    ensures "[" + "[1, 2]" + ", " + "[1, 2]" + "]" == "[[1, 2], [1, 2]]"
  {
  }

  lemma InnerArrayText(heap: Heap, a: nat)
    requires a < |heap| && heap[a] == ArrayCell([Integer(1), Integer(2)])
    ensures Formatted(heap, Arr(a), 2) == Done("[1, 2]")
  {
    assert IntString(1) == "1" && IntString(2) == "2";
    assert Formatted(heap, Integer(1), 1) == Done("1");
    assert Formatted(heap, Integer(2), 1) == Done("2");
    TwoElementText(heap, a, Integer(1), Integer(2), 2, "1", "2");
    assert "[" + "1" + ", " + "2" + "]" == "[1, 2]";
  }

  /** An array of two objects prints as their two formatted texts. */
  lemma TwoElementText(heap: Heap, a: nat, x: Object, y: Object, depth: nat, tx: string, ty: string)
    requires depth > 0 && a < |heap| && heap[a] == ArrayCell([x, y])
    requires Formatted(heap, x, depth - 1) == Done(tx) && Formatted(heap, y, depth - 1) == Done(ty)
    ensures Inspect(heap, Arr(a), depth) == Done("[" + tx + ", " + ty + "]")
  {
    ArrayText(heap, a, depth, [tx, ty]);
    assert [tx, ty][1..] == [ty];
    assert Join([tx, ty], ", ") == tx + ", " + ty;
    assert "[" + (tx + ", " + ty) + "]" == "[" + tx + ", " + ty + "]";
  }

  lemma PairOfArraysText(heap: Heap, a: nat, b: nat, c: nat, depth: nat, tb: string, tc: string)
    requires depth > 0 && a < |heap| && heap[a] == ArrayCell([Arr(b), Arr(c)])
    requires Formatted(heap, Arr(b), depth - 1) == Done(tb) && Formatted(heap, Arr(c), depth - 1) == Done(tc)
    ensures Inspect(heap, Arr(a), depth) == Done("[" + tb + ", " + tc + "]")
  {
    TwoElementText(heap, a, Arr(b), Arr(c), depth, tb, tc);
  }
  // ---------------------------------------------------------------------
  // Iters

  /** `String.Iters`: one single-character string per character. */
  function StringIters(s: string): (r: seq<Object>)
    ensures |r| == |s|
    ensures forall i :: 0 <= i < |s| ==> r[i] == Str([s[i]])
  {
    var cs := Chars(s);
    seq(|cs|, i requires 0 <= i < |cs| => Str(cs[i]))
  }

  /** The character strings of `String.Iters` put back together give the
      string. */
  lemma StringItersConcat(s: string)
    ensures Concat(seq(|s|, i requires 0 <= i < |s| => StringIters(s)[i].strValue)) == s
  {
    var its := StringIters(s);
    var cs := seq(|s|, i requires 0 <= i < |s| => its[i].strValue);
    forall i | 0 <= i < |s| ensures cs[i] == Chars(s)[i] {
      assert its[i] == Str([s[i]]);
    }
    assert cs == Chars(s);
    ConcatChars(s);
  }

  /** `Hash.Iters`: the elements of the `[key, value]` array built for each
      pair, in iteration order. */
  function HashIters(ps: seq<HashPair>): (r: seq<seq<Object>>)
    ensures |r| == |ps|
    ensures forall i :: 0 <= i < |ps| ==> r[i] == [ps[i].key, ps[i].value]
  {
    seq(|ps|, i requires 0 <= i < |ps| => [ps[i].key, ps[i].value])
  }
}
