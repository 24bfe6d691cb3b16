/** Chained environments (sonar-lang/object/environment.go).

    Every Go `*Environment` ever created is one frame of a list, and a
    pointer to an environment is its position in that list.  A frame's
    `outer` was created before it, so every chain of outer pointers ends.
    The functions below say what `Get` and `Set` compute; the class
    `Environments` performs them in place, as the Go methods do. */
module Environment {
  import opened Basics
  import opened Objects

  datatype Frame = Frame(store: map<string, Object>, outer: Option<nat>)

  type Frames = seq<Frame>

  /** Each outer pointer refers to an earlier frame. */
  predicate WellFormed(fs: Frames) {
    forall i :: 0 <= i < |fs| && fs[i].outer.Some? ==> fs[i].outer.value < i
  }

  /** `NewEnvironment()`: a new frame with an empty store and no outer;
      the second component is its position. */
  function Created(fs: Frames): (r: (Frames, nat))
    ensures r.1 == |fs| && |r.0| == |fs| + 1 && r.0[..|fs|] == fs
    ensures WellFormed(fs) ==> WellFormed(r.0)
  {
    (fs + [Frame(map[], None)], |fs|)
  }

  /** `NewEnclosedEnvironment(outer)`. */
  function Enclosed(fs: Frames, outer: nat): (r: (Frames, nat))
    requires outer < |fs|
    ensures r.1 == |fs| && |r.0| == |fs| + 1 && r.0[..|fs|] == fs
    ensures WellFormed(fs) ==> WellFormed(r.0)
  {
    (fs + [Frame(map[], Some(outer))], |fs|)
  }

  /** The frames `Get` visits from e: e itself, then its outer chain. */
  function Chain(fs: Frames, e: nat): (r: seq<nat>)
    requires WellFormed(fs) && e < |fs|
    ensures |r| > 0 && r[0] == e
    ensures forall i :: 0 <= i < |r| ==> r[i] <= e
    decreases e
  {
    if fs[e].outer.None? then [e] else [e] + Chain(fs, fs[e].outer.value)
  }

  /** `Get(name)`: the local binding, else the outer environment's. */
  function Resolve(fs: Frames, e: nat, name: string): (r: Option<Object>)
    requires WellFormed(fs) && e < |fs|
    ensures name in fs[e].store ==> r == Some(fs[e].store[name])
    ensures r.Some? ==> exists j :: 0 <= j <= e && name in fs[j].store && fs[j].store[name] == r.value
    ensures fs[e].outer.None? && name !in fs[e].store ==> r.None?
    decreases e
  {
    if name in fs[e].store then Some(fs[e].store[name])
    else if fs[e].outer.None? then None
    else Resolve(fs, fs[e].outer.value, name)
  }

  /** `Set(name, val)`: writes the local store of e only. */
  function Bind(fs: Frames, e: nat, name: string, val: Object): (r: Frames)
    requires e < |fs|
    ensures |r| == |fs| && r[e].outer == fs[e].outer
    ensures forall i :: 0 <= i < |fs| && i != e ==> r[i] == fs[i]
    ensures WellFormed(fs) ==> WellFormed(r)
  {
    fs[e := Frame(fs[e].store[name := val], fs[e].outer)]
  }

  /** A new environment binds nothing: `Get` fails for every name. */
  lemma CreatedIsEmpty(fs: Frames, name: string)
    requires WellFormed(fs)
    ensures Resolve(Created(fs).0, Created(fs).1, name).None?
  {
  }

  /** After `Set(n, v)`, `Get(n)` returns v, and every other name resolves
      as before. */
  lemma {:induction false} ResolveBind(fs: Frames, e: nat, n: string, v: Object, m: string)
    requires WellFormed(fs) && e < |fs|
    ensures Resolve(Bind(fs, e, n, v), e, n) == Some(v)
    ensures m != n ==> Resolve(Bind(fs, e, n, v), e, m) == Resolve(fs, e, m)
  {
    var fs' := Bind(fs, e, n, v);
    if m != n && m !in fs[e].store && fs[e].outer.Some? {
      ResolveBelow(fs, e, n, v, fs[e].outer.value, m);
    }
  }

  /** `Set` on e changes nothing that is visible from a frame created
      before e: in particular an enclosed environment's `Set` leaves what
      its outer environment resolves unchanged. */
  lemma {:induction false} ResolveBelow(fs: Frames, e: nat, n: string, v: Object, j: nat, m: string)
    requires WellFormed(fs) && e < |fs| && j < e
    ensures Resolve(Bind(fs, e, n, v), j, m) == Resolve(fs, j, m)
    decreases j
  {
    if m !in fs[j].store && fs[j].outer.Some? {
      ResolveBelow(fs, e, n, v, fs[j].outer.value, m);
    }
  }

  /** Resolution from frame j reads only frames j and below. */
  lemma {:induction false} ResolveSamePrefix(fs: Frames, fs': Frames, j: nat, n: string)
    requires WellFormed(fs) && WellFormed(fs') && j < |fs| && j < |fs'|
    requires forall i :: 0 <= i <= j ==> fs'[i] == fs[i]
    ensures Resolve(fs', j, n) == Resolve(fs, j, n)
    decreases j
  {
    if n !in fs[j].store && fs[j].outer.Some? {
      ResolveSamePrefix(fs, fs', fs[j].outer.value, n);
    }
  }

  /** A local binding shadows the outer one
      (sonar-lang/evaluator/evaluator_test.go:531-546): in an environment
      enclosed in o, after `Set(n, v)` the name resolves to v there, while
      o still resolves it as before. */
  lemma Shadowing(fs: Frames, o: nat, n: string, v: Object)
    requires WellFormed(fs) && o < |fs|
    ensures var (fs1, e) := Enclosed(fs, o);
      var fs2 := Bind(fs1, e, n, v);
      Resolve(fs2, e, n) == Some(v) && Resolve(fs2, o, n) == Resolve(fs, o, n)
  {
    var (fs1, e) := Enclosed(fs, o);
    ResolveBind(fs1, e, n, v, n);
    ResolveBelow(fs1, e, n, v, o, n);
    ResolveExtend(fs, Frame(map[], Some(o)), o, n);
  }

  /** Adding a frame does not change what the older ones resolve. */
  lemma {:induction false} ResolveExtend(fs: Frames, f: Frame, j: nat, m: string)
    requires WellFormed(fs) && WellFormed(fs + [f]) && j < |fs|
    ensures Resolve(fs + [f], j, m) == Resolve(fs, j, m)
    decreases j
  {
    assert (fs + [f])[j] == fs[j];
    if m !in fs[j].store && fs[j].outer.Some? {
      ResolveExtend(fs, f, fs[j].outer.value, m);
    }
  }

  /** `Get` succeeds exactly when some store along the chain holds the
      name, and then it returns the binding of such a store. */
  lemma {:induction false} ResolveIffInChain(fs: Frames, e: nat, name: string)
    requires WellFormed(fs) && e < |fs|
    ensures Resolve(fs, e, name).Some? ==>
      exists j :: j in Chain(fs, e) && name in fs[j].store && Resolve(fs, e, name) == Some(fs[j].store[name])
    ensures (exists j :: j in Chain(fs, e) && name in fs[j].store) ==> Resolve(fs, e, name).Some?
    decreases e
  {
    var c := Chain(fs, e);
    if name in fs[e].store {
      assert c[0] == e;
    } else if fs[e].outer.Some? {
      var o := fs[e].outer.value;
      ResolveIffInChain(fs, o, name);
      assert c == [e] + Chain(fs, o);
      if Resolve(fs, o, name).Some? {
        var j :| j in Chain(fs, o) && name in fs[j].store && Resolve(fs, o, name) == Some(fs[j].store[name]);
        assert j in c;
      }
      forall j | j in c && name in fs[j].store ensures j in Chain(fs, o) {
      }
    } else {
      assert c == [e];
    }
  }

  /** Go's environments, updated in place. */
  class Environments {
    var frames: Frames

    ghost predicate Valid()
      reads this
    {
      WellFormed(frames)
    }

    constructor ()
      ensures frames == [] && Valid()
    {
      frames := [];
    }

    /** `NewEnvironment()`. */
    method NewEnvironment() returns (e: nat)
      requires Valid()
      modifies this
      ensures Valid() && (frames, e) == Created(old(frames))
    {
      e := |frames|;
      frames := frames + [Frame(map[], None)];
    }

    /** `NewEnclosedEnvironment(outer)`: a new environment whose outer is
        the given one. */
    method NewEnclosedEnvironment(outer: nat) returns (e: nat)
      requires Valid() && outer < |frames|
      modifies this
      ensures Valid() && (frames, e) == Enclosed(old(frames), outer)
    {
      e := |frames|;
      frames := frames + [Frame(map[], Some(outer))];
    }

    /** `Get(name)`: nil and false when no store along the chain binds it. */
    method Get(e: nat, name: string) returns (obj: Object, ok: bool)
      requires Valid() && e < |frames|
      ensures ok <==> Resolve(frames, e, name).Some?
      ensures ok ==> obj == Resolve(frames, e, name).value
      ensures !ok ==> obj == Nil
      decreases e
    {
      if name in frames[e].store {
        return frames[e].store[name], true;
      }
      obj, ok := Nil, false;
      if frames[e].outer.Some? {
        obj, ok := Get(frames[e].outer.value, name);
      }
    }

    /** `Set(name, val)`: binds in e's own store and returns the value. */
    method Set(e: nat, name: string, val: Object) returns (r: Object)
      requires Valid() && e < |frames|
      modifies this
      ensures Valid() && frames == Bind(old(frames), e, name, val) && r == val
    {
      frames := frames[e := Frame(frames[e].store[name := val], frames[e].outer)];
      r := val;
    }
  }
}
