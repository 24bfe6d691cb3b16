/** What an evaluation reads and changes: the cells of the arrays and maps,
    the environments, and a counter that tells apart objects the evaluator
    allocates on their own and compares by pointer. */
module State {
  import opened Basics
  import opened Objects
  import opened Environment

  datatype State = State(heap: Heap, frames: Frames, next: nat)

  /** A value with the state after computing it, or the reason there is
      none. */
  datatype Outcome<T> = Out(value: T, st: State) | Stop(why: Halt)

  /** `&object.Array{Elements: es}`: a new cell at the end of the heap. */
  function NewArray(st: State, es: seq<Object>): (r: Outcome<Object>)
    ensures r.Out? && r.value == Arr(|st.heap|) && r.st.heap == st.heap + [ArrayCell(es)]
    ensures r.st.frames == st.frames && r.st.next == st.next
  {
    Out(Arr(|st.heap|), st.(heap := st.heap + [ArrayCell(es)]))
  }

  /** `&object.Hash{Pairs: ps}` for a new Go map. */
  function NewHash(st: State, ps: seq<HashPair>): (r: Outcome<Object>)
    ensures r.Out? && r.value == Hash(|st.heap|) && r.st.heap == st.heap + [HashCell(ps)]
    ensures r.st.frames == st.frames && r.st.next == st.next
  {
    Out(Hash(|st.heap|), st.(heap := st.heap + [HashCell(ps)]))
  }

  /** Allocates one array per element list, in order. */
  function NewArrays(st: State, ess: seq<seq<Object>>): (r: (seq<Object>, State))
    ensures |r.0| == |ess| && r.1.frames == st.frames && r.1.next == st.next
    ensures r.1.heap == st.heap + seq(|ess|, i requires 0 <= i < |ess| => ArrayCell(ess[i]))
    ensures forall i :: 0 <= i < |ess| ==> r.0[i] == Arr(|st.heap| + i)
    decreases |ess|
  {
    if |ess| == 0 then ([], st)
    else
      var (rest, st') := NewArrays(st.(heap := st.heap + [ArrayCell(ess[0])]), ess[1..]);
      ([Arr(|st.heap|)] + rest, st')
  }

  /** `&object.Boolean{Value: b}`: a Boolean other than TRUE and FALSE. */
  function NewBoolean(st: State, b: bool): (r: Outcome<Object>)
    ensures r.Out? && r.value == Boolean(b, Fresh(st.next)) && r.st == st.(next := st.next + 1)
  {
    Out(Boolean(b, Fresh(st.next)), st.(next := st.next + 1))
  }

  /** `&object.Null{}`: a null other than NULL. */
  function NewNull(st: State): (r: Outcome<Object>)
    ensures r.Out? && r.value == Null(Fresh(st.next)) && r.st == st.(next := st.next + 1)
  {
    Out(Null(Fresh(st.next)), st.(next := st.next + 1))
  }

  /** st' keeps what st allocated: the heap, the environments and the
      counter of pointer identities never shrink. */
  predicate Grows(st: State, st': State) {
    |st.heap| <= |st'.heap| && |st.frames| <= |st'.frames| && st.next <= st'.next
  }

  /** st' only adds to st: the cells of st are there unchanged, new cells
      may follow them, the environments are those of st, and the counter
      of pointer identities never goes back. */
  predicate Extends(st: State, st': State) {
    |st.heap| <= |st'.heap| && st'.heap[..|st.heap|] == st.heap &&
    st'.frames == st.frames && st.next <= st'.next
  }

  /** The elements of an array object; None for a reference to no array
      cell, which no evaluation creates. */
  function ElementsOf(st: State, o: Object): (r: Option<seq<Object>>)
    ensures r.Some? ==> o.Arr? && o.aref < |st.heap| && st.heap[o.aref] == ArrayCell(r.value)
  {
    if o.Arr? && o.aref < |st.heap| && st.heap[o.aref].ArrayCell? then Some(st.heap[o.aref].elements) else None
  }

  /** The pairs of a map object. */
  function PairsOf(st: State, o: Object): (r: Option<seq<HashPair>>)
    ensures r.Some? ==> o.Hash? && o.href < |st.heap| && st.heap[o.href] == HashCell(r.value)
  {
    if o.Hash? && o.href < |st.heap| && st.heap[o.href].HashCell? then Some(st.heap[o.href].pairs) else None
  }

  /** Replaces the elements of an existing array in place. */
  function SetElements(st: State, o: Object, es: seq<Object>): (r: State)
    requires ElementsOf(st, o).Some?
    ensures ElementsOf(r, o) == Some(es) && |r.heap| == |st.heap|
    ensures forall i :: 0 <= i < |st.heap| && i != o.aref ==> r.heap[i] == st.heap[i]
    ensures r.frames == st.frames && r.next == st.next
  {
    st.(heap := st.heap[o.aref := ArrayCell(es)])
  }

  /** Replaces the pairs of an existing map in place. */
  function SetPairs(st: State, o: Object, ps: seq<HashPair>): (r: State)
    requires PairsOf(st, o).Some?
    ensures PairsOf(r, o) == Some(ps) && |r.heap| == |st.heap|
    ensures forall i :: 0 <= i < |st.heap| && i != o.href ==> r.heap[i] == st.heap[i]
    ensures r.frames == st.frames && r.next == st.next
  {
    st.(heap := st.heap[o.href := HashCell(ps)])
  }

  /** A result that does not change the state. */
  function Lift(r: Res<Object>, st: State): (o: Outcome<Object>)
    ensures r.Done? ==> o == Out(r.value, st)
    ensures r.Fail? ==> o == Stop(r.halt)
  {
    if r.Done? then Out(r.value, st) else Stop(r.halt)
  }

  /** The printed text of an object in this state. */
  function TextOf(st: State, o: Object): Res<string> {
    Text(st.heap, o)
  }

  // ---------------------------------------------------------------------
  // Environments seen from the evaluator: a dangling environment reference,
  // which no evaluation creates, counts as a crash.

  predicate ValidEnv(st: State, env: nat) {
    WellFormed(st.frames) && env < |st.frames|
  }

  /** `env.Get(name)`. */
  function GetVar(st: State, env: nat, name: string): (r: Res<Option<Object>>)
    ensures ValidEnv(st, env) ==> r == Done(Resolve(st.frames, env, name))
  {
    if ValidEnv(st, env) then Done(Resolve(st.frames, env, name)) else Fail(Crash)
  }

  /** `env.Store[name]` is present. */
  function HasLocal(st: State, env: nat, name: string): bool {
    env < |st.frames| && name in st.frames[env].store
  }

  /** `env.Set(name, v)`. */
  function SetVar(st: State, env: nat, name: string, v: Object): (r: Outcome<Object>)
    ensures ValidEnv(st, env) ==> r == Out(v, st.(frames := Bind(st.frames, env, name, v)))
  {
    if ValidEnv(st, env) then Out(v, st.(frames := Bind(st.frames, env, name, v))) else Stop(Crash)
  }

  /** What an array or map held before an extension it still holds
      after it, and extensions compose. */
  lemma ExtendsKeeps(st: State, st': State, st'': State, o: Object)
    requires Extends(st, st') && Extends(st', st'')
    ensures ElementsOf(st, o).Some? ==> ElementsOf(st', o) == ElementsOf(st, o)
    ensures PairsOf(st, o).Some? ==> PairsOf(st', o) == PairsOf(st, o)
    ensures Extends(st, st'')
  {
    if o.Arr? && o.aref < |st.heap| {
      assert st'.heap[o.aref] == st'.heap[..|st.heap|][o.aref];
    }
    if o.Hash? && o.href < |st.heap| {
      assert st'.heap[o.href] == st'.heap[..|st.heap|][o.href];
    }
    assert st''.heap[..|st.heap|] == st''.heap[..|st'.heap|][..|st.heap|];
  }
}
