/** The tree-walking evaluator (sonar-lang/evaluator/evaluator.go).

    `Eval` is one mutually recursive group of functions over the syntax
    tree.  Each takes the environment the Go code passes (a frame
    position), the state and the table of builtins, and gives an
    `Outcome`: the object `Eval` returns (`Nil` for Go's nil) with the new
    state, or the reason Go gives no result.  Evaluation is bounded by
    fuel; only a round of a `while` loop and a call of a function use it
    up, so a program that Go would run forever ends in OutOfFuel. */
module Evaluator {
  import opened Basics
  import Token
  import opened Ast
  import opened Objects
  import opened Environment
  import opened State
  import opened Operators
  import opened Stdlib

  /** The builtins an identifier falls back to. */
  type Library = map<string, Object>

  /** The results that end a block: a return value, an error and the two
      loop signals. */
  predicate Signals(o: Object) {
    o.ReturnValue? || o.Error? || o.Break? || o.Continue?
  }

  /** The infix operator a compound assignment applies; Go's lookup of a
      missing key gives the empty operator. */
  function CompoundOperator(op: string): (r: string)
    ensures op == "+=" ==> r == "+"
    ensures op == "-=" ==> r == "-"
    ensures op == "*=" ==> r == "*"
    ensures op == "/=" ==> r == "/"
    ensures op !in ["+=", "-=", "*=", "/="] ==> r == ""
  {
    if op == "+=" then "+"
    else if op == "-=" then "-"
    else if op == "*=" then "*"
    else if op == "/=" then "/"
    else ""
  }

  // ---------------------------------------------------------------------
  // Calls

  /** The bindings `extendFunctionEnv` makes in frame e: each parameter
      from position i on gets its argument, or a null of its own when the
      call has fewer arguments. */
  function BindParameters(st: State, e: nat, ps: seq<Identifier>, args: seq<Object>, i: nat): (r: State)
    requires e < |st.frames| && i <= |ps|
    ensures |r.frames| == |st.frames| && r.heap == st.heap && st.next <= r.next
    ensures forall j :: 0 <= j < |st.frames| && j != e ==> r.frames[j] == st.frames[j]
    ensures r.frames[e].outer == st.frames[e].outer
    ensures WellFormed(st.frames) ==> WellFormed(r.frames)
    decreases |ps| - i
  {
    if i == |ps| then st
    else
      var v := if i < |args| then args[i] else Null(Fresh(st.next));
      var next := if i < |args| then st.next else st.next + 1;
      BindParameters(State(st.heap, Bind(st.frames, e, ps[i].value, v), next), e, ps, args, i + 1)
  }

  /** `extendFunctionEnv`: a new environment enclosed by the function's
      own, holding the parameters. */
  method ExtendFunctionEnv(st: State, outer: nat, ps: seq<Identifier>, args: seq<Object>) returns (st': State, e: nat)
    requires outer < |st.frames|
    ensures e == |st.frames|
    ensures st' == BindParameters(st.(frames := Enclosed(st.frames, outer).0), e, ps, args, 0)
  {
    var fs;
    fs, e := Enclosed(st.frames, outer).0, Enclosed(st.frames, outer).1;
    st' := st.(frames := fs);
    for i := 0 to |ps|
      invariant |st'.frames| == |fs| && e < |fs|
      invariant BindParameters(st', e, ps, args, i) == BindParameters(st.(frames := fs), e, ps, args, 0)
    {
      if i < |args| {
        st' := State(st'.heap, Bind(st'.frames, e, ps[i].value, args[i]), st'.next);
      } else {
        st' := State(st'.heap, Bind(st'.frames, e, ps[i].value, Null(Fresh(st'.next))), st'.next + 1);
      }
    }
  }

  // ---------------------------------------------------------------------
  // For loops

  /** What one round of a `for` loop binds: an element of a string or an
      array, or the key and value of a map pair. */
  datatype ForItem = Element(value: Object) | Entry(key: Object, value: Object)

  /** `Iters()` of an iterable object, or None for an object that is not
      iterable. */
  function ForItems(st: State, o: Object): (r: Res<Option<seq<ForItem>>>)
    ensures r == Done(None) <==> !o.Str? && !o.Arr? && !o.Hash?
    ensures o.Str? ==> (r.Done? && r.value.Some? && |r.value.value| == |o.strValue| &&
      forall i :: 0 <= i < |o.strValue| ==> r.value.value[i] == Element(Str([o.strValue[i]])))
    ensures o.Arr? && r.Done? ==> (ElementsOf(st, o).Some? && r.value.Some? &&
      |r.value.value| == |ElementsOf(st, o).value| &&
      forall i :: 0 <= i < |r.value.value| ==> r.value.value[i] == Element(ElementsOf(st, o).value[i]))
    ensures o.Hash? && r.Done? ==> (PairsOf(st, o).Some? && r.value.Some? &&
      |r.value.value| == |PairsOf(st, o).value| &&
      forall i :: 0 <= i < |r.value.value| ==> r.value.value[i] == Entry(PairsOf(st, o).value[i].key, PairsOf(st, o).value[i].value))
  {
    if o.Str? then
      var its := StringIters(o.strValue);
      Done(Some(seq(|its|, i requires 0 <= i < |its| => Element(its[i]))))
    else if o.Arr? then
      var es := ElementsOf(st, o);
      if es.None? then Fail(Crash) else Done(Some(seq(|es.value|, i requires 0 <= i < |es.value| => Element(es.value[i]))))
    else if o.Hash? then
      var ps := PairsOf(st, o);
      if ps.None? then Fail(Crash)
      else Done(Some(seq(|ps.value|, i requires 0 <= i < |ps.value| => Entry(ps.value[i].key, ps.value[i].value))))
    else Done(None)
  }

  /** The two `Set`s at the start of round i: the counter gets the index
      and the element its object, or, for a map, both get the printed key
      and value.  The value is the object last stored, which the loop
      returns when it is an error. */
  function BindItem(st: State, env: nat, counter: string, element: string, item: ForItem, i: nat): (r: Outcome<Object>)
    ensures r.Out? ==> Grows(st, r.st)
  {
    match item
    case Element(v) =>
      var c := SetVar(st, env, counter, Integer(Wrap64(i)));
      if c.Stop? then c else SetVar(c.st, env, element, v)
    case Entry(k, v) =>
      var kt := TextOf(st, k);
      if kt.Fail? then Stop(kt.halt)
      else
        var c := SetVar(st, env, counter, Str(kt.value));
        if c.Stop? then c
        else
          var vt := TextOf(c.st, v);
          if vt.Fail? then Stop(vt.halt) else SetVar(c.st, env, element, Str(vt.value))
  }

  /** The rest of an assignment once its right-hand side gave `right`: a
      plain one stores the value; a compound one applies its operator to
      the current value first. */
  function Assign(right: Outcome<Object>, env: nat, name: string, op: string): (r: Outcome<Object>)
    ensures r.Out? && right.Out? ==> Grows(right.st, r.st)
  {
    if right.Stop? || right.value.Error? then right
    else
      var prior := GetVar(right.st, env, name);
      if prior.Fail? then Stop(prior.halt)
      else if prior.value.None? then Out(Error(IdentifierNotDefined), right.st)
      else if op == "=" then SetVar(right.st, env, name, right.value)
      else
        var result := Operators.Infix(CompoundOperator(op), prior.value.value, right.value, right.st);
        if result.Stop? || result.value.Error? then result
        else SetVar(result.st, env, name, result.value)
  }

  /** An identifier: the innermost binding, else a builtin, else an error. */
  function Lookup(st: State, env: nat, name: string, lib: Library): (r: Outcome<Object>)
    ensures r.Out? ==> r.st == st
  {
    var v := GetVar(st, env, name);
    if v.Fail? then Stop(v.halt)
    else if v.value.Some? then Out(v.value.value, st)
    else if name in lib then Out(lib[name], st)
    else Out(Error(IdentifierNotDefined), st)
  }

  /** `x++` / `x--`: a bound integer is stepped and stored back; an unbound
      name that reads as an integer literal is stepped and stored under the
      literal's own text. */
  function PostfixStep(st: State, env: nat, name: string, op: string): (r: Outcome<Object>)
    ensures r.Out? ==> Grows(st, r.st)
  {
    var cur := GetVar(st, env, name);
    if cur.Fail? then Stop(cur.halt)
    else
      var prior := if cur.value.Some? then cur.value
        else if ParseInt64(name).Some? then Some(Integer(ParseInt64(name).value))
        else None;
      if prior.None? then Out(Error(IllegalToken), st)
      else
        var next := Step(op, prior.value);
        if next.Integer? then SetVar(st, env, name, next) else Out(next, st)
  }

  /** `x[k] = v` once all three are evaluated: the first error among them
      is the result, otherwise the container is updated. */
  function KeyAssignment(left: Object, index: Object, value: Object, st: State): (r: Outcome<Object>)
    ensures r.Out? ==> Grows(st, r.st)
    ensures left.Error? ==> r == Out(left, st)
    ensures !left.Error? && index.Error? ==> r == Out(index, st)
    ensures !left.Error? && !index.Error? && value.Error? ==> r == Out(value, st)
    ensures !left.Error? && !index.Error? && !value.Error? ==> r == KeyAssign(left, index, value, st)
  {
    if left.Error? then Out(left, st)
    else if index.Error? then Out(index, st)
    else if value.Error? then Out(value, st)
    else KeyAssign(left, index, value, st)
  }

  // ---------------------------------------------------------------------
  // Eval

  /** `Eval` on an expression. */
  function EvalExpr(e: Expression, env: nat, st: State, lib: Library, fuel: nat): (r: Outcome<Object>)
    ensures r.Out? ==> Grows(st, r.st)
    decreases fuel, ExprSize(e), 0
  {
    match e
    case Ident(id) => Lookup(st, env, id.value, lib)
    case BooleanLiteral(_, b) => Out(NativeBool(b), st)
    case IntegerLiteral(_, v) => Out(Integer(v), st)
    case FloatLiteral(_) => Stop(Unmodelled)
    case StringLiteral(_, s) => Out(Str(s), st)
    case NullValue => NewNull(st)
    case Prefix(_, op, r) =>
      var right := EvalExpr(r, env, st, lib, fuel);
      if right.Stop? || right.value.Error? then right
      else Lift(Operators.Prefix(op, right.value), right.st)
    case Infix(_, l, op, r) =>
      var left := EvalExpr(l, env, st, lib, fuel);
      if left.Stop? || left.value.Error? then left
      else
        var right := EvalExpr(r, env, left.st, lib, fuel);
        if right.Stop? || right.value.Error? then right
        else Operators.Infix(op, left.value, right.value, right.st)
    case Postfix(tok, op) => PostfixStep(st, env, tok.literal, op)
    case If(_, c, t, a) =>
      var cond := EvalExpr(c, env, st, lib, fuel);
      if cond.Stop? || cond.value.Error? then cond
      else if IsTruthy(cond.value) then EvalBlock(t, env, cond.st, lib, fuel)
      else if a.Some? then EvalBlock(a.value, env, cond.st, lib, fuel)
      else Out(NULL, cond.st)
    case FunctionLiteral(_, ps, body) =>
      Out(Function(ps, body, env, st.next), st.(next := st.next + 1))
    case Call(_, f, args) =>
      var callee := EvalExpr(f, env, st, lib, fuel);
      if callee.Stop? || callee.value.Error? then callee
      else
        var vs := EvalExprs(args, [], env, callee.st, lib, fuel);
        if vs.Stop? then Stop(vs.why)
        else if |vs.value| == 1 && vs.value[0].Error? then Out(vs.value[0], vs.st)
        else ApplyFunction(callee.value, vs.value, vs.st, lib, fuel)
    case ArrayLiteral(_, es) =>
      var vs := EvalExprs(es, [], env, st, lib, fuel);
      if vs.Stop? then Stop(vs.why)
      else if |vs.value| == 1 && vs.value[0].Error? then Out(vs.value[0], vs.st)
      else NewArray(vs.st, vs.value)
    case Index(_, l, i) =>
      var left := EvalExpr(l, env, st, lib, fuel);
      if left.Stop? || left.value.Error? then left
      else
        var index := EvalExpr(i, env, left.st, lib, fuel);
        if index.Stop? || index.value.Error? then index
        else Lift(Operators.Index(left.value, index.value, index.st), index.st)
    case HashLiteral(_, ps) => EvalHashLiteral(ps, [], env, st, lib, fuel)
    case Assignment(_, id, v, op) => Assign(EvalExpr(v, env, st, lib, fuel), env, id.value, op)
    case SquareBracketAssignment(_, v, k, l) =>
      var left := EvalExpr(l, env, st, lib, fuel);
      if left.Stop? then left
      else
        var index := EvalExpr(k, env, left.st, lib, fuel);
        if index.Stop? then index
        else
          var value := EvalExpr(v, env, index.st, lib, fuel);
          if value.Stop? then value
          else KeyAssignment(left.value, index.value, value.value, value.st)
  }

  /** `evalExpressions`: the values in order, or just the first error. */
  function EvalExprs(es: seq<Expression>, acc: seq<Object>, env: nat, st: State, lib: Library, fuel: nat): (r: Outcome<seq<Object>>)
    ensures r.Out? ==> Grows(st, r.st)
    decreases fuel, ExprsSize(es), 0
  {
    if |es| == 0 then Out(acc, st)
    else
      var v := EvalExpr(es[0], env, st, lib, fuel);
      if v.Stop? then Stop(v.why)
      else if v.value.Error? then Out([v.value], v.st)
      else EvalExprs(es[1..], acc + [v.value], env, v.st, lib, fuel)
  }

  /** `evalHashLiteral`: key, then value, pair by pair, into a new map. */
  function EvalHashLiteral(ps: seq<Pair>, acc: seq<HashPair>, env: nat, st: State, lib: Library, fuel: nat): (r: Outcome<Object>)
    ensures r.Out? ==> Grows(st, r.st)
    decreases fuel, PairsSize(ps), 0
  {
    if |ps| == 0 then NewHash(st, acc)
    else
      assert PairsSize(ps) == 1 + PairSize(ps[0]) + PairsSize(ps[1..]);
      var key := EvalExpr(ps[0].key, env, st, lib, fuel);
      if key.Stop? || key.value.Error? then key
      else
        var hk := HashKeyOf(key.value);
        if hk.None? then
          var t := TextOf(key.st, key.value);
          if t.Fail? then Stop(t.halt) else Out(Error(UnusableAsHashKey), key.st)
        else
          var value := EvalExpr(ps[0].value, env, key.st, lib, fuel);
          if value.Stop? || value.value.Error? then value
          else EvalHashLiteral(ps[1..], Put(acc, HashPair(hk.value, key.value, value.value)), env, value.st, lib, fuel)
  }

  /** `applyFunction`, then `unwrapReturnValue`. */
  function ApplyFunction(fn: Object, args: seq<Object>, st: State, lib: Library, fuel: nat): (r: Outcome<Object>)
    ensures r.Out? ==> Grows(st, r.st)
    decreases fuel, 0, 0
  {
    if fn.Function? then
      if fuel == 0 then Stop(OutOfFuel)
      else if !ValidEnv(st, fn.env) then Stop(Crash)
      else
        var (fs, e) := Enclosed(st.frames, fn.env);
        var inner := BindParameters(st.(frames := fs), e, fn.parameters, args, 0);
        var r := EvalBlock(fn.body, e, inner, lib, fuel - 1);
        if r.Stop? then r else Out(Unwrap(r.value), r.st)
    else if fn.Builtin? then CallBuiltin(fn.name, args, st)
    else
      var t := TextOf(st, fn);
      if t.Fail? then Stop(t.halt) else Out(Error(NotAFunction), st)
  }

  /** `Eval` on a statement. */
  function EvalStmt(s: Statement, env: nat, st: State, lib: Library, fuel: nat): (r: Outcome<Object>)
    ensures r.Out? ==> Grows(st, r.st)
    decreases fuel, StmtSize(s), 0
  {
    match s
    case LetStatement(_, name, v) =>
      var val := if v.Some? then EvalExpr(v.value, env, st, lib, fuel) else Out(Nil, st);
      if val.Stop? || val.value.Error? then val
      else if HasLocal(val.st, env, name.value) then Out(Error(IdentifierAlreadyDefined), val.st)
      else SetVar(val.st, env, name.value, val.value)
    case ReturnStatement(_, v) =>
      var val := if v.Some? then EvalExpr(v.value, env, st, lib, fuel) else NewNull(st);
      if val.Stop? || val.value.Error? then val
      else Out(ReturnValue(val.value, val.st.next), val.st.(next := val.st.next + 1))
    case ExpressionStatement(_, e) =>
      if e.Some? then EvalExpr(e.value, env, st, lib, fuel) else Out(Nil, st)
    case BlockStatement(b) => EvalBlock(b, env, st, lib, fuel)
    case WhileStatement(_, c, b) => WhileLoop(c, b, env, st, lib, fuel)
    case ForStatement(_, counter, element, _, it, b) =>
      var iterable := EvalExpr(it, env, st, lib, fuel);
      if iterable.Stop? then iterable
      else
        var items := ForItems(iterable.st, iterable.value);
        if items.Fail? then Stop(items.halt)
        else if items.value.None? then Out(Error(NonIterableInForLoop), iterable.st)
        else ForLoop(counter.value, element.value, items.value.value, 0, b, env, iterable.st, lib, fuel)
    case BreakStatement(_) => Out(Break, st)
    case ContinueStatement(_) => Out(Continue, st)
  }

  /** `evalBlockStatement`. */
  function EvalBlock(b: Block, env: nat, st: State, lib: Library, fuel: nat): (r: Outcome<Object>)
    ensures r.Out? ==> Grows(st, r.st)
    decreases fuel, BlockSize(b), 0
  {
    EvalStmts(b.statements, Nil, env, st, lib, fuel)
  }

  /** The loop of `evalBlockStatement` from `result` on: each statement in
      turn, until one gives a signal. */
  function EvalStmts(ss: seq<Statement>, result: Object, env: nat, st: State, lib: Library, fuel: nat): (r: Outcome<Object>)
    ensures r.Out? ==> Grows(st, r.st)
    decreases fuel, StmtsSize(ss), 0
  {
    if |ss| == 0 then Out(result, st)
    else
      var r := EvalStmt(ss[0], env, st, lib, fuel);
      if r.Stop? || Signals(r.value) then r
      else EvalStmts(ss[1..], r.value, env, r.st, lib, fuel)
  }

  /** `evalWhileStatement`: the condition, then the body, round after
      round; a nil body result panics on its `Type()`. */
  function WhileLoop(c: Expression, b: Block, env: nat, st: State, lib: Library, fuel: nat): (r: Outcome<Object>)
    ensures r.Out? ==> Grows(st, r.st)
    decreases fuel, ExprSize(c) + BlockSize(b), 0
  {
    var cond := EvalExpr(c, env, st, lib, fuel);
    if cond.Stop? || cond.value.Error? then cond
    else if !IsTruthy(cond.value) then NewNull(cond.st)
    else
      var r := EvalBlock(b, env, cond.st, lib, fuel);
      if r.Stop? || r.value.Error? then r
      else if r.value.Nil? then Stop(Crash)
      else if r.value.Break? || r.value.ReturnValue? then r
      else if fuel == 0 then Stop(OutOfFuel)
      else WhileLoop(c, b, env, r.st, lib, fuel - 1)
  }

  /** `evalForStatement` from round i on. */
  function ForLoop(counter: string, element: string, items: seq<ForItem>, i: nat, b: Block,
                   env: nat, st: State, lib: Library, fuel: nat): (r: Outcome<Object>)
    ensures r.Out? ==> Grows(st, r.st)
    decreases fuel, BlockSize(b), |items| - i
  {
    if i >= |items| then NewNull(st)
    else
      var bound := BindItem(st, env, counter, element, items[i], i);
      if bound.Stop? || bound.value.Error? then bound
      else
        var r := EvalBlock(b, env, bound.st, lib, fuel);
        if r.Stop? then r
        else if r.value.Nil? then Stop(Crash)
        else if r.value.Continue? then ForLoop(counter, element, items, i + 1, b, env, r.st, lib, fuel)
        else if r.value.Error? || r.value.Break? || r.value.ReturnValue? then r
        else ForLoop(counter, element, items, i + 1, b, env, r.st, lib, fuel)
  }

  /** `evalProgram` from `result` on: a return value is unwrapped and ends
      the program, an error ends it. */
  function ProgramFrom(ss: seq<Statement>, result: Object, env: nat, st: State, lib: Library, fuel: nat): (r: Outcome<Object>)
    ensures r.Out? ==> Grows(st, r.st)
    decreases |ss|
  {
    if |ss| == 0 then Out(result, st)
    else
      var r := EvalStmt(ss[0], env, st, lib, fuel);
      if r.Stop? then r
      else if r.value.ReturnValue? then Out(r.value.inner, r.st)
      else if r.value.Error? then r
      else ProgramFrom(ss[1..], r.value, env, r.st, lib, fuel)
  }

  function EvalProgram(p: Program, env: nat, st: State, lib: Library, fuel: nat): (r: Outcome<Object>)
    ensures r.Out? ==> Grows(st, r.st)
  {
    ProgramFrom(p, Nil, env, st, lib, fuel)
  }

  // ---------------------------------------------------------------------
  // Postfix steps, calls, argument lists and map literals

  /** `x++` and `x--` on an integer, whether the name is bound to it or is
      itself an integer literal that is bound to nothing: the stepped
      integer, with int64 wrap-around, is the result and is stored under
      the name in the current environment, and every other name resolves
      as before. */
  lemma PostfixStepsInteger(st: State, env: nat, name: string, op: string, n: Int64, m: string)
    requires ValidEnv(st, env) && (op == "++" || op == "--")
    requires Resolve(st.frames, env, name) == Some(Integer(n)) ||
             (Resolve(st.frames, env, name).None? && ParseInt64(name) == Some(n))
    ensures var v := Integer(if op == "++" then Wrap64(n as int + 1) else Wrap64(n as int - 1));
      var r := PostfixStep(st, env, name, op);
      r == Out(v, st.(frames := Bind(st.frames, env, name, v))) &&
      Resolve(r.st.frames, env, name) == Some(v) &&
      (m != name ==> Resolve(r.st.frames, env, m) == Resolve(st.frames, env, m))
  {
    var v := Integer(if op == "++" then Wrap64(n as int + 1) else Wrap64(n as int - 1));
    assert Step(op, Integer(n)) == v;
    ResolveBind(st.frames, env, name, v, name);
    ResolveBind(st.frames, env, name, v, m);
  }

  /** `x++` and `x--` that cannot step: a name bound to a non-integer is
      UnacceptableLHSInPostfix, an unbound name that is not an integer
      literal is IllegalToken, and neither changes the state. */
  lemma PostfixRejects(st: State, env: nat, name: string, op: string)
    requires ValidEnv(st, env) && (op == "++" || op == "--")
    ensures Resolve(st.frames, env, name).Some? && !Resolve(st.frames, env, name).value.Integer? ==>
      PostfixStep(st, env, name, op) == Out(Error(UnacceptableLHSInPostfix), st)
    ensures Resolve(st.frames, env, name).None? && ParseInt64(name).None? ==>
      PostfixStep(st, env, name, op) == Out(Error(IllegalToken), st)
  {
  }

  /** Parameter k is not bound again by a later parameter. */
  predicate LastOccurrence(ps: seq<Identifier>, k: nat)
    requires k < |ps|
  {
    forall k' :: k < k' < |ps| ==> ps[k'].value != ps[k].value
  }

  /** n names one of the parameters from position i on. */
  predicate IsParameter(ps: seq<Identifier>, i: nat, n: string) {
    exists k :: i <= k < |ps| && ps[k].value == n
  }

  /** What binding from position i on gives parameter k: its argument, or,
      past the last argument, a null of its own, numbered in parameter
      order from `next`. */
  function ParamValue(args: seq<Object>, i: nat, next: nat, k: nat): Object
    requires i <= k
  {
    if k < |args| then args[k]
    else Null(Fresh(next + k - (if i < |args| then |args| else i)))
  }

  /** The state after binding parameter i alone. */
  function BindFirst(st: State, e: nat, ps: seq<Identifier>, args: seq<Object>, i: nat): State
    requires e < |st.frames| && i < |ps|
  {
    var v := if i < |args| then args[i] else Null(Fresh(st.next));
    State(st.heap, Bind(st.frames, e, ps[i].value, v), if i < |args| then st.next else st.next + 1)
  }

  /** Binding from position i is binding parameter i and then the rest. */
  lemma BindParametersUnfold(st: State, e: nat, ps: seq<Identifier>, args: seq<Object>, i: nat)
    requires e < |st.frames| && i < |ps|
    ensures BindParameters(st, e, ps, args, i) == BindParameters(BindFirst(st, e, ps, args, i), e, ps, args, i + 1)
    ensures var st1 := BindFirst(st, e, ps, args, i);
      ps[i].value in st1.frames[e].store &&
      st1.frames[e].store[ps[i].value] == ParamValue(args, i, st.next, i) &&
      st1.frames[e].store == st.frames[e].store[ps[i].value := st1.frames[e].store[ps[i].value]] &&
      forall k :: i < k ==> ParamValue(args, i + 1, st1.next, k) == ParamValue(args, i, st.next, k)
  {
  }

  /** `extendFunctionEnv`: a parameter from position i on that no later
      parameter repeats holds its argument, or a fresh null when the call
      has fewer arguments. */
  lemma {:induction false} BindParametersBinds(st: State, e: nat, ps: seq<Identifier>, args: seq<Object>, i: nat, k: nat)
    requires e < |st.frames| && i <= k < |ps| && LastOccurrence(ps, k)
    ensures var r := BindParameters(st, e, ps, args, i);
      ps[k].value in r.frames[e].store && r.frames[e].store[ps[k].value] == ParamValue(args, i, st.next, k)
    decreases |ps| - i
  {
    BindParametersUnfold(st, e, ps, args, i);
    var st1 := BindFirst(st, e, ps, args, i);
    if k == i {
      assert !IsParameter(ps, i + 1, ps[i].value);
      BindParametersKeeps(st1, e, ps, args, i + 1, ps[i].value);
    } else {
      BindParametersBinds(st1, e, ps, args, i + 1, k);
    }
  }

  /** `extendFunctionEnv` leaves every name that is not a parameter from
      position i on as it was in the frame. */
  lemma {:induction false} BindParametersKeeps(st: State, e: nat, ps: seq<Identifier>, args: seq<Object>, i: nat, n: string)
    requires e < |st.frames| && i <= |ps| && !IsParameter(ps, i, n)
    ensures var r := BindParameters(st, e, ps, args, i);
      (n in r.frames[e].store <==> n in st.frames[e].store) &&
      (n in st.frames[e].store ==> r.frames[e].store[n] == st.frames[e].store[n])
    decreases |ps| - i
  {
    if i < |ps| {
      BindParametersUnfold(st, e, ps, args, i);
      var st1 := BindFirst(st, e, ps, args, i);
      assert n != ps[i].value;
      assert !IsParameter(ps, i + 1, n);
      BindParametersKeeps(st1, e, ps, args, i + 1, n);
    }
  }

  /** `applyFunction` on every input: the body runs in a new environment
      enclosed by the function's own, and the result is unwrapped.  In that
      environment each parameter that no later one repeats resolves to its
      argument or to a fresh null, and every other name resolves as it does
      in the function's environment. */
  lemma CallBindsParameters(fn: Object, args: seq<Object>, st: State, lib: Library, fuel: nat)
    requires fn.Function? && fuel > 0 && ValidEnv(st, fn.env)
    ensures var (fs, e) := Enclosed(st.frames, fn.env);
      var inner := BindParameters(st.(frames := fs), e, fn.parameters, args, 0);
      var r := EvalBlock(fn.body, e, inner, lib, fuel - 1);
      e == |st.frames| && ValidEnv(inner, e) &&
      ApplyFunction(fn, args, st, lib, fuel) == (if r.Stop? then r else Out(Unwrap(r.value), r.st))
    ensures var (fs, e) := Enclosed(st.frames, fn.env);
      var inner := BindParameters(st.(frames := fs), e, fn.parameters, args, 0);
      forall k :: 0 <= k < |fn.parameters| && LastOccurrence(fn.parameters, k) ==>
        Resolve(inner.frames, e, fn.parameters[k].value) == Some(ParamValue(args, 0, st.next, k))
    ensures var (fs, e) := Enclosed(st.frames, fn.env);
      var inner := BindParameters(st.(frames := fs), e, fn.parameters, args, 0);
      forall n :: !IsParameter(fn.parameters, 0, n) ==> Resolve(inner.frames, e, n) == Resolve(st.frames, fn.env, n)
  {
    var (fs, e) := Enclosed(st.frames, fn.env);
    var inner := BindParameters(st.(frames := fs), e, fn.parameters, args, 0);
    forall k | 0 <= k < |fn.parameters| && LastOccurrence(fn.parameters, k)
      ensures Resolve(inner.frames, e, fn.parameters[k].value) == Some(ParamValue(args, 0, st.next, k))
    {
      BindParametersBinds(st.(frames := fs), e, fn.parameters, args, 0, k);
    }
    forall n | !IsParameter(fn.parameters, 0, n)
      ensures Resolve(inner.frames, e, n) == Resolve(st.frames, fn.env, n)
    {
      BindParametersKeeps(st.(frames := fs), e, fn.parameters, args, 0, n);
      assert n !in inner.frames[e].store;
      assert inner.frames[e].outer == Some(fn.env);
      assert forall i :: 0 <= i <= fn.env ==> inner.frames[i] == fs[i] == st.frames[i];
      ResolveSamePrefix(st.frames, inner.frames, fn.env, n);
    }
  }

  /** `applyFunction` on anything but a function: a builtin is called on
      the arguments, and any other object is NotAFunction. */
  lemma CallOtherwise(fn: Object, args: seq<Object>, st: State, lib: Library, fuel: nat)
    requires !fn.Function?
    ensures fn.Builtin? ==> ApplyFunction(fn, args, st, lib, fuel) == CallBuiltin(fn.name, args, st)
    ensures !fn.Builtin? && TextOf(st, fn).Done? ==> ApplyFunction(fn, args, st, lib, fuel) == Out(Error(NotAFunction), st)
  {
  }

  /** No value in vs is an error. */
  predicate NoErrors(vs: seq<Object>) {
    forall j :: 0 <= j < |vs| ==> !vs[j].Error?
  }

  /** `evalExpressions` gives either all the values, after those already
      gathered, none of them an error, or just one error. */
  lemma {:induction false} EvalExprsShape(es: seq<Expression>, acc: seq<Object>, env: nat, st: State, lib: Library, fuel: nat)
    requires NoErrors(acc)
    ensures var r := EvalExprs(es, acc, env, st, lib, fuel);
      r.Out? ==>
        (|r.value| == |acc| + |es| && r.value[..|acc|] == acc && NoErrors(r.value)) ||
        (|r.value| == 1 && r.value[0].Error?)
    decreases |es|
  {
    if |es| > 0 {
      var v := EvalExpr(es[0], env, st, lib, fuel);
      if v.Out? && !v.value.Error? {
        EvalExprsShape(es[1..], acc + [v.value], env, v.st, lib, fuel);
        var r := EvalExprs(es, acc, env, st, lib, fuel);
        if r.Out? && |r.value| == |acc| + 1 + |es[1..]| {
          assert r.value[..|acc|] == r.value[..|acc| + 1][..|acc|];
        }
      }
    }
  }

  /** One expression: a panic stops the list, an error is the whole result,
      and a value is added after those already gathered. */
  lemma EvalExprsOne(x: Expression, acc: seq<Object>, env: nat, st: State, lib: Library, fuel: nat)
    ensures var v := EvalExpr(x, env, st, lib, fuel);
      EvalExprs([x], acc, env, st, lib, fuel) ==
        if v.Stop? then Stop(v.why) else if v.value.Error? then Out([v.value], v.st) else Out(acc + [v.value], v.st)
  {
    assert [x][1..] == [];
  }

  /** Evaluating es1 + es2 is evaluating es1 and then, unless that stopped
      or gave an error, es2 from where es1 left the values and the state:
      the values come in the order of the expressions. */
  lemma {:induction false} EvalExprsAppend(es1: seq<Expression>, es2: seq<Expression>, acc: seq<Object>,
                                           env: nat, st: State, lib: Library, fuel: nat)
    requires NoErrors(acc)
    ensures var r1 := EvalExprs(es1, acc, env, st, lib, fuel);
      EvalExprs(es1 + es2, acc, env, st, lib, fuel) ==
        if r1.Stop? || !NoErrors(r1.value) then r1 else EvalExprs(es2, r1.value, env, r1.st, lib, fuel)
    decreases |es1|
  {
    if |es1| == 0 {
      assert es1 + es2 == es2;
    } else {
      assert (es1 + es2)[0] == es1[0];
      assert (es1 + es2)[1..] == es1[1..] + es2;
      var v := EvalExpr(es1[0], env, st, lib, fuel);
      if v.Out? && v.value.Error? {
        assert [v.value][0].Error?;
      } else if v.Out? {
        EvalExprsAppend(es1[1..], es2, acc + [v.value], env, v.st, lib, fuel);
      }
    }
  }

  /** One pair of a map literal: an error or panic in its key, an
      unhashable key or an error in its value ends the literal; otherwise
      the pair is stored, so its key now finds it and no other key
      changes, and the rest of the literal follows. */
  lemma HashLiteralPair(ps: seq<Pair>, acc: seq<HashPair>, env: nat, st: State, lib: Library, fuel: nat)
    requires |ps| > 0
    ensures var key := EvalExpr(ps[0].key, env, st, lib, fuel);
      key.Stop? || key.value.Error? ==> EvalHashLiteral(ps, acc, env, st, lib, fuel) == key
    ensures var key := EvalExpr(ps[0].key, env, st, lib, fuel);
      key.Out? && !key.value.Error? && HashKeyOf(key.value).None? ==>
        EvalHashLiteral(ps, acc, env, st, lib, fuel) ==
          if TextOf(key.st, key.value).Done? then Out(Error(UnusableAsHashKey), key.st)
          else Stop(TextOf(key.st, key.value).halt)
    ensures var key := EvalExpr(ps[0].key, env, st, lib, fuel);
      key.Out? && !key.value.Error? && HashKeyOf(key.value).Some? ==>
        var value := EvalExpr(ps[0].value, env, key.st, lib, fuel);
        (value.Stop? || value.value.Error? ==> EvalHashLiteral(ps, acc, env, st, lib, fuel) == value) &&
        (value.Out? && !value.value.Error? ==>
          var p := HashPair(HashKeyOf(key.value).value, key.value, value.value);
          Objects.Lookup(Put(acc, p), p.hkey) == Some(p) &&
          (forall k :: k != p.hkey ==> Objects.Lookup(Put(acc, p), k) == Objects.Lookup(acc, k)) &&
          EvalHashLiteral(ps, acc, env, st, lib, fuel) == EvalHashLiteral(ps[1..], Put(acc, p), env, value.st, lib, fuel))
  {
    var key := EvalExpr(ps[0].key, env, st, lib, fuel);
    if key.Out? && !key.value.Error? && HashKeyOf(key.value).Some? {
      var value := EvalExpr(ps[0].value, env, key.st, lib, fuel);
      if value.Out? && !value.value.Error? {
        var p := HashPair(HashKeyOf(key.value).value, key.value, value.value);
        LookupPut(acc, p, p.hkey);
        forall k | k != p.hkey
          ensures Objects.Lookup(Put(acc, p), k) == Objects.Lookup(acc, k)
        {
          LookupPut(acc, p, k);
        }
      }
    }
  }

  /** Each pair is stored under the hash key of its key object, and
      neither its key nor its value is an error. */
  predicate KeyedPairs(kvs: seq<HashPair>) {
    forall j :: 0 <= j < |kvs| ==>
      HashKeyOf(kvs[j].key) == Some(kvs[j].hkey) && !kvs[j].key.Error? && !kvs[j].value.Error?
  }

  /** The map o holds acc with n keyed pairs stored after it, in order. */
  ghost predicate HoldsPutAll(st: State, o: Object, acc: seq<HashPair>, n: nat) {
    exists kvs: seq<HashPair> :: |kvs| == n && KeyedPairs(kvs) && PairsOf(st, o) == Some(PutAll(acc, kvs))
  }

  /** Storing one keyed pair before n others is storing n + 1. */
  lemma HoldsPutAllCons(st: State, o: Object, acc: seq<HashPair>, p: HashPair, n: nat)
    requires HoldsPutAll(st, o, Put(acc, p), n)
    requires HashKeyOf(p.key) == Some(p.hkey) && !p.key.Error? && !p.value.Error?
    ensures HoldsPutAll(st, o, acc, n + 1)
  {
    var kvs': seq<HashPair> :| |kvs'| == n && KeyedPairs(kvs') && PairsOf(st, o) == Some(PutAll(Put(acc, p), kvs'));
    var kvs := [p] + kvs';
    assert kvs[1..] == kvs';
    assert PutAll(acc, kvs) == PutAll(Put(acc, p), kvs');
    assert KeyedPairs(kvs);
  }

  /** A map literal that succeeds is a new map (the last cell of the heap)
      holding the pairs already gathered with one evaluated pair per
      literal pair stored after them, in order (`HoldsPutAll`).  With
      `Objects.LookupPutAllLast`, a key repeated in the literal finds its
      last pair. */
  lemma {:induction false} HashLiteralBuilds(ps: seq<Pair>, acc: seq<HashPair>, env: nat, st: State, lib: Library, fuel: nat)
    ensures var r := EvalHashLiteral(ps, acc, env, st, lib, fuel);
      r.Out? && !r.value.Error? ==>
        |r.st.heap| > 0 && r.value == Hash(|r.st.heap| - 1) && HoldsPutAll(r.st, r.value, acc, |ps|)
    decreases |ps|
  {
    var r := EvalHashLiteral(ps, acc, env, st, lib, fuel);
    if |ps| == 0 {
      assert PairsOf(r.st, r.value) == Some(PutAll(acc, []));
      assert KeyedPairs([]);
    } else {
      HashLiteralPair(ps, acc, env, st, lib, fuel);
      var key := EvalExpr(ps[0].key, env, st, lib, fuel);
      if key.Out? && !key.value.Error? && HashKeyOf(key.value).Some? {
        var value := EvalExpr(ps[0].value, env, key.st, lib, fuel);
        if value.Out? && !value.value.Error? {
          var p := HashPair(HashKeyOf(key.value).value, key.value, value.value);
          HashLiteralBuilds(ps[1..], Put(acc, p), env, value.st, lib, fuel);
          if r.Out? && !r.value.Error? {
            HoldsPutAllCons(r.st, r.value, acc, p, |ps| - 1);
          }
        }
      }
    }
  }

  // ---------------------------------------------------------------------
  // Blocks and programs

  /** Running ss and then post in one block is running ss and, unless ss
      ended in a panic or a signal, running post on from where ss left the
      result and the state. */
  lemma {:induction false} StmtsAppend(ss: seq<Statement>, post: seq<Statement>, result: Object,
                                       env: nat, st: State, lib: Library, fuel: nat)
    ensures var r := EvalStmts(ss, result, env, st, lib, fuel);
      EvalStmts(ss + post, result, env, st, lib, fuel) ==
        (if r.Stop? || (|ss| > 0 && Signals(r.value)) then r else EvalStmts(post, r.value, env, r.st, lib, fuel))
    decreases |ss|
  {
    if |ss| == 0 {
      assert ss + post == post;
    } else {
      assert (ss + post)[0] == ss[0];
      assert (ss + post)[1..] == ss[1..] + post;
      var r0 := EvalStmt(ss[0], env, st, lib, fuel);
      if r0.Out? && !Signals(r0.value) {
        StmtsAppend(ss[1..], post, r0.value, env, r0.st, lib, fuel);
      }
    }
  }

  /** A block stops at the first statement that gives a return value, an
      error, a break or a continue: that result is the block's, and the
      statements after it are not evaluated. */
  lemma BlockStopsAtFirstSignal(tok: Token.Token, pre: seq<Statement>, s: Statement, post: seq<Statement>,
                                env: nat, st: State, lib: Library, fuel: nat)
    requires var r := EvalStmts(pre, Nil, env, st, lib, fuel); r.Out? && !Signals(r.value)
    ensures var r := EvalStmts(pre, Nil, env, st, lib, fuel);
      var q := EvalStmt(s, env, r.st, lib, fuel);
      q.Out? && Signals(q.value) ==> EvalBlock(Block(tok, pre + [s] + post), env, st, lib, fuel) == q
  {
    assert pre + [s] + post == pre + ([s] + post);
    StmtsAppend(pre, [s] + post, Nil, env, st, lib, fuel);
  }

  /** None of the statements ends the program: each gives a result that
      is neither a return value nor an error. */
  predicate RunsThrough(ss: seq<Statement>, env: nat, st: State, lib: Library, fuel: nat)
    decreases |ss|
  {
    |ss| == 0 ||
    (var r := EvalStmt(ss[0], env, st, lib, fuel);
     r.Out? && !r.value.ReturnValue? && !r.value.Error? && RunsThrough(ss[1..], env, r.st, lib, fuel))
  }

  /** A program that runs through ss goes on with post from the result and
      state ss leaves. */
  lemma {:induction false} ProgramAppend(ss: seq<Statement>, post: seq<Statement>, result: Object,
                                         env: nat, st: State, lib: Library, fuel: nat)
    requires RunsThrough(ss, env, st, lib, fuel)
    ensures var r := ProgramFrom(ss, result, env, st, lib, fuel);
      r.Out? && ProgramFrom(ss + post, result, env, st, lib, fuel) == ProgramFrom(post, r.value, env, r.st, lib, fuel)
    decreases |ss|
  {
    if |ss| == 0 {
      assert ss + post == post;
    } else {
      assert (ss + post)[0] == ss[0];
      assert (ss + post)[1..] == ss[1..] + post;
      var r0 := EvalStmt(ss[0], env, st, lib, fuel);
      ProgramAppend(ss[1..], post, r0.value, env, r0.st, lib, fuel);
    }
  }

  /** A program ends at its first return, with the returned object
      unwrapped, or at its first error; unlike a block it does not stop at
      a break or a continue. */
  lemma ProgramEndsAtFirstReturn(pre: seq<Statement>, s: Statement, post: seq<Statement>,
                                 env: nat, st: State, lib: Library, fuel: nat)
    requires RunsThrough(pre, env, st, lib, fuel)
    ensures ProgramFrom(pre, Nil, env, st, lib, fuel).Out?
    ensures var r := ProgramFrom(pre, Nil, env, st, lib, fuel);
      var q := EvalStmt(s, env, r.st, lib, fuel);
      var whole := EvalProgram(pre + [s] + post, env, st, lib, fuel);
      (q.Out? && q.value.ReturnValue? ==> whole == Out(q.value.inner, q.st)) &&
      (q.Out? && q.value.Error? ==> whole == q) &&
      (q.Out? && (q.value.Break? || q.value.Continue?) ==> whole == ProgramFrom(post, q.value, env, q.st, lib, fuel))
  {
    assert pre + [s] + post == pre + ([s] + post);
    ProgramAppend(pre, [s] + post, Nil, env, st, lib, fuel);
    assert ([s] + post)[1..] == post;
  }

  // ---------------------------------------------------------------------
  // let and assignment

  /** `let n = e`: an error from e is returned and nothing is bound; a name
      already in the current store is an error and the store is left as
      e left it; otherwise n is bound in the current store to e's value,
      which the statement returns, shadowing any outer binding and leaving
      every other name as it was. */
  lemma LetRules(tok: Token.Token, name: Identifier, e: Expression, env: nat, st: State, lib: Library, fuel: nat)
    ensures var v := EvalExpr(e, env, st, lib, fuel);
      var r := EvalStmt(LetStatement(tok, name, Some(e)), env, st, lib, fuel);
      (v.Out? && v.value.Error? ==> r == v) &&
      (v.Out? && !v.value.Error? && ValidEnv(v.st, env) ==>
        (HasLocal(v.st, env, name.value) ==> r == Out(Error(IdentifierAlreadyDefined), v.st)) &&
        (!HasLocal(v.st, env, name.value) ==>
          r.Out? && r.value == v.value && r.st.heap == v.st.heap &&
          Resolve(r.st.frames, env, name.value) == Some(v.value) &&
          forall m :: m != name.value ==> Resolve(r.st.frames, env, m) == Resolve(v.st.frames, env, m)))
  {
    var v := EvalExpr(e, env, st, lib, fuel);
    if v.Out? && !v.value.Error? && ValidEnv(v.st, env) && !HasLocal(v.st, env, name.value) {
      forall m | true ensures m != name.value ==> Resolve(Bind(v.st.frames, env, name.value, v.value), env, m) == Resolve(v.st.frames, env, m) {
        ResolveBind(v.st.frames, env, name.value, v.value, m);
      }
    }
  }

  /** `let a = 1; let a = 2` in one store: the second is an error and a
      keeps 1 (sonar-lang/evaluator/evaluator_test.go). */
  lemma LetTwice(tok: Token.Token, a: Identifier, st: State, env: nat, lib: Library, fuel: nat)
    requires ValidEnv(st, env) && !HasLocal(st, env, a.value)
    ensures var first := EvalStmt(LetStatement(tok, a, Some(IntegerLiteral(tok, 1))), env, st, lib, fuel);
      first.Out? && ValidEnv(first.st, env) && Resolve(first.st.frames, env, a.value) == Some(Integer(1)) &&
      var second := EvalStmt(LetStatement(tok, a, Some(IntegerLiteral(tok, 2))), env, first.st, lib, fuel);
      second == Out(Error(IdentifierAlreadyDefined), first.st)
  {
    LetRules(tok, a, IntegerLiteral(tok, 1), env, st, lib, fuel);
  }

  /** `x = e` and `x op= e`: e is evaluated first; a name bound nowhere
      along the chain is an error; otherwise the new value, e's or
      `x op e`'s, is stored in the current store, whichever store held x,
      and returned.  An error from the operator is returned and nothing
      is stored. */
  lemma AssignmentRules(tok: Token.Token, id: Identifier, e: Expression, op: string,
                        env: nat, st: State, lib: Library, fuel: nat)
    ensures var v := EvalExpr(e, env, st, lib, fuel);
      var r := EvalExpr(Assignment(tok, id, e, op), env, st, lib, fuel);
      (v.Out? && v.value.Error? ==> r == v) &&
      (v.Out? && !v.value.Error? && ValidEnv(v.st, env) ==>
        var cur := Resolve(v.st.frames, env, id.value);
        (cur.None? ==> r == Out(Error(IdentifierNotDefined), v.st)) &&
        (cur.Some? && op == "=" ==>
          r == Out(v.value, v.st.(frames := Bind(v.st.frames, env, id.value, v.value))) &&
          Resolve(r.st.frames, env, id.value) == Some(v.value)) &&
        (cur.Some? && op != "=" ==>
          var x := Operators.Infix(CompoundOperator(op), cur.value, v.value, v.st);
          (x.Out? && x.value.Error? ==> r == x) &&
          (x.Out? && !x.value.Error? ==>
            r == Out(x.value, x.st.(frames := Bind(x.st.frames, env, id.value, x.value))))))
  {
    var v := EvalExpr(e, env, st, lib, fuel);
    assert EvalExpr(Assignment(tok, id, e, op), env, st, lib, fuel) == Assign(v, env, id.value, op);
    AssignRules(v, env, id.value, op);
  }

  /** `Assign` case by case. */
  lemma AssignRules(v: Outcome<Object>, env: nat, name: string, op: string)
    ensures var r := Assign(v, env, name, op);
      (v.Out? && v.value.Error? ==> r == v) &&
      (v.Out? && !v.value.Error? && ValidEnv(v.st, env) ==>
        var cur := Resolve(v.st.frames, env, name);
        (cur.None? ==> r == Out(Error(IdentifierNotDefined), v.st)) &&
        (cur.Some? && op == "=" ==>
          r == Out(v.value, v.st.(frames := Bind(v.st.frames, env, name, v.value))) &&
          Resolve(r.st.frames, env, name) == Some(v.value)) &&
        (cur.Some? && op != "=" ==>
          var x := Operators.Infix(CompoundOperator(op), cur.value, v.value, v.st);
          (x.Out? && x.value.Error? ==> r == x) &&
          (x.Out? && !x.value.Error? ==>
            r == Out(x.value, x.st.(frames := Bind(x.st.frames, env, name, x.value))))))
  {
    if v.Out? && !v.value.Error? && ValidEnv(v.st, env) && Resolve(v.st.frames, env, name).Some? && op == "=" {
      ResolveBind(v.st.frames, env, name, v.value, name);
    }
  }

  /** `x += n` is `x = x + n` for a literal n, and the same holds for the
      other compound operators: the compound form is the infix operator
      followed by a plain assignment. */
  lemma CompoundIsInfix(tok: Token.Token, id: Identifier, n: Int64, op: string,
                        env: nat, st: State, lib: Library, fuel: nat)
    requires op in ["+=", "-=", "*=", "/="]
    requires ValidEnv(st, env) && Resolve(st.frames, env, id.value).Some? && !Resolve(st.frames, env, id.value).value.Error?
    ensures EvalExpr(Assignment(tok, id, IntegerLiteral(tok, n), op), env, st, lib, fuel) ==
      EvalExpr(Assignment(tok, id, Infix(tok, Ident(id), CompoundOperator(op), IntegerLiteral(tok, n)), "="), env, st, lib, fuel)
  {
    var cur := Resolve(st.frames, env, id.value).value;
    var x := Operators.Infix(CompoundOperator(op), cur, Integer(n), st);
    assert EvalExpr(Assignment(tok, id, IntegerLiteral(tok, n), op), env, st, lib, fuel) ==
      Assign(Out(Integer(n), st), env, id.value, op);
    assert EvalExpr(Ident(id), env, st, lib, fuel) == Out(cur, st);
    assert EvalExpr(Infix(tok, Ident(id), CompoundOperator(op), IntegerLiteral(tok, n)), env, st, lib, fuel) == x;
    CompoundAssign(st, env, id.value, op, Integer(n));
  }

  /** A compound assignment stores what the plain assignment of its infix
      result would. */
  lemma CompoundAssign(st: State, env: nat, name: string, op: string, v: Object)
    requires op != "=" && !v.Error?
    requires ValidEnv(st, env) && Resolve(st.frames, env, name).Some?
    ensures Assign(Out(v, st), env, name, op) ==
      Assign(Operators.Infix(CompoundOperator(op), Resolve(st.frames, env, name).value, v, st), env, name, "=")
  {
    var x := Operators.Infix(CompoundOperator(op), Resolve(st.frames, env, name).value, v, st);
    if x.Out? && !x.value.Error? {
      assert GetVar(x.st, env, name) == Done(Resolve(st.frames, env, name));
    }
  }

  /** The assignment tests: `let a = 0` and then `a += 1`, `a -= 1` and
      `a *= 2` give 1, -1 and 0 (sonar-lang/evaluator/evaluator_test.go). */
  lemma CompoundAssignmentExamples(tok: Token.Token, a: Identifier, st: State, env: nat, lib: Library, fuel: nat)
    requires ValidEnv(st, env) && Resolve(st.frames, env, a.value) == Some(Integer(0))
    ensures EvalExpr(Assignment(tok, a, IntegerLiteral(tok, 1), "+="), env, st, lib, fuel) == Out(Integer(1), st.(frames := Bind(st.frames, env, a.value, Integer(1))))
    ensures EvalExpr(Assignment(tok, a, IntegerLiteral(tok, 1), "-="), env, st, lib, fuel) == Out(Integer(-1), st.(frames := Bind(st.frames, env, a.value, Integer(-1))))
    ensures EvalExpr(Assignment(tok, a, IntegerLiteral(tok, 2), "*="), env, st, lib, fuel) == Out(Integer(0), st.(frames := Bind(st.frames, env, a.value, Integer(0))))
  {
    assert EvalExpr(Assignment(tok, a, IntegerLiteral(tok, 1), "+="), env, st, lib, fuel) == Assign(Out(Integer(1), st), env, a.value, "+=");
    assert EvalExpr(Assignment(tok, a, IntegerLiteral(tok, 1), "-="), env, st, lib, fuel) == Assign(Out(Integer(1), st), env, a.value, "-=");
    assert EvalExpr(Assignment(tok, a, IntegerLiteral(tok, 2), "*="), env, st, lib, fuel) == Assign(Out(Integer(2), st), env, a.value, "*=");
    CompoundOnZero(st, env, a.value);
  }

  lemma CompoundOnZero(st: State, env: nat, name: string)
    requires ValidEnv(st, env) && Resolve(st.frames, env, name) == Some(Integer(0))
    ensures Assign(Out(Integer(1), st), env, name, "+=") == Out(Integer(1), st.(frames := Bind(st.frames, env, name, Integer(1))))
    ensures Assign(Out(Integer(1), st), env, name, "-=") == Out(Integer(-1), st.(frames := Bind(st.frames, env, name, Integer(-1))))
    ensures Assign(Out(Integer(2), st), env, name, "*=") == Out(Integer(0), st.(frames := Bind(st.frames, env, name, Integer(0))))
  {
    assert Operators.Infix("+", Integer(0), Integer(1), st) == Out(Integer(1), st);
    assert Operators.Infix("-", Integer(0), Integer(1), st) == Out(Integer(-1), st);
    assert Operators.Infix("*", Integer(0), Integer(2), st) == Out(Integer(0), st);
  }

  // ---------------------------------------------------------------------
  // Loops

  /** `while` evaluates its condition before every round: a falsy one
      ends the loop with a null of its own and the body is not run; after
      a truthy one the body runs, and a break, return value or error from
      it ends the loop as its result, while any other result, a continue
      included, starts the whole statement again from the state the body
      left. */
  lemma WhileRounds(tok: Token.Token, c: Expression, b: Block, env: nat, st: State, lib: Library, fuel: nat)
    ensures var cond := EvalExpr(c, env, st, lib, fuel);
      var w := EvalStmt(WhileStatement(tok, c, b), env, st, lib, fuel);
      (cond.Out? && cond.value.Error? ==> w == cond) &&
      (cond.Out? && !cond.value.Error? && !IsTruthy(cond.value) ==> w == NewNull(cond.st)) &&
      (cond.Out? && !cond.value.Error? && IsTruthy(cond.value) ==>
        var r := EvalBlock(b, env, cond.st, lib, fuel);
        (r.Out? && (r.value.Break? || r.value.ReturnValue? || r.value.Error?) ==> w == r) &&
        (r.Out? && r.value.Nil? ==> w == Stop(Crash)) &&
        (r.Out? && !r.value.Break? && !r.value.ReturnValue? && !r.value.Error? && !r.value.Nil? ==>
          w == if fuel == 0 then Stop(OutOfFuel) else EvalStmt(WhileStatement(tok, c, b), env, r.st, lib, fuel - 1)))
  {
  }

  /** Round i of a `for` over a string or an array binds the counter to
      the index i and the element name to the i-th object, in the loop's
      own environment. */
  lemma ForBindsElement(st: State, env: nat, counter: string, element: string, v: Object, i: nat)
    requires ValidEnv(st, env) && counter != element && i <= MAX_INT64
    ensures var r := BindItem(st, env, counter, element, Element(v), i);
      r.Out? && r.value == v && ValidEnv(r.st, env) && r.st.heap == st.heap &&
      Resolve(r.st.frames, env, counter) == Some(Integer(i)) && Resolve(r.st.frames, env, element) == Some(v)
  {
    var fs1 := Bind(st.frames, env, counter, Integer(i));
    ResolveBind(fs1, env, element, v, counter);
    ResolveBind(fs1, env, element, v, element);
    ResolveBind(st.frames, env, counter, Integer(i), counter);
  }

  /** Round i of a `for` over a map binds the counter to the printed key
      and the element name to the printed value, both as strings. */
  lemma ForBindsEntry(st: State, env: nat, counter: string, element: string, k: Object, v: Object, i: nat)
    requires ValidEnv(st, env) && counter != element && TextOf(st, k).Done? && TextOf(st, v).Done?
    ensures var r := BindItem(st, env, counter, element, Entry(k, v), i);
      r.Out? && ValidEnv(r.st, env) && r.st.heap == st.heap &&
      Resolve(r.st.frames, env, counter) == Some(Str(TextOf(st, k).value)) &&
      Resolve(r.st.frames, env, element) == Some(Str(TextOf(st, v).value))
  {
    var fs1 := Bind(st.frames, env, counter, Str(TextOf(st, k).value));
    ResolveBind(fs1, env, element, Str(TextOf(st, v).value), counter);
    ResolveBind(fs1, env, element, Str(TextOf(st, v).value), element);
    ResolveBind(st.frames, env, counter, Str(TextOf(st, k).value), counter);
  }

  /** After the last round a `for` gives a null of its own; a continue
      from the body, or any plain result, goes on to the next round; a
      break, return value or error ends the loop as its result. */
  lemma ForRounds(counter: string, element: string, items: seq<ForItem>, i: nat, b: Block,
                  env: nat, st: State, lib: Library, fuel: nat)
    ensures i >= |items| ==> ForLoop(counter, element, items, i, b, env, st, lib, fuel) == NewNull(st)
    ensures i < |items| ==>
      var bound := BindItem(st, env, counter, element, items[i], i);
      var l := ForLoop(counter, element, items, i, b, env, st, lib, fuel);
      (bound.Out? && bound.value.Error? ==> l == bound) &&
      (bound.Out? && !bound.value.Error? ==>
        var r := EvalBlock(b, env, bound.st, lib, fuel);
        (r.Out? && (r.value.Break? || r.value.ReturnValue? || r.value.Error?) ==> l == r) &&
        (r.Out? && !r.value.Break? && !r.value.ReturnValue? && !r.value.Error? && !r.value.Nil? ==>
          l == ForLoop(counter, element, items, i + 1, b, env, r.st, lib, fuel)))
  {
  }

  // ---------------------------------------------------------------------
  // Programs of the evaluator's tests

  const NoToken := Token.Token(Token.ILLEGAL, "")

  function Name(n: string): Identifier {
    Identifier(Token.Token(Token.IDENT, n), n)
  }

  function Int(v: Int64): Expression {
    IntegerLiteral(Token.Token(Token.INT, IntString(v)), v)
  }

  function Let(n: string, e: Expression): Statement {
    LetStatement(Token.Token(Token.LET, "let"), Name(n), Some(e))
  }

  function Expr(e: Expression): Statement {
    ExpressionStatement(NoToken, Some(e))
  }

  /** A state with one empty global environment. */
  const Start := State([], [Frame(map[], None)], 0)

  const CountCondition := Infix(NoToken, Ident(Name("i")), "<", Int(3))
  const CountBody := Block(NoToken, [Expr(Postfix(Token.Token(Token.IDENT, "i"), "++"))])

  /** The state while i holds k. */
  function Counting(k: Int64): State {
    Start.(frames := [Frame(map["i" := Integer(k)], None)])
  }

  lemma CountConditionAt(k: Int64, lib: Library, fuel: nat)
    ensures EvalExpr(CountCondition, 0, Counting(k), lib, fuel) == Out(NativeBool(k < 3), Counting(k))
  {
    assert EvalExpr(Ident(Name("i")), 0, Counting(k), lib, fuel) == Out(Integer(k), Counting(k));
  }

  lemma CountBodyAt(k: Int64, lib: Library, fuel: nat)
    requires k < 3
    ensures EvalBlock(CountBody, 0, Counting(k), lib, fuel) == Out(Integer(k + 1), Counting(k + 1))
  {
    var s := Expr(Postfix(Token.Token(Token.IDENT, "i"), "++"));
    assert GetVar(Counting(k), 0, "i") == Done(Some(Integer(k)));
    assert Step("++", Integer(k)) == Integer(k + 1);
    assert map["i" := Integer(k)]["i" := Integer(k + 1)] == map["i" := Integer(k + 1)];
    assert Bind(Counting(k).frames, 0, "i", Integer(k + 1)) == Counting(k + 1).frames;
    assert EvalStmt(s, 0, Counting(k), lib, fuel) == Out(Integer(k + 1), Counting(k + 1));
    assert CountBody.statements == [s] && [s][1..] == [];
    assert EvalStmts([s], Nil, 0, Counting(k), lib, fuel) == EvalStmts([], Integer(k + 1), 0, Counting(k + 1), lib, fuel);
  }

  /** One round of the counting loop. */
  lemma CountRound(k: Int64, lib: Library, fuel: nat)
    requires k < 3 && fuel > 0
    ensures WhileLoop(CountCondition, CountBody, 0, Counting(k), lib, fuel) ==
      WhileLoop(CountCondition, CountBody, 0, Counting(k + 1), lib, fuel - 1)
  {
    CountConditionAt(k, lib, fuel);
    CountBodyAt(k, lib, fuel);
  }

  /** The loop runs three rounds, from i = 0 to i = 3, and ends. */
  lemma CountLoop(lib: Library)
    ensures EvalStmt(WhileStatement(NoToken, CountCondition, CountBody), 0, Counting(0), lib, 5) ==
      Out(Null(Fresh(0)), Counting(3).(next := 1))
  {
    CountFrom(0, lib, 5);
  }

  /** From i = k on, the loop runs 3 - k rounds and ends. */
  lemma CountFrom(k: Int64, lib: Library, fuel: nat)
    requires 0 <= k <= 3 && fuel >= 3 - k
    ensures WhileLoop(CountCondition, CountBody, 0, Counting(k), lib, fuel) == Out(Null(Fresh(0)), Counting(3).(next := 1))
  {
    var loop := (j: Int64, f: nat) => WhileLoop(CountCondition, CountBody, 0, Counting(j), lib, f);
    forall j: Int64, f: nat | 0 <= j < 3 && f > 0 ensures loop(j, f) == loop(j + 1, f - 1) {
      CountRound(j, lib, f);
    }
    forall f: nat ensures loop(3, f) == Out(Null(Fresh(0)), Counting(3).(next := 1)) {
      CountEnd(lib, f);
    }
    Rounds(loop, 3, k, fuel, Out(Null(Fresh(0)), Counting(3).(next := 1)));
  }

  /** A loop whose round takes the counter from j to j + 1, for every j
      below n, and that ends at n, ends at n from any k <= n given fuel
      for n - k rounds. */
  lemma {:induction false} Rounds(loop: (Int64, nat) -> Outcome<Object>, n: Int64, k: Int64, fuel: nat, last: Outcome<Object>)
    requires 0 <= k <= n && fuel >= n - k
    requires forall j: Int64, f: nat :: 0 <= j < n && f > 0 ==> loop(j, f) == loop(j + 1, f - 1)
    requires forall f: nat :: loop(n, f) == last
    ensures loop(k, fuel) == last
    decreases n - k
  {
    if k < n {
      Rounds(loop, n, k + 1, fuel - 1, last);
    }
  }

  lemma CountEnd(lib: Library, fuel: nat)
    ensures WhileLoop(CountCondition, CountBody, 0, Counting(3), lib, fuel) == Out(Null(Fresh(0)), Counting(3).(next := 1))
  {
    CountConditionAt(3, lib, fuel);
  }

  lemma CountStart(lib: Library, fuel: nat)
    ensures EvalStmt(Let("i", Int(0)), 0, Start, lib, fuel) == Out(Integer(0), Counting(0))
  {
    assert Bind(Start.frames, 0, "i", Integer(0)) == Counting(0).frames;
  }

  /** `let i = 0; while (i < 3) { i++ }; i` gives 3
      (sonar-lang/evaluator/evaluator_test.go). */
  lemma WhileCountsToThree(lib: Library)
    ensures var p := [Let("i", Int(0)), WhileStatement(NoToken, CountCondition, CountBody), Expr(Ident(Name("i")))];
      var r := EvalProgram(p, 0, Start, lib, 5);
      r.Out? && r.value == Integer(3)
  {
    var s := [Let("i", Int(0)), WhileStatement(NoToken, CountCondition, CountBody), Expr(Ident(Name("i")))];
    var done := Counting(3).(next := 1);
    CountStart(lib, 5);
    CountLoop(lib);
    assert GetVar(done, 0, "i") == Done(Some(Integer(3)));
    assert ProgramFrom(s[2..], Null(Fresh(0)), 0, done, lib, 5) == Out(Integer(3), done);
    assert s[1..][1..] == s[2..];
    assert ProgramFrom(s[1..], Integer(0), 0, Counting(0), lib, 5) == Out(Integer(3), done);
  }

  /** `9; return 2 * 5; 9;` gives 10: the statement after the return is
      not evaluated (sonar-lang/evaluator/evaluator_test.go). */
  lemma ReturnEndsProgram(lib: Library, fuel: nat)
    ensures var p := [Expr(Int(9)), ReturnStatement(NoToken, Some(Infix(NoToken, Int(2), "*", Int(5)))), Expr(Int(9))];
      EvalProgram(p, 0, Start, lib, fuel) == Out(Integer(10), Start.(next := 1))
  {
    var p := [Expr(Int(9)), ReturnStatement(NoToken, Some(Infix(NoToken, Int(2), "*", Int(5)))), Expr(Int(9))];
    assert EvalStmt(p[0], 0, Start, lib, fuel) == Out(Integer(9), Start);
    assert Wrap64(2 * 5) == 10;
    assert Operators.Infix("*", Integer(2), Integer(5), Start) == Out(Integer(10), Start);
    assert EvalExpr(Int(2), 0, Start, lib, fuel) == Out(Integer(2), Start);
    assert EvalExpr(Int(5), 0, Start, lib, fuel) == Out(Integer(5), Start);
    assert EvalExpr(Infix(NoToken, Int(2), "*", Int(5)), 0, Start, lib, fuel) == Out(Integer(10), Start);
    assert EvalStmt(p[1], 0, Start, lib, fuel) == Out(ReturnValue(Integer(10), 0), Start.(next := 1));
    assert p[1..][0] == p[1];
    assert ProgramFrom(p[1..], Integer(9), 0, Start, lib, fuel) == Out(Integer(10), Start.(next := 1));
  }

  const Adder := FunctionLiteral(NoToken, [Name("x")],
    Block(NoToken, [ReturnStatement(NoToken, Some(Ident(Name("x")))),
                    Expr(Infix(NoToken, Ident(Name("x")), "+", Int(10)))]))

  /** The state once `f` holds the function. */
  function Defined(): State {
    State([], [Frame(map["f" := Function(Adder.parameters, Adder.body, 0, 0)], None)], 1)
  }

  lemma DefineAdder(lib: Library, fuel: nat)
    ensures EvalStmt(Let("f", Adder), 0, Start, lib, fuel) == Out(Function(Adder.parameters, Adder.body, 0, 0), Defined())
  {
    assert Bind(Start.frames, 0, "f", Function(Adder.parameters, Adder.body, 0, 0)) == Defined().frames;
  }

  /** The call runs the body in a new environment enclosing the global
      one, where x is the argument; the return value is unwrapped. */
  lemma CallAdder(lib: Library, fuel: nat)
    requires fuel > 0
    ensures var r := EvalExpr(Call(NoToken, Ident(Name("f")), [Int(10)]), 0, Defined(), lib, fuel);
      r.Out? && r.value == Integer(10)
  {
    var fn := Function(Adder.parameters, Adder.body, 0, 0);
    var st := Defined();
    assert EvalExpr(Ident(Name("f")), 0, st, lib, fuel) == Out(fn, st);
    assert EvalExprs([Int(10)], [], 0, st, lib, fuel) == Out([Integer(10)], st) by {
      assert [Int(10)][1..] == [];
      assert [] + [Integer(10)] == [Integer(10)];
    }
    var (fs, e) := Enclosed(st.frames, 0);
    var inner := BindParameters(st.(frames := fs), e, fn.parameters, [Integer(10)], 0);
    assert inner.frames == st.frames + [Frame(map["x" := Integer(10)], Some(0))];
    assert GetVar(inner, 1, "x") == Done(Some(Integer(10)));
    var ret := ReturnStatement(NoToken, Some(Ident(Name("x"))));
    assert EvalStmt(ret, 1, inner, lib, fuel - 1) == Out(ReturnValue(Integer(10), 1), inner.(next := 2));
    assert EvalBlock(fn.body, 1, inner, lib, fuel - 1) == Out(ReturnValue(Integer(10), 1), inner.(next := 2));
  }

  /** `let f = func(x) { return x; x + 10; }; f(10);` gives 10
      (sonar-lang/evaluator/evaluator_test.go). */
  lemma FunctionReturns(lib: Library, fuel: nat)
    requires fuel > 0
    ensures var p := [Let("f", Adder), Expr(Call(NoToken, Ident(Name("f")), [Int(10)]))];
      var r := EvalProgram(p, 0, Start, lib, fuel);
      r.Out? && r.value == Integer(10)
  {
    var p := [Let("f", Adder), Expr(Call(NoToken, Ident(Name("f")), [Int(10)]))];
    var call := Call(NoToken, Ident(Name("f")), [Int(10)]);
    DefineAdder(lib, fuel);
    CallAdder(lib, fuel);
    var r := EvalExpr(call, 0, Defined(), lib, fuel);
    assert p[1..] == [Expr(call)];
    assert EvalStmt(Expr(call), 0, Defined(), lib, fuel) == r;
    assert ProgramFrom([Expr(call)], Function(Adder.parameters, Adder.body, 0, 0), 0, Defined(), lib, fuel) == Out(Integer(10), r.st) by {
      assert [Expr(call)][1..] == [];
    }
  }

  /** `while (true) { break }` ends with the BREAK object itself, which the
      loop passes on: a block holding the loop stops there as at a
      `break` of its own, while a program goes on with its next
      statement. */
  lemma BreakLeavesLoop(tok: Token.Token, post: seq<Statement>, env: nat, st: State, lib: Library, fuel: nat)
    ensures var loop := WhileStatement(tok, BooleanLiteral(tok, true), Block(tok, [BreakStatement(tok)]));
      EvalStmt(loop, env, st, lib, fuel) == Out(Break, st) &&
      EvalBlock(Block(tok, [loop] + post), env, st, lib, fuel) == Out(Break, st) &&
      EvalProgram([loop] + post, env, st, lib, fuel) == ProgramFrom(post, Break, env, st, lib, fuel)
  {
    var loop := WhileStatement(tok, BooleanLiteral(tok, true), Block(tok, [BreakStatement(tok)]));
    assert EvalStmt(BreakStatement(tok), env, st, lib, fuel) == Out(Break, st);
    assert EvalStmts([BreakStatement(tok)], Nil, env, st, lib, fuel) == Out(Break, st);
    assert EvalBlock(Block(tok, [BreakStatement(tok)]), env, st, lib, fuel) == Out(Break, st);
    assert EvalExpr(BooleanLiteral(tok, true), env, st, lib, fuel) == Out(TRUE, st);
    assert EvalStmt(loop, env, st, lib, fuel) == Out(Break, st);
    BlockStopsAtFirstSignal(tok, [], loop, post, env, st, lib, fuel);
    assert [] + [loop] + post == [loop] + post;
    assert ([loop] + post)[1..] == post;
  }

  /** Every `null` literal is a fresh Null object, not the shared NULL that
      `isTruthy` tests for, so it counts as true: `if (null) { t } else
      { a }` takes t. */
  lemma NullLiteralIsTruthy(tok: Token.Token, t: Block, a: Option<Block>, env: nat, st: State, lib: Library, fuel: nat)
    ensures EvalExpr(If(tok, NullValue, t, a), env, st, lib, fuel) == EvalBlock(t, env, st.(next := st.next + 1), lib, fuel)
    ensures !IsTruthy(NULL)
  {
  }

  /** `evalIdentifier`: a name bound in the environment chain wins over a
      builtin of that name; a builtin is found next; any other name is an
      error. */
  lemma IdentifierLookup(tok: Token.Token, n: string, env: nat, st: State, lib: Library, fuel: nat)
    requires ValidEnv(st, env)
    ensures var r := EvalExpr(Ident(Identifier(tok, n)), env, st, lib, fuel);
      var v := Resolve(st.frames, env, n);
      (v.Some? ==> r == Out(v.value, st)) &&
      (v.None? && n in lib ==> r == Out(lib[n], st)) &&
      (v.None? && n !in lib ==> r == Out(Error(IdentifierNotDefined), st))
  {
  }
}
