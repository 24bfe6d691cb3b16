/** The syntax tree and its printer (sonar-lang/ast/ast.go).

    Expressions, statements and blocks are mutually recursive datatypes.
    Go's optional children (a nil `Value`, `ReturnValue`, `Expression` or
    `Alternative`) are `Option`s.  The pairs of a hash literal, a Go map
    keyed by node pointers, are a sequence.  `String` of an assignment and
    of a square-bracket assignment writes to a nil buffer and panics: the
    printer is defined for `Printable` trees, those without such nodes. */
module Ast {
  import opened Basics
  import opened Token

  datatype Identifier = Identifier(tok: Token, value: string)

  datatype Statement =
    | LetStatement(tok: Token, name: Identifier, value: Option<Expression>)
    | ReturnStatement(tok: Token, returnValue: Option<Expression>)
    | ExpressionStatement(tok: Token, expression: Option<Expression>)
    | BlockStatement(block: Block)
    | WhileStatement(tok: Token, condition: Expression, consequence: Block)
    | ForStatement(tok: Token, counter: Identifier, element: Identifier, operator: Token,
                   iterable: Expression, consequence: Block)
    | BreakStatement(tok: Token)
    | ContinueStatement(tok: Token)

  datatype Block = Block(tok: Token, statements: seq<Statement>)

  datatype Pair = Pair(key: Expression, value: Expression)

  datatype Expression =
    | Ident(id: Identifier)
    | BooleanLiteral(tok: Token, boolValue: bool)
    | IntegerLiteral(tok: Token, intValue: Int64)
    | FloatLiteral(tok: Token)
    | Prefix(tok: Token, operator: string, right: Expression)
    | Infix(tok: Token, left: Expression, operator: string, right: Expression)
    | Postfix(tok: Token, operator: string)
    | If(tok: Token, condition: Expression, consequence: Block, alternative: Option<Block>)
    | FunctionLiteral(tok: Token, parameters: seq<Identifier>, body: Block)
    | Call(tok: Token, callee: Expression, arguments: seq<Expression>)
    | StringLiteral(tok: Token, strValue: string)
    | ArrayLiteral(tok: Token, elements: seq<Expression>)
    | Index(tok: Token, left: Expression, index: Expression)
    | HashLiteral(tok: Token, pairs: seq<Pair>)
    | Assignment(tok: Token, identifier: Identifier, newValue: Expression, operator: string)
    | SquareBracketAssignment(tok: Token, value: Expression, key: Expression, left: Expression)
    | NullValue

  type Program = seq<Statement>

  // ---------------------------------------------------------------------
  // Sizes, the termination measure of every recursion over the tree

  function ExprSize(e: Expression): nat {
    match e
    case Prefix(_, _, r) => 1 + ExprSize(r)
    case Infix(_, l, _, r) => 1 + ExprSize(l) + ExprSize(r)
    case If(_, c, t, a) => 1 + ExprSize(c) + BlockSize(t) + (if a.Some? then BlockSize(a.value) else 0)
    case FunctionLiteral(_, _, b) => 1 + BlockSize(b)
    case Call(_, f, args) => 1 + ExprSize(f) + ExprsSize(args)
    case ArrayLiteral(_, es) => 1 + ExprsSize(es)
    case Index(_, l, i) => 1 + ExprSize(l) + ExprSize(i)
    case HashLiteral(_, ps) => 1 + PairsSize(ps)
    case Assignment(_, _, v, _) => 1 + ExprSize(v)
    case SquareBracketAssignment(_, v, k, l) => 1 + ExprSize(v) + ExprSize(k) + ExprSize(l)
    case _ => 1
  }

  function ExprsSize(es: seq<Expression>): nat {
    if |es| == 0 then 0 else 1 + ExprSize(es[0]) + ExprsSize(es[1..])
  }

  function PairSize(p: Pair): nat {
    1 + ExprSize(p.key) + ExprSize(p.value)
  }

  function PairsSize(ps: seq<Pair>): nat {
    if |ps| == 0 then 0 else 1 + PairSize(ps[0]) + PairsSize(ps[1..])
  }

  function StmtSize(s: Statement): nat {
    match s
    case LetStatement(_, _, v) => 1 + (if v.Some? then ExprSize(v.value) else 0)
    case ReturnStatement(_, v) => 1 + (if v.Some? then ExprSize(v.value) else 0)
    case ExpressionStatement(_, e) => 1 + (if e.Some? then ExprSize(e.value) else 0)
    case BlockStatement(b) => 1 + BlockSize(b)
    case WhileStatement(_, c, b) => 1 + ExprSize(c) + BlockSize(b)
    case ForStatement(_, _, _, _, it, b) => 1 + ExprSize(it) + BlockSize(b)
    case _ => 1
  }

  function StmtsSize(ss: seq<Statement>): nat {
    if |ss| == 0 then 0 else 1 + StmtSize(ss[0]) + StmtsSize(ss[1..])
  }

  function BlockSize(b: Block): nat {
    1 + StmtsSize(b.statements)
  }

  // ---------------------------------------------------------------------
  // TokenLiteral

  function StmtTokenLiteral(s: Statement): string {
    match s
    case LetStatement(t, _, _) => t.literal
    case ReturnStatement(t, _) => t.literal
    case ExpressionStatement(t, _) => t.literal
    case BlockStatement(b) => b.tok.literal
    case WhileStatement(t, _, _) => t.literal
    case ForStatement(t, _, _, _, _, _) => t.literal
    case BreakStatement(t) => t.literal
    case ContinueStatement(t) => t.literal
  }

  function ExprTokenLiteral(e: Expression): string {
    match e
    case Ident(id) => id.tok.literal
    case NullValue => "null"
    case _ => e.tok.literal
  }

  /** `Program.TokenLiteral`: the first statement's, or "" for an empty program. */
  function ProgramTokenLiteral(p: Program): (r: string)
    ensures |p| > 0 ==> r == StmtTokenLiteral(p[0])
    ensures |p| == 0 ==> r == ""
  {
    if |p| > 0 then StmtTokenLiteral(p[0]) else ""
  }

  /** The literal of a program is decided by its first statement: what
      follows never changes it, and an empty program takes it from what
      comes after. */
  lemma ProgramTokenLiteralAppend(p: Program, q: Program)
    ensures |p| > 0 ==> ProgramTokenLiteral(p + q) == ProgramTokenLiteral(p)
    ensures |p| == 0 ==> ProgramTokenLiteral(p + q) == ProgramTokenLiteral(q)
  {
    if |p| == 0 { assert p + q == q; }
  }

  // ---------------------------------------------------------------------
  // String

  /** No node whose String panics: neither an assignment nor a
      square-bracket assignment occurs anywhere in the tree. */
  predicate Printable(e: Expression) decreases ExprSize(e) {
    match e
    case Prefix(_, _, r) => Printable(r)
    case Infix(_, l, _, r) => Printable(l) && Printable(r)
    case If(_, c, t, a) => Printable(c) && BlockPrintable(t) && (a.Some? ==> BlockPrintable(a.value))
    case FunctionLiteral(_, _, b) => BlockPrintable(b)
    case Call(_, f, args) => Printable(f) && AllPrintable(args)
    case ArrayLiteral(_, es) => AllPrintable(es)
    case Index(_, l, i) => Printable(l) && Printable(i)
    case HashLiteral(_, ps) => PairsPrintable(ps)
    case Assignment(_, _, _, _) => false
    case SquareBracketAssignment(_, _, _, _) => false
    case _ => true
  }

  predicate AllPrintable(es: seq<Expression>) decreases ExprsSize(es) {
    |es| > 0 ==> Printable(es[0]) && AllPrintable(es[1..])
  }

  predicate PairPrintable(p: Pair) decreases PairSize(p) {
    Printable(p.key) && Printable(p.value)
  }

  predicate PairsPrintable(ps: seq<Pair>) decreases PairsSize(ps) {
    |ps| > 0 ==> PairPrintable(ps[0]) && PairsPrintable(ps[1..])
  }

  predicate StmtPrintable(s: Statement) decreases StmtSize(s) {
    match s
    case LetStatement(_, _, v) => v.Some? ==> Printable(v.value)
    case ReturnStatement(_, v) => v.Some? ==> Printable(v.value)
    case ExpressionStatement(_, e) => e.Some? ==> Printable(e.value)
    case BlockStatement(b) => BlockPrintable(b)
    case WhileStatement(_, c, b) => Printable(c) && BlockPrintable(b)
    case ForStatement(_, _, _, _, it, b) => Printable(it) && BlockPrintable(b)
    case _ => true
  }

  predicate StmtsPrintable(ss: seq<Statement>) decreases StmtsSize(ss) {
    |ss| > 0 ==> StmtPrintable(ss[0]) && StmtsPrintable(ss[1..])
  }

  predicate BlockPrintable(b: Block) decreases BlockSize(b) {
    StmtsPrintable(b.statements)
  }

  function ExprString(e: Expression): (r: string)
    requires Printable(e)
    ensures e.Prefix? || e.Infix? || e.Postfix? || e.Index? ==> |r| >= 2 && r[0] == '(' && r[|r| - 1] == ')'
    ensures e.ArrayLiteral? ==> |r| >= 2 && r[0] == '[' && r[|r| - 1] == ']'
    ensures e.HashLiteral? ==> |r| >= 2 && r[0] == '{' && r[|r| - 1] == '}'
    decreases ExprSize(e)
  {
    match e
    case Ident(id) => id.value
    case BooleanLiteral(t, _) => t.literal
    case IntegerLiteral(t, _) => t.literal
    case FloatLiteral(t) => t.literal
    case StringLiteral(t, _) => t.literal
    case Prefix(_, op, r) => "(" + op + ExprString(r) + ")"
    case Infix(_, l, op, r) => "(" + ExprString(l) + " " + op + " " + ExprString(r) + ")"
    case Postfix(t, op) => "(" + t.literal + op + ")"
    case If(_, c, t, a) =>
      "if" + ExprString(c) + " " + BlockString(t) + (if a.Some? then "else " + BlockString(a.value) else "")
    case FunctionLiteral(t, ps, b) => t.literal + "(" + Join(IdentStrings(ps), ", ") + ") " + BlockString(b)
    case Call(_, f, args) => ExprString(f) + "(" + Join(ExprStrings(args), ", ") + ")"
    case ArrayLiteral(_, es) => "[" + Join(ExprStrings(es), ", ") + "]"
    case Index(_, l, i) => "(" + ExprString(l) + "[" + ExprString(i) + "])"
    case HashLiteral(_, ps) => "{" + Join(PairStrings(ps), ", ") + "}"
    case NullValue => "null"
  }

  function IdentStrings(ps: seq<Identifier>): (r: seq<string>)
    ensures |r| == |ps| && forall i :: 0 <= i < |ps| ==> r[i] == ps[i].value
  {
    seq(|ps|, i requires 0 <= i < |ps| => ps[i].value)
  }

  function ExprStrings(es: seq<Expression>): (r: seq<string>)
    requires AllPrintable(es)
    ensures |r| == |es|
    decreases ExprsSize(es)
  {
    if |es| == 0 then [] else [ExprString(es[0])] + ExprStrings(es[1..])
  }

  function PairStrings(ps: seq<Pair>): (r: seq<string>)
    requires PairsPrintable(ps)
    ensures |r| == |ps|
    decreases PairsSize(ps)
  {
    if |ps| == 0 then [] else [PairString(ps[0])] + PairStrings(ps[1..])
  }

  function PairString(p: Pair): string
    requires PairPrintable(p)
    decreases PairSize(p)
  {
    ExprString(p.key) + ":" + ExprString(p.value)
  }

  function StmtString(s: Statement): (r: string)
    requires StmtPrintable(s)
    ensures s.LetStatement? || s.ReturnStatement? ==> |r| > 0 && r[|r| - 1] == ';'
    ensures s.WhileStatement? || s.ForStatement? ==> |r| > 0 && r[|r| - 1] == '}'
    decreases StmtSize(s)
  {
    match s
    case LetStatement(t, n, v) => t.literal + " " + n.value + " = " + (if v.Some? then ExprString(v.value) else "") + ";"
    case ReturnStatement(t, v) => t.literal + " " + (if v.Some? then ExprString(v.value) else "") + ";"
    case ExpressionStatement(_, e) => if e.Some? then ExprString(e.value) else ""
    case BlockStatement(b) => BlockString(b)
    case WhileStatement(t, c, b) => t.literal + " (" + ExprString(c) + " ) {" + BlockString(b) + "}"
    case ForStatement(t, k, v, _, it, b) =>
      t.literal + " (" + k.value + ", " + v.value + " in " + ExprString(it) + " ) {" + BlockString(b) + "}"
    case BreakStatement(t) => t.literal
    case ContinueStatement(t) => t.literal
  }

  function StmtsString(ss: seq<Statement>): string
    requires StmtsPrintable(ss)
    decreases StmtsSize(ss)
  {
    if |ss| == 0 then "" else StmtString(ss[0]) + StmtsString(ss[1..])
  }

  function BlockString(b: Block): string
    requires BlockPrintable(b)
    decreases BlockSize(b)
  {
    StmtsString(b.statements)
  }

  /** `Program.String`: the statements' texts one after the other. */
  function ProgramString(p: Program): string
    requires StmtsPrintable(p)
  {
    StmtsString(p)
  }

  // ---------------------------------------------------------------------
  // Properties of the printer

  lemma {:induction false} StmtsPrintableAppend(a: seq<Statement>, b: seq<Statement>)
    ensures StmtsPrintable(a + b) <==> StmtsPrintable(a) && StmtsPrintable(b)
    decreases |a|
  {
    if |a| > 0 {
      assert (a + b)[1..] == a[1..] + b;
      StmtsPrintableAppend(a[1..], b);
    } else {
      assert a + b == b;
    }
  }

  /** Printing a program is printing its statements one after the other:
      the text of two programs run together is the two texts concatenated. */
  lemma {:induction false} ProgramStringAppend(a: Program, b: Program)
    requires StmtsPrintable(a) && StmtsPrintable(b)
    ensures StmtsPrintable(a + b) && ProgramString(a + b) == ProgramString(a) + ProgramString(b)
    decreases |a|
  {
    StmtsPrintableAppend(a, b);
    if |a| > 0 {
      assert (a + b)[1..] == a[1..] + b;
      ProgramStringAppend(a[1..], b);
    } else {
      assert a + b == b;
    }
  }

  /** The number of occurrences of c in s. */
  function Occurrences(s: string, c: char): nat decreases |s| {
    if |s| == 0 then 0 else (if s[0] == c then 1 else 0) + Occurrences(s[1..], c)
  }

  lemma {:induction false} OccurrencesAppend(a: string, b: string, c: char)
    ensures Occurrences(a + b, c) == Occurrences(a, c) + Occurrences(b, c)
    decreases |a|
  {
    if |a| > 0 {
      assert (a + b)[1..] == a[1..] + b;
      OccurrencesAppend(a[1..], b, c);
    } else {
      assert a + b == b;
    }
  }

  /** Parentheses of a concatenation are those of its two parts. */
  lemma Split(a: string, b: string)
    ensures Occurrences(a + b, '(') == Occurrences(a, '(') + Occurrences(b, '(')
    ensures Occurrences(a + b, ')') == Occurrences(a, ')') + Occurrences(b, ')')
  {
    OccurrencesAppend(a, b, '(');
    OccurrencesAppend(a, b, ')');
  }

  /** The punctuation the printer wraps around subtrees. */
  lemma PunctuationCounts()
    ensures Occurrences("(", '(') == 1 && Occurrences("(", ')') == 0
    ensures Occurrences(")", '(') == 0 && Occurrences(")", ')') == 1
    ensures Occurrences("])", '(') == 0 && Occurrences("])", ')') == 1
    ensures Occurrences(") ", '(') == 0 && Occurrences(") ", ')') == 1
    ensures Occurrences(" (", '(') == 1 && Occurrences(" (", ')') == 0
    ensures Occurrences(" ) {", '(') == 0 && Occurrences(" ) {", ')') == 1
  {
    assert "])"[1..] == ")";
    assert ") "[1..] == " ";
    assert " ("[1..] == "(";
    assert " ) {"[1..] == ") {";
    assert ") {"[1..] == " {";
    assert " {"[1..] == "{";
  }

  /** Texts with as many opening as closing parentheses. */
  predicate ParensBalanced(s: string) {
    Occurrences(s, '(') == Occurrences(s, ')')
  }

  /** Every text the tree brings in from its tokens and names (literals,
      identifiers, operators) is free of parentheses. */
  predicate ParenFree(s: string) {
    forall i :: 0 <= i < |s| ==> s[i] != '(' && s[i] != ')'
  }

  lemma {:induction false} Bal(s: string)
    requires ParenFree(s)
    ensures Occurrences(s, '(') == 0 && Occurrences(s, ')') == 0
    decreases |s|
  {
    if |s| > 0 { Bal(s[1..]); }
  }

  lemma {:induction false} JoinBalanced(xs: seq<string>, sep: string)
    requires ParenFree(sep)
    requires forall i :: 0 <= i < |xs| ==> ParensBalanced(xs[i])
    ensures ParensBalanced(Join(xs, sep))
    decreases |xs|
  {
    if |xs| > 1 {
      JoinBalanced(xs[1..], sep);
      Bal(sep);
      Split(xs[0] + sep, Join(xs[1..], sep));
      Split(xs[0], sep);
    }
  }

  predicate PlainLeaves(e: Expression) decreases ExprSize(e) {
    match e
    case Ident(id) => ParenFree(id.value)
    case BooleanLiteral(t, _) => ParenFree(t.literal)
    case IntegerLiteral(t, _) => ParenFree(t.literal)
    case FloatLiteral(t) => ParenFree(t.literal)
    case StringLiteral(t, _) => ParenFree(t.literal)
    case Prefix(_, op, r) => ParenFree(op) && PlainLeaves(r)
    case Infix(_, l, op, r) => ParenFree(op) && PlainLeaves(l) && PlainLeaves(r)
    case Postfix(t, op) => ParenFree(t.literal) && ParenFree(op)
    case If(_, c, t, a) => PlainLeaves(c) && BlockPlainLeaves(t) && (a.Some? ==> BlockPlainLeaves(a.value))
    case FunctionLiteral(t, ps, b) =>
      ParenFree(t.literal) && (forall i :: 0 <= i < |ps| ==> ParenFree(ps[i].value)) && BlockPlainLeaves(b)
    case Call(_, f, args) => PlainLeaves(f) && AllPlainLeaves(args)
    case ArrayLiteral(_, es) => AllPlainLeaves(es)
    case Index(_, l, i) => PlainLeaves(l) && PlainLeaves(i)
    case HashLiteral(_, ps) => PairsPlainLeaves(ps)
    case _ => true
  }

  predicate AllPlainLeaves(es: seq<Expression>) decreases ExprsSize(es) {
    |es| > 0 ==> PlainLeaves(es[0]) && AllPlainLeaves(es[1..])
  }

  predicate PairPlainLeaves(p: Pair) decreases PairSize(p) {
    PlainLeaves(p.key) && PlainLeaves(p.value)
  }

  predicate PairsPlainLeaves(ps: seq<Pair>) decreases PairsSize(ps) {
    |ps| > 0 ==> PairPlainLeaves(ps[0]) && PairsPlainLeaves(ps[1..])
  }

  predicate StmtPlainLeaves(s: Statement) decreases StmtSize(s) {
    match s
    case LetStatement(t, n, v) => ParenFree(t.literal) && ParenFree(n.value) && (v.Some? ==> PlainLeaves(v.value))
    case ReturnStatement(t, v) => ParenFree(t.literal) && (v.Some? ==> PlainLeaves(v.value))
    case ExpressionStatement(_, e) => e.Some? ==> PlainLeaves(e.value)
    case BlockStatement(b) => BlockPlainLeaves(b)
    case WhileStatement(t, c, b) => ParenFree(t.literal) && PlainLeaves(c) && BlockPlainLeaves(b)
    case ForStatement(t, k, v, _, it, b) =>
      ParenFree(t.literal) && ParenFree(k.value) && ParenFree(v.value) && PlainLeaves(it) && BlockPlainLeaves(b)
    case BreakStatement(t) => ParenFree(t.literal)
    case ContinueStatement(t) => ParenFree(t.literal)
  }

  predicate StmtsPlainLeaves(ss: seq<Statement>) decreases StmtsSize(ss) {
    |ss| > 0 ==> StmtPlainLeaves(ss[0]) && StmtsPlainLeaves(ss[1..])
  }

  predicate BlockPlainLeaves(b: Block) decreases BlockSize(b) {
    StmtsPlainLeaves(b.statements)
  }

  // How each form of node text keeps its parentheses balanced

  lemma PrefixText(op: string, x: string)
    requires ParenFree(op) && ParensBalanced(x)
    ensures ParensBalanced("(" + op + x + ")")
  {
    PunctuationCounts(); Bal(op);
    Split("(", op); Split("(" + op, x); Split("(" + op + x, ")");
  }

  lemma InfixText(x: string, op: string, y: string)
    requires ParenFree(op) && ParensBalanced(x) && ParensBalanced(y)
    ensures ParensBalanced("(" + x + " " + op + " " + y + ")")
  {
    PunctuationCounts(); Bal(op); Bal(" ");
    Split("(", x); Split("(" + x, " "); Split("(" + x + " ", op); Split("(" + x + " " + op, " ");
    Split("(" + x + " " + op + " ", y); Split("(" + x + " " + op + " " + y, ")");
  }

  lemma PostfixText(lit: string, op: string)
    requires ParenFree(lit) && ParenFree(op)
    ensures ParensBalanced("(" + lit + op + ")")
  {
    PunctuationCounts(); Bal(lit); Bal(op);
    Split("(", lit); Split("(" + lit, op); Split("(" + lit + op, ")");
  }

  lemma IfText(x: string, y: string, z: string)
    requires ParensBalanced(x) && ParensBalanced(y) && ParensBalanced(z)
    ensures ParensBalanced("if" + x + " " + y + z)
  {
    Bal("if"); Bal(" ");
    Split("if", x); Split("if" + x, " "); Split("if" + x + " ", y); Split("if" + x + " " + y, z);
  }

  lemma ElseText(y: string)
    requires ParensBalanced(y)
    ensures ParensBalanced("else " + y)
  {
    Bal("else "); Split("else ", y);
  }

  lemma FunctionText(lit: string, j: string, y: string)
    requires ParenFree(lit) && ParensBalanced(j) && ParensBalanced(y)
    ensures ParensBalanced(lit + "(" + j + ") " + y)
  {
    PunctuationCounts(); Bal(lit);
    Split(lit, "("); Split(lit + "(", j); Split(lit + "(" + j, ") "); Split(lit + "(" + j + ") ", y);
  }

  lemma CallText(x: string, j: string)
    requires ParensBalanced(x) && ParensBalanced(j)
    ensures ParensBalanced(x + "(" + j + ")")
  {
    PunctuationCounts();
    Split(x, "("); Split(x + "(", j); Split(x + "(" + j, ")");
  }

  lemma EnclosedText(open: string, j: string, close: string)
    requires ParenFree(open) && ParensBalanced(j) && ParenFree(close)
    ensures ParensBalanced(open + j + close)
  {
    Bal(open); Bal(close);
    Split(open, j); Split(open + j, close);
  }

  lemma IndexText(x: string, y: string)
    requires ParensBalanced(x) && ParensBalanced(y)
    ensures ParensBalanced("(" + x + "[" + y + "])")
  {
    PunctuationCounts(); Bal("[");
    Split("(", x); Split("(" + x, "["); Split("(" + x + "[", y); Split("(" + x + "[" + y, "])");
  }

  lemma LetText(lit: string, name: string, x: string)
    requires ParenFree(lit) && ParenFree(name) && ParensBalanced(x)
    ensures ParensBalanced(lit + " " + name + " = " + x + ";")
  {
    Bal(lit); Bal(name); Bal(" "); Bal(" = "); Bal(";");
    Split(lit, " "); Split(lit + " ", name); Split(lit + " " + name, " = ");
    Split(lit + " " + name + " = ", x); Split(lit + " " + name + " = " + x, ";");
  }

  lemma ReturnText(lit: string, x: string)
    requires ParenFree(lit) && ParensBalanced(x)
    ensures ParensBalanced(lit + " " + x + ";")
  {
    Bal(lit); Bal(" "); Bal(";");
    Split(lit, " "); Split(lit + " ", x); Split(lit + " " + x, ";");
  }

  lemma WhileText(lit: string, x: string, y: string)
    requires ParenFree(lit) && ParensBalanced(x) && ParensBalanced(y)
    ensures ParensBalanced(lit + " (" + x + " ) {" + y + "}")
  {
    PunctuationCounts(); Bal(lit); Bal("}");
    Split(lit, " ("); Split(lit + " (", x); Split(lit + " (" + x, " ) {");
    Split(lit + " (" + x + " ) {", y); Split(lit + " (" + x + " ) {" + y, "}");
  }

  lemma ForText(lit: string, k: string, v: string, x: string, y: string)
    requires ParenFree(lit) && ParenFree(k) && ParenFree(v) && ParensBalanced(x) && ParensBalanced(y)
    ensures ParensBalanced(lit + " (" + k + ", " + v + " in " + x + " ) {" + y + "}")
  {
    var h := lit + " (" + k + ", " + v + " in ";
    PunctuationCounts(); Bal(lit); Bal(k); Bal(v); Bal(", "); Bal(" in "); Bal("}");
    Split(lit, " ("); Split(lit + " (", k); Split(lit + " (" + k, ", ");
    Split(lit + " (" + k + ", ", v); Split(lit + " (" + k + ", " + v, " in ");
    Split(h, x); Split(h + x, " ) {"); Split(h + x + " ) {", y); Split(h + x + " ) {" + y, "}");
  }

  /** The printer writes parentheses only in pairs: each prefix, infix,
      postfix and index expression is wrapped in one pair, and calls,
      function literals, while and for statements add one pair each. Given
      names and literals without parentheses, every printed tree has as many
      opening as closing parentheses. */
  lemma {:induction false} ExprStringBalanced(e: Expression)
    requires Printable(e) && PlainLeaves(e)
    ensures ParensBalanced(ExprString(e))
    decreases ExprSize(e)
  {
    match e
    case Ident(id) => Bal(id.value);
    case BooleanLiteral(t, _) => Bal(t.literal);
    case IntegerLiteral(t, _) => Bal(t.literal);
    case FloatLiteral(t) => Bal(t.literal);
    case StringLiteral(t, _) => Bal(t.literal);
    case Prefix(_, op, r) =>
      ExprStringBalanced(r);
      PrefixText(op, ExprString(r));
    case Infix(_, l, op, r) =>
      ExprStringBalanced(l); ExprStringBalanced(r);
      InfixText(ExprString(l), op, ExprString(r));
    case Postfix(t, op) => PostfixText(t.literal, op);
    case If(_, c, t, a) =>
      var z := if a.Some? then "else " + BlockString(a.value) else "";
      ExprStringBalanced(c); BlockStringBalanced(t);
      if a.Some? { BlockStringBalanced(a.value); ElseText(BlockString(a.value)); } else { Bal(""); }
      IfText(ExprString(c), BlockString(t), z);
    case FunctionLiteral(t, ps, b) =>
      var names := IdentStrings(ps);
      forall i | 0 <= i < |names| ensures ParensBalanced(names[i]) { Bal(ps[i].value); }
      JoinBalanced(names, ", ");
      BlockStringBalanced(b);
      FunctionText(t.literal, Join(names, ", "), BlockString(b));
    case Call(_, f, args) =>
      ExprStringBalanced(f);
      ExprStringsBalanced(args);
      JoinBalanced(ExprStrings(args), ", ");
      CallText(ExprString(f), Join(ExprStrings(args), ", "));
    case ArrayLiteral(_, es) =>
      ExprStringsBalanced(es);
      JoinBalanced(ExprStrings(es), ", ");
      EnclosedText("[", Join(ExprStrings(es), ", "), "]");
    case Index(_, l, i) =>
      ExprStringBalanced(l); ExprStringBalanced(i);
      IndexText(ExprString(l), ExprString(i));
    case HashLiteral(_, ps) =>
      PairStringsBalanced(ps);
      JoinBalanced(PairStrings(ps), ", ");
      EnclosedText("{", Join(PairStrings(ps), ", "), "}");
    case NullValue => Bal("null");
  }

  lemma {:induction false} ExprStringsBalanced(es: seq<Expression>)
    requires AllPrintable(es) && AllPlainLeaves(es)
    ensures forall i :: 0 <= i < |es| ==> ParensBalanced(ExprStrings(es)[i])
    decreases ExprsSize(es)
  {
    if |es| > 0 {
      ExprStringBalanced(es[0]);
      ExprStringsBalanced(es[1..]);
    }
  }

  lemma {:induction false} PairStringBalanced(p: Pair)
    requires PairPrintable(p) && PairPlainLeaves(p)
    ensures ParensBalanced(PairString(p))
    decreases PairSize(p)
  {
    var x, y := ExprString(p.key), ExprString(p.value);
    ExprStringBalanced(p.key);
    ExprStringBalanced(p.value);
    Bal(":");
    Split(x, ":"); Split(x + ":", y);
  }

  lemma {:induction false} PairStringsBalanced(ps: seq<Pair>)
    requires PairsPrintable(ps) && PairsPlainLeaves(ps)
    ensures forall i :: 0 <= i < |ps| ==> ParensBalanced(PairStrings(ps)[i])
    decreases PairsSize(ps)
  {
    if |ps| > 0 {
      PairStringBalanced(ps[0]);
      PairStringsBalanced(ps[1..]);
    }
  }

  lemma {:induction false} StmtStringBalanced(s: Statement)
    requires StmtPrintable(s) && StmtPlainLeaves(s)
    ensures ParensBalanced(StmtString(s))
    decreases StmtSize(s)
  {
    match s
    case LetStatement(t, n, v) =>
      if v.Some? { ExprStringBalanced(v.value); } else { Bal(""); }
      LetText(t.literal, n.value, if v.Some? then ExprString(v.value) else "");
    case ReturnStatement(t, v) =>
      if v.Some? { ExprStringBalanced(v.value); } else { Bal(""); }
      ReturnText(t.literal, if v.Some? then ExprString(v.value) else "");
    case ExpressionStatement(_, e) =>
      if e.Some? { ExprStringBalanced(e.value); } else { Bal(""); }
    case BlockStatement(b) => BlockStringBalanced(b);
    case WhileStatement(t, c, b) =>
      ExprStringBalanced(c); BlockStringBalanced(b);
      WhileText(t.literal, ExprString(c), BlockString(b));
    case ForStatement(t, k, v, _, it, b) =>
      ExprStringBalanced(it); BlockStringBalanced(b);
      ForText(t.literal, k.value, v.value, ExprString(it), BlockString(b));
    case BreakStatement(t) => Bal(t.literal);
    case ContinueStatement(t) => Bal(t.literal);
  }

  lemma {:induction false} StmtsStringBalanced(ss: seq<Statement>)
    requires StmtsPrintable(ss) && StmtsPlainLeaves(ss)
    ensures ParensBalanced(StmtsString(ss))
    decreases StmtsSize(ss)
  {
    if |ss| > 0 {
      StmtStringBalanced(ss[0]);
      StmtsStringBalanced(ss[1..]);
      Split(StmtString(ss[0]), StmtsString(ss[1..]));
    } else {
      Bal("");
    }
  }

  lemma {:induction false} BlockStringBalanced(b: Block)
    requires BlockPrintable(b) && BlockPlainLeaves(b)
    ensures ParensBalanced(BlockString(b))
    decreases BlockSize(b)
  {
    StmtsStringBalanced(b.statements);
  }

  /** The body of `func(x) { x + 2; }` prints as "(x + 2)"
      (sonar-lang/evaluator/evaluator_test.go:506-510). */
  lemma FunctionBodyText()
    ensures var x := Ident(Identifier(Token(IDENT, "x"), "x"));
      var two := IntegerLiteral(Token(INT, "2"), 2);
      var body := Block(Token(LBRACE, "{"),
        [ExpressionStatement(Token(IDENT, "x"), Some(Infix(Token(PLUS, "+"), x, "+", two)))]);
      BlockPrintable(body) && BlockString(body) == "(x + 2)"
  {
    var x := Ident(Identifier(Token(IDENT, "x"), "x"));
    var two := IntegerLiteral(Token(INT, "2"), 2);
    var e := Infix(Token(PLUS, "+"), x, "+", two);
    var st := ExpressionStatement(Token(IDENT, "x"), Some(e));
    assert ExprString(e) == "(x + 2)";
    assert StmtString(st) == "(x + 2)";
    assert StmtsString([st]) == StmtString(st) + StmtsString([]);
  }
}
