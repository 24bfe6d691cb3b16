/** The lexer (sonar-lang/lexer/lexer.go).

    The lexer's whole state is determined by `position`: `readPosition` is
    always `position + 1` and `ch` the character at `position`, or NUL past
    the end.  The functions in the first half describe, for an input and a
    position, where each of the lexer's scanning loops stops and which token
    `NextToken` returns; the class in the second half is the lexer itself,
    whose methods are proved to move exactly as those functions say. */
module Lexer {
  import opened Basics
  import opened Token

  const NUL: char := 0 as char

  /** The character at p, or NUL when p is past the end (`readChar`). */
  function At(s: string, p: int): char {
    if 0 <= p < |s| then s[p] else NUL
  }

  predicate IsLetter(c: char) { 'a' <= c <= 'z' || 'A' <= c <= 'Z' || c == '_' }
  predicate IsDigit(c: char) { '0' <= c <= '9' }
  predicate IsSpace(c: char) { c == ' ' || c == '\t' || c == '\n' || c == '\r' }

  /** How the measure of a position that may lie past the end is taken. */
  function Remaining(s: string, p: int): nat {
    if p <= |s| then |s| - p + 1 else 0
  }

  // ---------------------------------------------------------------------
  // Where each scanning loop stops

  /** `skipWhitespace`: the first position from p on that is not a space. */
  function SkipSpaces(s: string, p: nat): (q: nat)
    ensures p <= q && !IsSpace(At(s, q))
    ensures forall k :: p <= k < q ==> IsSpace(At(s, k))
    ensures p <= |s| ==> q <= |s|
    decreases Remaining(s, p)
  {
    if IsSpace(At(s, p)) then SkipSpaces(s, p + 1) else p
  }

  /** The loop of `skipSingleLineComment`: the next newline or NUL. */
  function LineEnd(s: string, p: nat): (q: nat)
    ensures p <= q && (At(s, q) == '\n' || At(s, q) == NUL)
    ensures forall k :: p <= k < q ==> At(s, k) != '\n' && At(s, k) != NUL
    ensures p <= |s| ==> q <= |s|
    decreases Remaining(s, p)
  {
    if At(s, p) != '\n' && At(s, p) != NUL then LineEnd(s, p + 1) else p
  }

  /** `skipSingleLineComment`: the rest of the line, then the spaces after it. */
  function SkipLineComment(s: string, p: nat): (q: nat)
    ensures At(s, p) != '\n' && At(s, p) != NUL ==> p < q
    ensures !IsSpace(At(s, q))
  {
    SkipSpaces(s, LineEnd(s, p))
  }

  /** The loop of `skipMultiLineComment`: stops one past a NUL, or past the
      first star that is followed by a slash. */
  function BlockEnd(s: string, p: nat): (q: nat)
    ensures p < q
    ensures forall k :: p <= k < q - 1 ==> At(s, k) != NUL
    ensures At(s, q - 1) == NUL || (q >= 2 && At(s, q - 2) == '*' && At(s, q - 1) == '/')
    ensures forall k :: p <= k < q - 2 ==> !(At(s, k) == '*' && At(s, k + 1) == '/')
    decreases Remaining(s, p)
  {
    if At(s, p) == NUL then p + 1
    else if At(s, p) == '*' && At(s, p + 1) == '/' then p + 2
    else BlockEnd(s, p + 1)
  }

  /** `skipMultiLineComment`. */
  function SkipBlockComment(s: string, p: nat): (q: nat)
    ensures p < q && !IsSpace(At(s, q))
  {
    SkipSpaces(s, BlockEnd(s, p))
  }

  /** The loop condition of `readIdentifier`: a letter, or a digit right
      after a letter. */
  predicate IdentContinues(s: string, q: nat) {
    IsLetter(At(s, q)) || (IsDigit(At(s, q)) && 0 < q && IsLetter(s[q - 1]))
  }

  /** `readIdentifier`: end of the identifier starting at p. */
  function IdentEnd(s: string, p: nat): (q: nat)
    ensures p <= q && !IdentContinues(s, q)
    ensures forall k :: p <= k < q ==> IdentContinues(s, k)
    ensures p <= |s| ==> q <= |s|
    decreases Remaining(s, p)
  {
    if IdentContinues(s, p) then IdentEnd(s, p + 1) else p
  }

  /** `readNumber`: end of the run of digits and dots starting at p. */
  function NumberEnd(s: string, p: nat): (q: nat)
    ensures p <= q && !IsDigit(At(s, q)) && At(s, q) != '.'
    ensures forall k :: p <= k < q ==> IsDigit(At(s, k)) || At(s, k) == '.'
    ensures p <= |s| ==> q <= |s|
    decreases Remaining(s, p)
  {
    if IsDigit(At(s, p)) || At(s, p) == '.' then NumberEnd(s, p + 1) else p
  }

  /** `readString`: the closing quote or NUL at or after p. */
  function StringClose(s: string, p: nat): (q: nat)
    ensures p <= q && (At(s, q) == '"' || At(s, q) == NUL)
    ensures forall k :: p <= k < q ==> At(s, k) != '"' && At(s, k) != NUL
    ensures p <= |s| ==> q <= |s|
    decreases Remaining(s, p)
  {
    if At(s, p) != '"' && At(s, p) != NUL then StringClose(s, p + 1) else p
  }

  /** strings.Count(text, "."). */
  function CountDots(text: string): nat decreases |text| {
    if |text| == 0 then 0 else (if text[0] == '.' then 1 else 0) + CountDots(text[1..])
  }

  /** The token of a run of digits and dots: INT, FLOAT, or ILLEGAL with more than one dot. */
  function NumberToken(text: string): (t: Token)
    ensures t.literal == text
    ensures t.typ == INT <==> CountDots(text) == 0
    ensures t.typ == FLOAT <==> CountDots(text) == 1
    ensures t.typ == ILLEGAL <==> CountDots(text) > 1
  {
    var dots := CountDots(text);
    if dots > 1 then Token(ILLEGAL, text)
    else if dots == 0 then Token(INT, text)
    else Token(FLOAT, text)
  }

  /** The one-character delimiters of the switch in `NextToken`. */
  function Delimiter(c: char): Option<TokenType> {
    match c
    case ';' => Some(SEMICOLON)
    case ':' => Some(COLON)
    case ',' => Some(COMMA)
    case '{' => Some(LBRACE)
    case '}' => Some(RBRACE)
    case '(' => Some(LPAREN)
    case ')' => Some(RPAREN)
    case '[' => Some(LBRACKET)
    case ']' => Some(RBRACKET)
    case _ => None
  }

  /** The characters that start an operator in the switch of `NextToken`. */
  predicate IsOperatorStart(c: char) {
    c == '=' || c == '+' || c == '-' || c == '!' || c == '/' || c == '*' || c == '<' || c == '>'
  }

  /** The operator cases of the switch: the two-character operator when the
      next character completes one, the one-character operator otherwise. */
  function ScanOperator(s: string, p: nat): (r: (Token, nat))
    requires IsOperatorStart(At(s, p))
    ensures r.1 == p + |r.0.literal| && 1 <= |r.0.literal| <= 2
    ensures r.0.literal[0] == At(s, p)
  {
    var c := At(s, p);
    var n := At(s, p + 1);
    if c == '=' then
      if n == '=' then (Token(EQ, "=="), p + 2) else (Token(ASSIGN, "="), p + 1)
    else if c == '+' then
      if n == '+' then (Token(POST_INCR, "++"), p + 2)
      else if n == '=' then (Token(PLUS_ASSIGN, "+="), p + 2)
      else (Token(PLUS, "+"), p + 1)
    else if c == '-' then
      if n == '=' then (Token(MINUS_ASSIGN, "-="), p + 2)
      else if n == '-' then (Token(POST_DECR, "--"), p + 2)
      else (Token(MINUS, "-"), p + 1)
    else if c == '!' then
      if n == '=' then (Token(NOT_EQ, "!="), p + 2) else (Token(BANG, "!"), p + 1)
    else if c == '/' then
      if n == '=' then (Token(SLASH_ASSIGN, "/="), p + 2) else (Token(SLASH, "/"), p + 1)
    else if c == '*' then
      if n == '=' then (Token(ASTERISK_ASSIGN, "*="), p + 2) else (Token(ASTERISK, "*"), p + 1)
    else if c == '<' then
      if n == '=' then (Token(LTE, "<="), p + 2) else (Token(LT, "<"), p + 1)
    else
      if n == '=' then (Token(GTE, ">="), p + 2) else (Token(GT, ">"), p + 1)
  }

  /** The switch of `NextToken` at position p, once spaces and comments are skipped:
      the token and the position after it. */
  function ScanAt(s: string, p: nat): (r: (Token, nat))
    ensures p < r.1
    ensures r.0.typ == EOF <==> At(s, p) == NUL
    ensures r.0.typ == EOF ==> r.1 == p + 1
  {
    var c := At(s, p);
    if IsOperatorStart(c) then ScanOperator(s, p)
    else if Delimiter(c).Some? then (Token(Delimiter(c).value, [c]), p + 1)
    else if c == '"' then
      var q := StringClose(s, p + 1);
      (Token(STRING, s[p + 1..q]), q + 1)
    else if c == NUL then (Token(EOF, ""), p + 1)
    else if IsLetter(c) then
      var q := IdentEnd(s, p);
      (Token(LookupIdent(s[p..q]), s[p..q]), q)
    else if IsDigit(c) then
      var q := NumberEnd(s, p);
      (NumberToken(s[p..q]), q)
    else (Token(ILLEGAL, [c]), p + 1)
  }

  /** Where the switch of `NextToken` starts from position p: spaces are
      skipped; a "//" comment is skipped and skipping starts again; a block
      comment (slash, star) is skipped once. */
  function TokenStart(s: string, p: nat): (q: nat)
    ensures p <= q
    decreases Remaining(s, p)
  {
    var p1 := SkipSpaces(s, p);
    if At(s, p1) == '/' && At(s, p1 + 1) == '/' then TokenStart(s, SkipLineComment(s, p1))
    else if At(s, p1) == '/' && At(s, p1 + 1) == '*' then SkipBlockComment(s, p1)
    else p1
  }

  /** `NextToken` from position p: the switch applied where `TokenStart`
      leaves the cursor. */
  function Scan(s: string, p: nat): (r: (Token, nat))
    ensures p < r.1
    ensures r.0.typ == EOF ==> At(s, r.1 - 1) == NUL
  {
    ScanAt(s, TokenStart(s, p))
  }

  // ---------------------------------------------------------------------
  // Properties of the scanner

  /** A line comment is skipped and scanning starts over after it. */
  lemma ScanSkipsLineComment(s: string, p: nat)
    requires At(s, SkipSpaces(s, p)) == '/' && At(s, SkipSpaces(s, p) + 1) == '/'
    ensures Scan(s, p) == Scan(s, SkipLineComment(s, SkipSpaces(s, p)))
  {
    assert TokenStart(s, p) == TokenStart(s, SkipLineComment(s, SkipSpaces(s, p)));
  }

  /** Once the input is used up, every further call gives EOF with an empty literal. */
  lemma EndOfInputIsSticky(s: string, p: nat)
    requires p >= |s|
    ensures Scan(s, p) == (Token(EOF, ""), p + 1)
  {
  }

  /** Two-character operators are matched greedily: when the current
      character and the next form one of them, that is the token. */
  lemma TwoCharOperators(s: string, p: nat)
    requires p + 1 < |s|
    requires s[p..p + 2] in {"==", "!=", "<=", ">=", "+=", "-=", "*=", "/=", "++", "--"}
    ensures ScanAt(s, p).0.literal == s[p..p + 2] && ScanAt(s, p).1 == p + 2
  {
    assert s[p..p + 2] == [s[p], s[p + 1]];
  }

  /** The literal of an identifier token is the letters and digits that
      `readIdentifier` accepted, and its type comes from the keyword table. */
  lemma IdentifierToken(s: string, p: nat)
    requires p < |s| && IsLetter(s[p])
    ensures var (tok, q) := ScanAt(s, p);
      p < q <= |s| && tok.literal == s[p..q] && tok.typ == LookupIdent(s[p..q])
      && (forall k :: p <= k < q ==> IsLetter(s[k]) || (IsDigit(s[k]) && IsLetter(s[k - 1])))
      && !IdentContinues(s, q)
  {
    var q := IdentEnd(s, p);
    forall k | p <= k < q ensures IsLetter(s[k]) || (IsDigit(s[k]) && IsLetter(s[k - 1])) {
      assert IdentContinues(s, k);
    }
  }

  /** A string literal is the text between the quotes, and scanning resumes
      after the closing quote (or one past the end when it is missing). */
  lemma StringToken(s: string, p: nat)
    requires p < |s| && s[p] == '"'
    ensures var (tok, q) := ScanAt(s, p);
      tok.typ == STRING && p + 2 <= q <= |s| + 1 && tok.literal == s[p + 1..q - 1]
      && (forall k :: p + 1 <= k < q - 1 ==> s[k] != '"')
  {
    var q := StringClose(s, p + 1);
    forall k | p + 1 <= k < q ensures s[k] != '"' {
      assert At(s, k) != '"';
    }
  }

  // ---------------------------------------------------------------------
  // The lexer object

  class Lexer {
    const input: string
    var position: int
    var readPosition: int
    var ch: char

    ghost predicate Valid() reads this {
      0 <= position && readPosition == position + 1 && ch == At(input, position)
    }

    /** `New`: the lexer starts on the first character. */
    constructor (input: string)
      ensures Valid() && this.input == input && position == 0
    {
      this.input := input;
      position := 0;
      readPosition := 0;
      ch := NUL;
      new;
      ReadChar();
    }

    method ReadChar()
      requires 0 <= readPosition
      modifies this
      ensures position == old(readPosition) && Valid()
    {
      if readPosition >= |input| {
        ch := NUL;
      } else {
        ch := input[readPosition];
      }
      position := readPosition;
      readPosition := readPosition + 1;
    }

    function PeekChar(): (c: char)
      reads this
      requires Valid()
      ensures c == At(input, position + 1)
    {
      if readPosition >= |input| then NUL else input[readPosition]
    }

    method SkipWhitespace()
      requires Valid()
      modifies this
      ensures Valid() && position == SkipSpaces(input, old(position))
    {
      while ch == ' ' || ch == '\t' || ch == '\n' || ch == '\r'
        invariant Valid() && old(position) <= position
        invariant SkipSpaces(input, position) == SkipSpaces(input, old(position))
        decreases Remaining(input, position)
      {
        ReadChar();
      }
    }

    method SkipSingleLineComment()
      requires Valid()
      modifies this
      ensures Valid() && position == SkipLineComment(input, old(position))
    {
      while ch != '\n' && ch != NUL
        invariant Valid() && old(position) <= position
        invariant LineEnd(input, position) == LineEnd(input, old(position))
        decreases Remaining(input, position)
      {
        ReadChar();
      }
      SkipWhitespace();
    }

    method SkipMultiLineComment()
      requires Valid()
      modifies this
      ensures Valid() && position == SkipBlockComment(input, old(position))
    {
      var scanning := true;
      while scanning
        invariant Valid() && old(position) <= position
        invariant scanning ==> BlockEnd(input, position) == BlockEnd(input, old(position))
        invariant !scanning ==> position == BlockEnd(input, old(position))
        decreases Remaining(input, position), scanning
      {
        if ch == NUL {
          scanning := false;
        } else if ch == '*' {
          if PeekChar() == '/' {
            scanning := false;
            ReadChar();
          }
        }
        ReadChar();
      }
      SkipWhitespace();
    }

    method ReadIdentifier() returns (word: string)
      requires Valid() && IsLetter(ch)
      modifies this
      ensures Valid() && position == IdentEnd(input, old(position))
      ensures old(position) <= position <= |input| && word == input[old(position)..position]
    {
      var start := position;
      while IsLetter(ch) || (IsDigit(ch) && IsLetter(input[position - 1]))
        invariant Valid() && start <= position <= |input|
        invariant position == start ==> IsLetter(ch)
        invariant IdentEnd(input, position) == IdentEnd(input, start)
        decreases |input| - position
      {
        ReadChar();
      }
      word := input[start..position];
    }

    method ReadNumber() returns (tok: Token)
      requires Valid() && position <= |input|
      modifies this
      ensures Valid() && position == NumberEnd(input, old(position))
      ensures old(position) <= position <= |input| && tok == NumberToken(input[old(position)..position])
    {
      var start := position;
      while IsDigit(ch) || ch == '.'
        invariant Valid() && start <= position <= |input|
        invariant NumberEnd(input, position) == NumberEnd(input, start)
        decreases |input| - position
      {
        ReadChar();
      }
      tok := NumberToken(input[start..position]);
    }

    method ReadString() returns (literal: string)
      requires Valid() && position < |input|
      modifies this
      ensures Valid() && position == StringClose(input, old(position) + 1)
      ensures old(position) < position <= |input| && literal == input[old(position) + 1..position]
    {
      var start := position + 1;
      ReadChar();
      while ch != '"' && ch != NUL
        invariant Valid() && start <= position <= |input|
        invariant StringClose(input, position) == StringClose(input, start)
        decreases |input| - position
      {
        ReadChar();
      }
      literal := input[start..position];
    }

    method NextToken() returns (tok: Token)
      requires Valid()
      modifies this
      ensures Valid() && (tok, position) == Scan(input, old(position))
      decreases Remaining(input, position)
    {
      ghost var p0 := position;
      SkipWhitespace();
      ghost var p1 := position;
      if ch == '/' && PeekChar() == '/' {
        SkipSingleLineComment();
        assert p0 <= p1 < position;
        ScanSkipsLineComment(input, p0);
        tok := NextToken();
        return;
      }
      if ch == '/' && PeekChar() == '*' {
        SkipMultiLineComment();
      }
      ghost var p2 := position;
      tok := ReadToken();
      assert TokenStart(input, p0) == p2;
    }

    /** The switch of `NextToken`, on the current character. */
    method ReadToken() returns (tok: Token)
      requires Valid()
      modifies this
      ensures Valid() && (tok, position) == ScanAt(input, old(position))
    {
      if IsOperatorStart(ch) {
        tok := ReadOperator();
      } else if Delimiter(ch).Some? {
        tok := Token(Delimiter(ch).value, [ch]);
        ReadChar();
      } else if ch == '"' {
        var literal := ReadString();
        tok := Token(STRING, literal);
        ReadChar();
      } else if ch == NUL {
        tok := Token(EOF, "");
        ReadChar();
      } else if IsLetter(ch) {
        var word := ReadIdentifier();
        tok := Token(LookupIdent(word), word);
      } else if IsDigit(ch) {
        tok := ReadNumber();
      } else {
        tok := Token(ILLEGAL, [ch]);
        ReadChar();
      }
    }

    /** The operator cases of the switch of `NextToken`. */
    method ReadOperator() returns (tok: Token)
      requires Valid() && IsOperatorStart(ch)
      modifies this
      ensures Valid() && (tok, position) == ScanOperator(input, old(position))
    {
      ghost var p := position;
      if ch == '=' {
        if PeekChar() == '=' {
          var c := ch;
          ReadChar();
          tok := Token(EQ, [c] + [ch]);
        } else {
          tok := Token(ASSIGN, [ch]);
        }
      } else if ch == '+' {
        var n := PeekChar();
        if n == '+' {
          ReadChar();
          tok := Token(POST_INCR, Name(POST_INCR));
        } else if n == '=' {
          ReadChar();
          tok := Token(PLUS_ASSIGN, Name(PLUS_ASSIGN));
        } else {
          tok := Token(PLUS, [ch]);
        }
      } else if ch == '-' {
        var n := PeekChar();
        if n == '=' {
          ReadChar();
          tok := Token(MINUS_ASSIGN, Name(MINUS_ASSIGN));
        } else if n == '-' {
          ReadChar();
          tok := Token(POST_DECR, Name(POST_DECR));
        } else {
          tok := Token(MINUS, [ch]);
        }
      } else if ch == '!' {
        if PeekChar() == '=' {
          var c := ch;
          ReadChar();
          tok := Token(NOT_EQ, [c] + [ch]);
        } else {
          tok := Token(BANG, [ch]);
        }
      } else if ch == '/' {
        if PeekChar() == '=' {
          ReadChar();
          tok := Token(SLASH_ASSIGN, Name(SLASH_ASSIGN));
        } else {
          tok := Token(SLASH, [ch]);
        }
      } else if ch == '*' {
        if PeekChar() == '=' {
          ReadChar();
          tok := Token(ASTERISK_ASSIGN, Name(ASTERISK_ASSIGN));
        } else {
          tok := Token(ASTERISK, [ch]);
        }
      } else if ch == '<' {
        if PeekChar() == '=' {
          var c := ch;
          ReadChar();
          tok := Token(LTE, [c] + [ch]);
        } else {
          tok := Token(LT, [ch]);
        }
      } else {
        if PeekChar() == '=' {
          var c := ch;
          ReadChar();
          tok := Token(GTE, [c] + [ch]);
        } else {
          tok := Token(GT, [ch]);
        }
      }
      ReadChar();
      assert position == p + |tok.literal|;
      assert tok == ScanOperator(input, p).0;
    }
  }
}
