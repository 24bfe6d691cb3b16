# Sonar: a verified model of the interpreter core

Sonar is a small dynamically typed scripting language. This project models,
in Dafny, the parts of it that decide what a program means, and proves what
each part promises. It covers:

- the **lexer** and its keyword table: a cursor over the input bytes that
  yields tokens, with greedy two-character operators, comments, strings and
  numbers;
- the **AST printer**, the `String`/`TokenLiteral` of each node;
- the **object model**: types, `Inspect` texts, hash keys and iteration;
- **environments**, the chains of variable stores;
- the **evaluator**, statements and expressions, with the infix, prefix,
  postfix, index and assignment rules;
- the **builtins**: `len`, `slice`, `contains`, `copy`, `type`, `index`,
  `sort`, `reverse`, `range`, `push`, `pop`, `mapKeys`, `mapValues`,
  `mapEntries`, `convertable`, `str`, `int`, `float`, `map`, and the table
  `InitStdlib` builds;
- the helpers in `utils/slice.go` and `utils/string.go`;
- both ends of the **editor websocket**. On the editor side, an inbound frame
  updates the output panes, and a payload waits until the current socket is
  open. On the language server side, an `evaluate` request selects its reply.

## Shape of the model

The model keeps the shape of the source. Stateful parts are classes with
loops; pure parts are functions with lemmas. The main choices:

- **`int64`.** Go's `int64` is the subset type `Int64`. Where Go wraps on
  overflow, the model writes the wrap-around out (`Basics.Wrap64`).
- **Strings.** A string is `seq<char>` with one character per byte. The
  lexer reads `NUL` past the end of its input, as `readChar` does.
- **The heap.** Arrays and maps are references (`Arr(i)`, `Hash(i)`) into a
  heap of cells held in a `State`. This lets a builtin or an operator change
  its operand in place, as `pop` and `m - k` on a map do.
- **Booleans and nulls.** They carry an identity: the shared singletons
  versus a freshly allocated value. The evaluator compares them by pointer
  (`isTruthy`, `!`, the `==` fallback), so a freshly allocated `false` is
  truthy, as in the source.
- **Go `nil` and panics.** A Go `nil` object is `Nil`. A method call on it,
  an index panic, and the other panics are the outcome `Stop(Crash)`. Other
  stop reasons are `Diverge` (a loop Go never leaves) and `Unmodelled` (a
  path, such as floating point, that the model does not follow).
- **Fuel.** The evaluator is a function over statements and expressions
  with a `fuel` argument. Running out is `Stop(OutOfFuel)`.
- **Go maps.** A Go map of hash pairs is a sequence of pairs with distinct
  keys, in insertion order.
- **Error kinds.** Error objects carry an abstract error kind, not their
  message text.
- **Defects.** Where the source has a defect (see Findings), the evaluator
  and the builtin table run the code as written: `Operators.StringIndexAsWritten`,
  `Operators.RemoveAtAsWritten` and `ArrayBuiltins.PopAsWritten`. The
  corrected definitions (`Operators.StringIndex`, `Operators.RemoveAt`,
  `ArrayBuiltins.Pop`) stand beside them, with lemmas tying each pair
  together.

The editor context is the class `EditorClient.Editor`. Its methods are the
context's callbacks, and `Tick` is one firing of the polling interval that
`emit` starts. The language server's handler is a loop over the messages it
reads. Running the interpreter in a subprocess is the parameter `run`.

## Model

| member | source | states |
|---|---|---|
| Basics.Wrap64 | sonar-lang/evaluator/evaluator.go:459-494 | the int64 result is congruent to the exact value modulo 2^64, and equals it when it fits |
| Basics.ToUint64 | sonar-lang/object/object.go:72-74 | `uint64(v)` is congruent to v modulo 2^64 and is v itself for v >= 0 |
| Basics.ParseIntString | sonar-lang/evaluator/evaluator.go:901-943 | parsing the decimal text of any int64 gives back that int64 |
| Basics.JoinLength | sonar-lang/object/object.go:181-198 | a joined text is as long as its parts plus one separator between each pair |
| Basics.RemoveAll | sonar-lang/evaluator/evaluator.go:549-585 | removing occurrences never lengthens the text, and removing "" changes nothing |
| Basics.RemoveFirstMatch | sonar-lang/evaluator/evaluator.go:549-585 | the first occurrence is removed and the removal goes on after it: with no occurrence starting inside u, removing from u + pat + v gives u followed by the removal from v |
| Basics.RemoveAllAbsent | sonar-lang/evaluator/evaluator.go:549-585 | a text that does not contain the pattern is returned unchanged |
| Basics.LessTotal | sonar-lang/utils/slice.go:44-52 | string order is total: two texts are equal or one precedes the other |
| Basics.LessTransitive | sonar-lang/utils/slice.go:44-52 | string order is transitive |
| Basics.TrimSpaces | language-server/server/handlers/websocket.go:51-54 | the result is a slice of the text with only spaces outside it and no space at either end; it is "" exactly for an all-space text |
| Basics.ToUpper | sonar-lang/evaluator/types.go:12-43 | keeps the length; each ASCII lower-case letter becomes its capital (its code minus 32), and every other character is kept |
| Basics.ConcatChars | sonar-lang/evaluator/builtins.go:74-91 | joining the characters of a split string gives the string back |
| Token.KeywordsDistinct | sonar-lang/token/token.go:74-89 | distinct reserved words get distinct token types, none of them IDENT |
| Token.ReservedWords | sonar-lang/token/token.go:74-96 | exactly the fourteen reserved words look up as something other than IDENT |
| Token.LogicalWordsAreOperators | sonar-lang/token/token.go:38-39 | "and" and "or" are the AND and OR tokens, whose names are the words themselves |
| Lexer.SkipSpaces | sonar-lang/lexer/lexer.go:173-177 | the position reached is not whitespace and everything skipped is |
| Lexer.LineEnd | sonar-lang/lexer/lexer.go:149-154 | the end of a line comment is the first newline or the end of input |
| Lexer.SkipLineComment | sonar-lang/lexer/lexer.go:27-30 | a line comment is consumed, and the lexer stops on a non-space |
| Lexer.BlockEnd | sonar-lang/lexer/lexer.go:156-171 | a block comment ends just after the first `*/` following its start, with no `*/` before it, or at the end of input |
| Lexer.SkipBlockComment | sonar-lang/lexer/lexer.go:32-35 | a block comment is consumed, and the lexer stops on a non-space |
| Lexer.IdentEnd | sonar-lang/lexer/lexer.go:197-203 | an identifier runs to the first character that cannot continue it |
| Lexer.NumberEnd | sonar-lang/lexer/lexer.go:205-227 | a number runs over digits and dots and stops at the first other character |
| Lexer.StringClose | sonar-lang/lexer/lexer.go:229-238 | a string runs to the next quote or the end of input |
| Lexer.NumberToken | sonar-lang/lexer/lexer.go:205-227 | the literal is the text read: no dot gives INT, one dot FLOAT, more than one ILLEGAL |
| Lexer.ScanOperator | sonar-lang/lexer/lexer.go:37-108 | an operator token is one or two characters starting at the cursor, and the cursor moves past it |
| Lexer.ScanAt | sonar-lang/lexer/lexer.go:36-146 | every token advances the cursor, and EOF is produced exactly at the end of input |
| Lexer.Scan | sonar-lang/lexer/lexer.go:22-147 | `NextToken` always advances the cursor, and gives EOF only where it read the NUL past the input (or a NUL inside it) |
| Lexer.EndOfInputIsSticky | sonar-lang/lexer/lexer.go:130-132 | at the end of input every call gives EOF with an empty literal |
| Lexer.TwoCharOperators | sonar-lang/lexer/lexer.go:37-108 | `==`, `!=`, `<=`, `>=`, `++`, `--`, `+=`, `-=`, `*=`, `/=` are read greedily as one token |
| Lexer.IdentifierToken | sonar-lang/lexer/lexer.go:133-146 | a letter starts an identifier whose literal is the whole run and whose type is its keyword lookup |
| Lexer.StringToken | sonar-lang/lexer/lexer.go:123-125 | a string token holds exactly the bytes between the quotes |
| Lexer.Lexer.constructor | sonar-lang/lexer/lexer.go:16-20 | a new lexer has read the first character of its input |
| Lexer.Lexer.ReadChar | sonar-lang/lexer/lexer.go:179-187 | the cursor moves one place, `readPosition` stays one ahead, and past the end the character is NUL |
| Lexer.Lexer.PeekChar | sonar-lang/lexer/lexer.go:189-195 | the next character, or NUL past the end, without moving |
| Lexer.Lexer.SkipWhitespace | sonar-lang/lexer/lexer.go:173-177 | the loop stops where `SkipSpaces` says, on a non-space |
| Lexer.Lexer.SkipSingleLineComment | sonar-lang/lexer/lexer.go:149-154 | the loop stops where `SkipLineComment` says |
| Lexer.Lexer.SkipMultiLineComment | sonar-lang/lexer/lexer.go:156-171 | the loop stops where `SkipBlockComment` says |
| Lexer.Lexer.ReadIdentifier | sonar-lang/lexer/lexer.go:197-203 | returns the input between the start and `IdentEnd` |
| Lexer.Lexer.ReadNumber | sonar-lang/lexer/lexer.go:205-227 | returns `NumberToken` of the input up to `NumberEnd` |
| Lexer.Lexer.ReadString | sonar-lang/lexer/lexer.go:229-238 | returns the input between the quote and `StringClose` |
| Lexer.Lexer.NextToken | sonar-lang/lexer/lexer.go:22-147 | the token and the new cursor are those of `Scan` |
| Lexer.Lexer.ReadToken | sonar-lang/lexer/lexer.go:36-146 | the token and the new cursor are those of `ScanAt` |
| Lexer.Lexer.ReadOperator | sonar-lang/lexer/lexer.go:37-108 | the token and the new cursor are those of `ScanOperator` |
| Ast.ProgramStringAppend | sonar-lang/ast/ast.go:40-48 | a program prints as its statements' texts concatenated |
| Ast.ProgramTokenLiteralAppend | sonar-lang/ast/ast.go:32-38 | a program's literal is fixed by its first statement: appending statements never changes it, and an empty program takes the literal of what follows |
| Ast.ExprString | sonar-lang/ast/ast.go:252-456 | prefix, infix, postfix and index expressions print inside one pair of parentheses, array literals inside brackets, map literals inside braces |
| Ast.StmtString | sonar-lang/ast/ast.go:60-180 | `let` and `return` statements print ending in `;`, `while` and `for` statements ending in `}` |
| Ast.PrefixText | sonar-lang/ast/ast.go:252-261 | a prefix expression prints in one pair of parentheses |
| Ast.InfixText | sonar-lang/ast/ast.go:273-283 | an infix expression prints in one pair of parentheses |
| Ast.PostfixText | sonar-lang/ast/ast.go:293-302 | a postfix expression prints in one pair of parentheses |
| Ast.IfText | sonar-lang/ast/ast.go:314-328 | an if expression's text keeps its parts' parentheses balanced |
| Ast.ElseText | sonar-lang/ast/ast.go:314-328 | the else part's text keeps the branch's parentheses balanced |
| Ast.FunctionText | sonar-lang/ast/ast.go:339-354 | a function literal adds one pair around its parameters |
| Ast.CallText | sonar-lang/ast/ast.go:365-379 | a call adds one pair around its arguments |
| Ast.EnclosedText | sonar-lang/ast/ast.go:399-412 | an array or map literal keeps the elements' parentheses balanced |
| Ast.IndexText | sonar-lang/ast/ast.go:423-433 | an index expression prints in one pair of parentheses around `left[index]` |
| Ast.ExprStringBalanced | sonar-lang/ast/ast.go:252-508 | every printable expression prints with balanced parentheses |
| Ast.StmtStringBalanced | sonar-lang/ast/ast.go:60-180 | every printable statement prints with balanced parentheses |
| Ast.BlockStringBalanced | sonar-lang/ast/ast.go:121-129 | every printable block prints with balanced parentheses |
| Ast.PairStringBalanced | sonar-lang/ast/ast.go:443-456 | every printable map entry prints with balanced parentheses |
| Ast.FunctionBodyText | sonar-lang/evaluator/evaluator_test.go:506-510 | the body of `func(x) { x + 2; }` prints as "(x + 2)" |
| Objects.TypeName | sonar-lang/object/object.go:16-32 | every object kind of object.go has a type name; only the loop signals have none |
| Objects.TypeNamesDistinct | sonar-lang/object/object.go:16-32 | different kinds have different type names |
| Objects.TypeOf | sonar-lang/object/object.go:212 | `Type()` of each object, with a map's type named "MAP", and a crash on nil |
| Objects.HashKeyOf | sonar-lang/object/object.go:72-102 | only integers, booleans and strings have keys, tagged with their own type; integers by `uint64`, booleans by 1/0 |
| Objects.IntegerKeysInjective | sonar-lang/object/object.go:72-74 | two integers have equal keys exactly when their values are equal |
| Objects.BooleanKeys | sonar-lang/object/object.go:92-102 | two booleans have equal keys exactly when their values are equal |
| Objects.KeysOfDifferentTypesDiffer | sonar-lang/object/object.go:52-55 | keys of objects of different types never collide |
| Objects.Lookup | sonar-lang/object/object.go:213-250 | a key is found exactly when some pair carries it, and the pair found carries it |
| Objects.Put | sonar-lang/evaluator/evaluator.go:854-882 | storing a pair adds at most one pair: the result has as many pairs as before or one more; where the key lands is stated by `Objects.LookupPut` and `Objects.PutKeys` |
| Objects.Remove | sonar-lang/evaluator/evaluator.go:587-610 | removing a key never adds pairs; which pair goes is stated by `Objects.LookupRemove` and `Objects.RemoveAbsent` |
| Objects.PutKeys | sonar-lang/evaluator/evaluator.go:854-882 | storing a pair adds its key to the key set and keeps keys distinct |
| Objects.LookupPut | sonar-lang/evaluator/evaluator.go:959-972 | after storing a pair its key finds it and other keys find what they found before |
| Objects.PutAll | sonar-lang/evaluator/evaluator.go:858-879 | storing pairs one after the other keeps the keys distinct |
| Objects.LookupPutAllLast | sonar-lang/evaluator/evaluator.go:877-878 | after storing a list of pairs, a key finds the last pair stored under it |
| Objects.LookupPutAllAbsent | sonar-lang/evaluator/evaluator.go:877-878 | a key that none of the stored pairs has finds what it found before |
| Objects.LookupRemove | sonar-lang/evaluator/evaluator.go:587-610 | after deleting a key it is absent and other keys are unaffected |
| Objects.LookupFindsPair | sonar-lang/object/object.go:213-250 | with distinct keys, each pair is found by its own key |
| Objects.RemoveAbsent | sonar-lang/evaluator/evaluator.go:587-610 | deleting an absent key leaves the pairs unchanged |
| Objects.ErrorText | sonar-lang/object/object.go:121 | an error inspects as text starting with "ERROR: " |
| Objects.Text | sonar-lang/object/object.go:71-250 | the text of a string is the string itself; `Inspect` on a nil object panics; an array prints inside `[` … `]` and a map inside `{` … `}` |
| Objects.ScalarTexts | sonar-lang/object/object.go:71-121 | null, true, false, an integer and an error inspect as "null", "true", "false", its decimal text and "ERROR: ..." |
| Objects.IntegerTextRoundTrip | sonar-lang/object/object.go:71 | an integer's text parses back to the integer |
| Objects.ArrayText | sonar-lang/object/object.go:181-198 | an array inspects as its formatted elements joined by ", " inside brackets |
| Objects.NestedArrayText | sonar-lang/evaluator/evaluator_test.go:986 | an array of two `[1, 2]` arrays inspects as "[[1, 2], [1, 2]]" |
| Objects.StringIters | sonar-lang/object/object.go:161-167 | a string iterates as one single-character string per character |
| Objects.StringItersConcat | sonar-lang/object/object.go:161-167 | the characters iterated, put together, give the string back |
| Objects.HashIters | sonar-lang/object/object.go:242-250 | a map iterates as one `[key, value]` per pair |
| Environment.Created | sonar-lang/object/environment.go:9-12 | a new environment is a new frame, and the existing frames are unchanged |
| Environment.Enclosed | sonar-lang/object/environment.go:3-7 | an enclosed environment is a new frame over its outer one, and the existing frames are unchanged |
| Environment.Bind | sonar-lang/object/environment.go:27-30 | `Set` changes only its own frame's store and keeps that frame's outer |
| Environment.Resolve | sonar-lang/object/environment.go:19-25 | a name in the innermost store gives that store's value; any value found is the binding of that name in this environment or an outer one; a name missing from an environment with no outer one is not found |
| Environment.CreatedIsEmpty | sonar-lang/object/environment.go:9-25 | in a new environment no name resolves |
| Environment.ResolveBind | sonar-lang/object/environment.go:19-30 | after `Set(n, v)`, `Get(n)` is v and other names are unaffected |
| Environment.ResolveSamePrefix | sonar-lang/object/environment.go:19-25 | `Get` from an environment reads only that environment and the ones enclosing it, so environments opened later do not change what it finds |
| Environment.ResolveBelow | sonar-lang/object/environment.go:3-30 | `Set` in an enclosed environment leaves lookups from its outer ones unchanged |
| Environment.Shadowing | sonar-lang/object/environment.go:19-24 | a binding in an enclosed environment hides the outer one's |
| Environment.ResolveExtend | sonar-lang/object/environment.go:3-12 | creating environments does not change lookups in existing ones |
| Environment.ResolveIffInChain | sonar-lang/object/environment.go:19-25 | `Get` succeeds exactly when the name is in some store along the outer chain |
| Environment.Environments.constructor | sonar-lang/object/environment.go:9-12 | no environments exist yet |
| Environment.Environments.NewEnvironment | sonar-lang/object/environment.go:9-12 | adds the frame `Created` describes |
| Environment.Environments.NewEnclosedEnvironment | sonar-lang/object/environment.go:3-7 | adds the frame `Enclosed` describes |
| Environment.Environments.Get | sonar-lang/object/environment.go:19-25 | walks the outer chain; ok exactly when the name resolves, with the resolved value |
| Environment.Environments.Set | sonar-lang/object/environment.go:27-30 | the frames become `Bind` of the old ones, and the stored value is returned |
| StringUtils.StripWhitespace | utils/string.go:5-15 | the result contains no space, tab, carriage return or newline |
| StringUtils.StripKeepsOthers | utils/string.go:5-15 | every other character is kept as many times as it occurs |
| StringUtils.StripConcat | utils/string.go:5-15 | stripping works piecewise, so the kept characters stay in order |
| StringUtils.StripNoWhitespace | utils/string.go:5-15 | a text without whitespace is returned unchanged |
| StringUtils.StripIdempotent | utils/string.go:5-15 | stripping twice is stripping once |
| SliceUtils.SliceContains | sonar-lang/utils/slice.go:9-16 | true exactly when the element is in the slice |
| SliceUtils.SliceChunk | sonar-lang/utils/slice.go:18-30 | the loop builds the chunks of the slice |
| SliceUtils.ChunksFlatten | sonar-lang/utils/slice.go:18-30 | the chunks put together give the slice back |
| SliceUtils.ChunksShape | sonar-lang/utils/slice.go:18-30 | every chunk but the last has the chunk size, the last has 1 to size elements, and there are ceil(len/size) of them |
| SliceUtils.ReversedAt | sonar-lang/utils/slice.go:97-106 | the reversal has the same length, with element i taken from position len-1-i |
| SliceUtils.ReversedTwice | sonar-lang/utils/slice.go:97-106 | reversing twice gives the input |
| SliceUtils.ReverseSlice | sonar-lang/utils/slice.go:97-106 | the copy-and-swap loop gives the reversal, and the input value is untouched |
| SliceUtils.SortByTextCorrect | sonar-lang/utils/slice.go:44-52 | sorting by text gives a sorted permutation of the input |
| SliceUtils.SortInPlace | sonar-lang/utils/slice.go:44-52 | the array is sorted in place into `SortByText` of its old contents |
| Builtins.ObjsSort | sonar-lang/utils/slice.go:44-52 | sorting by text keeps exactly the same objects, counted with multiplicity |
| SliceUtils.InsertLeftmost | sonar-lang/utils/slice.go:44-52 | one insertion step puts a[i] into place in the sorted suffix and leaves the prefix alone |
| SliceUtils.ObjectArrayEqual | sonar-lang/utils/slice.go:81-95 | the loop's answer is `ArraysEqual` |
| SliceUtils.EqualFromMeaning | sonar-lang/utils/slice.go:81-95 | arrays are equal exactly when lengths match and elements agree pairwise on type and text |
| SliceUtils.ArraysEqualReflexive | sonar-lang/utils/slice.go:81-95 | an array whose elements all print is equal to itself |
| SliceUtils.ArraysEqualSymmetric | sonar-lang/utils/slice.go:81-95 | array equality is symmetric |
| Operators.NativeBool | sonar-lang/evaluator/evaluator.go:349-354 | the result is the shared TRUE or FALSE singleton with the given value |
| Operators.Truthiness | sonar-lang/evaluator/evaluator.go:705-716 | only the FALSE and NULL singletons are falsy; a fresh false, a fresh null, 0 and "" are truthy |
| Operators.Bang | sonar-lang/evaluator/evaluator.go:427-438 | `!x` is the singleton for the negated truthiness of x |
| Operators.DoubleBang | sonar-lang/evaluator/evaluator.go:427-438 | `!!x` is the singleton for the truthiness of x |
| Operators.Minus | sonar-lang/evaluator/evaluator.go:440-453 | an integer is negated with wrap-around; anything else is an unknown-operator error; nil crashes |
| Operators.MinusInt64 | sonar-lang/evaluator/evaluator.go:440-453 | `-v` is exact except that the smallest int64 is its own negation |
| Operators.Prefix | sonar-lang/evaluator/evaluator.go:356-366 | `!` is negated truthiness, `-` is `Minus`, any other operator an error |
| Operators.IntegerInfix | sonar-lang/evaluator/evaluator.go:459-494 | the model stops (as unmodelled) exactly for `/` by a non-zero divisor; `/` by zero is the ZeroDivision error; `+`, `-` and `*` give an integer; a comparison gives TRUE or FALSE; any other operator is UnknownOperator |
| Operators.StringInfix | sonar-lang/evaluator/evaluator.go:549-585 | `+` gives a followed by b; `-` gives a text no longer than a; a comparison gives TRUE or FALSE, `==` giving TRUE exactly for equal texts; any other operator is UnknownOperator |
| Operators.IntegerArithmetic | sonar-lang/evaluator/evaluator.go:459-494 | `+ - *` give int64 results congruent to the exact values, equal to them when they fit; `/` by 0 is an error |
| Operators.IntegerComparisons | sonar-lang/evaluator/evaluator.go:459-494 | the six comparisons agree with the integer comparisons |
| Operators.StringOperators | sonar-lang/evaluator/evaluator.go:549-585 | `+` concatenates; `-` never lengthens, and changes nothing when the pattern is "" or absent (which occurrences go is stated by `Basics.RemoveFirstMatch`); `<` is irreflexive, `<=` reflexive, and on distinct texts `<` and `>` are opposite orders |
| Operators.Infix | sonar-lang/evaluator/evaluator.go:368-425 | no infix operator changes the environments |
| Operators.ArrayInfix | sonar-lang/evaluator/evaluator.go:612-669 | heap, environments and identities are never taken back, and only `a - n` may change an existing cell; a right operand that is not an array, integer or nil is UnacceptableRHSInArrayInfix; an integer with an operator other than `/`, `-`, `*` is UnknownOperator |
| Operators.MapInfix | sonar-lang/evaluator/evaluator.go:587-610 | the result is the map itself or an error; only the map's own cell may change and nothing is allocated; any operator other than `-` is UnknownOperator |
| Operators.ChunkArray | sonar-lang/utils/slice.go:32-42 | chunking a non-empty array by 0 never ends (Go loops forever) and by a negative size panics; otherwise the new array holds one element per chunk of `SliceUtils.Chunks` |
| Operators.Repeat | sonar-lang/evaluator/evaluator.go:654-659 | `a * n` always succeeds with a new array of max(n, 0) elements and leaves existing cells alone |
| Operators.RemoveAt | sonar-lang/evaluator/evaluator.go:646-652 | the corrected `a - n`: n past the end is OutOfRange; in range, the new array together with element n is a permutation of a, and no existing cell changes |
| Operators.RemoveAtAsWritten | sonar-lang/evaluator/evaluator.go:646-652 | `a - n` as written succeeds exactly when the corrected one does and returns the same elements, but in range it leaves a holding a without element n followed by a's last element again |
| Operators.LogicalOperators | sonar-lang/evaluator/evaluator.go:373-380 | `and` and `or` combine the truthiness of both operands into a singleton |
| Operators.ScalarInfixKeepsState | sonar-lang/evaluator/evaluator.go:368-425 | operators on two integers or on two strings allocate nothing |
| Operators.BooleansCompareByPointer | sonar-lang/evaluator/evaluator.go:411-415 | `==` and `!=` on singletons compare values, but a fresh boolean or null is never `==` a singleton |
| Operators.MixedOperands | sonar-lang/evaluator/evaluator.go:417-419 | an integer against a non-number is a type mismatch, except that `==` is false |
| Operators.ArrayConcat | sonar-lang/evaluator/evaluator.go:612-669 | `a + b` is a new array of a's elements then b's, and no existing cell changes |
| Operators.ArrayEquality | sonar-lang/evaluator/evaluator.go:612-669 | `==` and `!=` on arrays give a fresh boolean from `ObjectArrayEqual`, so it is truthy even when false |
| Operators.ArrayRemove | sonar-lang/evaluator/evaluator.go:646-652 | the corrected `a - n` (`RemoveAt`): a new array of a's elements without element n, the others in order, with a unchanged; past the end is an error and below zero a panic |
| Operators.ArrayRemoveAsWritten | sonar-lang/evaluator/evaluator.go:646-652 | `a - n` as the evaluator runs it: the result holds a's elements without element n, and a itself now holds those followed by its old last element; past the end is an error and below zero a panic |
| Operators.ArrayRepeat | sonar-lang/evaluator/evaluator.go:612-669 | `a * n` holds n arrays with a's elements, none when n <= 0 |
| Operators.ArrayChunk | sonar-lang/utils/slice.go:32-42 | `a / n` holds the chunks of a, each a new array, and together they give a back |
| Operators.MapDelete | sonar-lang/evaluator/evaluator.go:587-610 | `m - k` removes k's key from m itself and keeps all other keys; with no such key m is unchanged |
| Operators.ArrayIndexRules | sonar-lang/evaluator/evaluator.go:834-852 | an index in range selects the element, a negative one counts from the end, a large one is an error |
| Operators.StringIndex | sonar-lang/evaluator/evaluator.go:809-832 | indexing a string is indexing its characters by the array rules |
| Operators.StringIndexOffByOne | sonar-lang/evaluator/evaluator.go:818-827 | the code as written panics on "abc"[3] and "abc"[-1] and gives "b" for "abc"[-3] |
| Operators.StringIndexAgreesInside | sonar-lang/evaluator/evaluator.go:809-832 | for 0 <= i < len both versions give character i |
| Operators.StringIndexAsWritten | sonar-lang/evaluator/evaluator.go:809-832 | agrees with the corrected `Operators.StringIndex` for an index inside the text, beyond its length or on the empty text; panics at index len and -1; a smaller negative index reads one position too far right |
| Operators.ArrayIndex | sonar-lang/evaluator/evaluator.go:834-852 | a result is an element of the array or the OutOfRange error; it panics exactly for a non-empty array and an index below minus its length |
| Operators.Index | sonar-lang/evaluator/evaluator.go:795-807 | indexing an array gives an element or OutOfRange; a string gives OutOfRange or a one-character text taken from it; a map gives NULL or the value of one of its pairs; anything else that is not nil is IndexOperatorNotAllowed |
| Operators.HashIndex | sonar-lang/evaluator/evaluator.go:884-899 | a hashable index gives the stored value, or the shared NULL when the key is absent; an unhashable one is an error |
| Operators.IndexNotAllowed | sonar-lang/evaluator/evaluator.go:795-807 | indexing anything but a string, an array or a map is an error |
| Operators.KeyAssignThenIndex | sonar-lang/evaluator/evaluator.go:945-972 | after `a[i] = v` or `m[k] = v`, reading it back gives v and no other cell changes |
| Operators.KeyAssignErrors | sonar-lang/evaluator/evaluator.go:945-957 | an array index past the end is an error, one at the end or below zero a panic, a non-container an error |
| Operators.KeyAssign | sonar-lang/evaluator/evaluator.go:196-213 | the result is the container itself or an error; only the container's own cell may change and nothing is allocated; a left side that is not a container changes nothing |
| Operators.Step | sonar-lang/evaluator/evaluator.go:901-943 | `++` and `--` add and subtract one, with wrap-around; a non-integer is an error |
| Operators.StepInverse | sonar-lang/evaluator/evaluator.go:901-943 | `--` undoes `++` and `++` undoes `--` |
| Operators.Unwrap | sonar-lang/evaluator/evaluator.go:787-793 | a return value gives its inner value, and anything else is itself |
| Operators.RemoveAtChangesOperand | sonar-lang/evaluator/evaluator.go:646-652 | as written, `[1, 2, 3] - 0` leaves its operand holding [2, 3, 3] |
| Builtins.FirstNonInteger | sonar-lang/evaluator/builtins.go:222-226 | finds the first argument that is not an integer, or none when all are |
| Builtins.Len | sonar-lang/evaluator/builtins.go:14-31 | exactly one argument; gives a string's length, an array's element count or a map's pair count, else an error |
| Builtins.Print | sonar-lang/evaluator/builtins.go:32-46 | gives NULL whenever every argument prints |
| Builtins.StepSlice | sonar-lang/evaluator/builtins.go:334-348 | the loop keeps the positions that `StepFrom` keeps |
| Builtins.EveryStep | sonar-lang/evaluator/builtins.go:334-348 | keeps the first element, never more elements than given, and only given ones |
| Builtins.StepFromEvery | sonar-lang/evaluator/builtins.go:334-348 | the step loop keeps exactly the positions k with `k % step == 0` |
| Builtins.SliceStart | sonar-lang/evaluator/builtins.go:297-317 | `slice(a, s)` gives `a[s:]`, with len added to a negative start; a start at or past the end is an error |
| Builtins.SliceStartEnd | sonar-lang/evaluator/builtins.go:318-331 | `slice(a, s, e)` gives `a[s:e]`; an end past the length or below the start is an error |
| Builtins.SliceStep | sonar-lang/evaluator/builtins.go:334-348 | `slice(a, s, e, st)` keeps every st-th element of `a[s:e]` |
| Builtins.StepFrom | sonar-lang/evaluator/builtins.go:334-348 | stepping from position k takes at most the elements from k on, and only those |
| Builtins.SliceElements | sonar-lang/evaluator/builtins.go:297-348 | a cut has at most the array's elements, all taken from it; a refusal is ArgumentMustBe, OutOfRange or InvalidRange; an all-integer argument list whose start is at or past the length is OutOfRange |
| Builtins.Slice | sonar-lang/evaluator/builtins.go:47-96 | no arguments is the RequiresAtLeast error; slicing a string changes nothing and gives a string or an error; slicing an array gives a new array of at most its elements, all taken from it, with the original unchanged; nothing allocated earlier changes |
| Builtins.SliceExamples | sonar-lang/evaluator/builtins_test.go:113-140 | the test slices of 1..10 and `slice(a, -1, -1)` give the expected arrays |
| Builtins.SliceWholeString | sonar-lang/evaluator/builtins.go:74-91 | slicing a string with no bounds gives the string back |
| Builtins.MatchFrom | sonar-lang/evaluator/builtins.go:287-295 | a non-negative answer is the first matching position, and -1 means none matches |
| Builtins.MatchFromAnswers | sonar-lang/evaluator/builtins.go:287-295 | when every element prints, the search gives an answer |
| Builtins.ArrayIndexOf | sonar-lang/evaluator/builtins.go:287-295 | the loop gives `MatchFrom`'s answer |
| Builtins.IndexOf | sonar-lang/evaluator/builtins.go:164-184 | a wrong argument count is the RequiresXArguments error and nothing changes; on an array the result is the first position whose element agrees with the needle, or -1 when none does |
| Builtins.IndexExamples | sonar-lang/evaluator/builtins_test.go:164-185 | 2 is at position 1 of [1, 2, 3], and 6 is absent |
| Builtins.ArrayContains | sonar-lang/evaluator/array.go:59-67 | true exactly when the search finds a match on type and text |
| Builtins.ContainsIffIndex | sonar-lang/evaluator/builtins.go:97-114 | `contains(a, x)` on an array is true exactly when some element agrees with x on type and text |
| Builtins.ContainsBuiltin | sonar-lang/evaluator/builtins.go:97-114 | a wrong argument count is RequiresXArguments; a non-error result is a fresh boolean; on an array it is true exactly when some element agrees with the needle; on a string it is the substring test of the needle's text |
| Builtins.CopyKeepsValue | sonar-lang/evaluator/builtins.go:115-153 | a copy has the original's value: the same integer, string or map, a new boolean of the same truth, or a new array with the same elements while the original is unchanged |
| Builtins.Copy | sonar-lang/evaluator/builtins.go:115-153 | a wrong argument count is RequiresXArguments; a copied array is a different array with the same elements, and the original is unchanged |
| Builtins.TypeBuiltin | sonar-lang/evaluator/builtins.go:154-163 | exactly one argument, and gives its type's name as a string |
| Builtins.SortedElementsCorrect | sonar-lang/evaluator/builtins.go:185-198 | `sort` gives the elements ordered by their texts, as a permutation |
| Builtins.SortedElements | sonar-lang/utils/slice.go:44-52 | the sorted elements are a permutation of the input |
| Builtins.Sort | sonar-lang/evaluator/builtins.go:185-198 | a wrong argument count is RequiresXArguments; sorting an array gives a new array that is a permutation of it, with the original unchanged |
| Builtins.SortExample | sonar-lang/evaluator/builtins_test.go:38-59 | sorting [3, 1, 2] gives [1, 2, 3] |
| Builtins.ReverseContents | sonar-lang/evaluator/builtins.go:199-213 | `reverse(a)` is a new array with a's elements reversed, and a is unchanged |
| Builtins.Reverse | sonar-lang/evaluator/builtins.go:199-213 | a wrong argument count is RequiresXArguments; a non-array is ArgumentMustBe; an array gives a new array with its elements in reverse order, the original unchanged |
| Builtins.RangeFrom | sonar-lang/evaluator/builtins.go:252-268 | the values start at S, and there are none exactly when S is already at or past E |
| Builtins.RangeFromValues | sonar-lang/evaluator/builtins.go:252-268 | the values go up by the step, stay strictly before E, and stop at the first one that would not |
| Builtins.RangeFromFits | sonar-lang/evaluator/builtins.go:252-268 | when no step overflows, the range has a value |
| Builtins.RangeStep | sonar-lang/evaluator/builtins.go:252-268 | one round of the loop appends the counter and moves it by the step |
| Builtins.RangeEnd | sonar-lang/evaluator/builtins.go:252-268 | the loop ends once the counter reaches E |
| Builtins.RangeOverflow | sonar-lang/evaluator/builtins.go:252-268 | a step that overflows int64 is not followed |
| Builtins.RangeLoop | sonar-lang/evaluator/builtins.go:252-268 | the loop computes `RangeFrom` |
| Builtins.RangeShape | sonar-lang/evaluator/builtins.go:239-250 | a step pointing away from E gives [], a zero step with S > E loops forever, and otherwise the result is `RangeFrom` |
| Builtins.Range | sonar-lang/evaluator/builtins.go:214-270 | fewer than two arguments is RequiresAtLeast and more than three RequiresAtMost; a non-error result comes only from integer arguments and is an array of integers |
| Builtins.RangeExamplesUp | sonar-lang/evaluator/builtins_test.go:9-36 | range(0, 4) and range(-4, -2) give the test's arrays |
| Builtins.RangeExamplesStep | sonar-lang/evaluator/builtins_test.go:9-36 | range(0, 5, 2) and range(10, 5, -2) give the test's arrays |
| Builtins.RangeExamplesEmpty | sonar-lang/evaluator/builtins.go:214-250 | a step pointing away gives [], and one argument is an error |
| ArrayBuiltins.PushAppends | sonar-lang/evaluator/array.go:11-27 | `push(a, xs...)` is a new array of a's elements then the xs |
| ArrayBuiltins.PushErrors | sonar-lang/evaluator/array.go:11-27 | fewer than two arguments, or a non-array first, is an error |
| ArrayBuiltins.Push | sonar-lang/evaluator/array.go:11-27 | fewer than two arguments is RequiresXArguments; pushing onto an array gives a new array holding its elements followed by the pushed values, the original unchanged |
| ArrayBuiltins.PopRemoves | sonar-lang/evaluator/array.go:38-55 | the corrected `pop(a, i)` (`Pop`): removes position i from a itself and returns the element that was there; a position outside a panics |
| ArrayBuiltins.PopAsWrittenRemoves | sonar-lang/evaluator/array.go:38-55 | `pop(a, i)` as the evaluator runs it: a loses position i, and the value returned is the element after it, or the last element when i is last |
| ArrayBuiltins.PopLast | sonar-lang/evaluator/array.go:38-55 | `pop(a)` returns the last element and shrinks a by one |
| ArrayBuiltins.PopReturnsNeighbour | sonar-lang/evaluator/array.go:40-52 | as written, `pop([1, 2, 3], 0)` returns 2 |
| ArrayBuiltins.Pop | sonar-lang/evaluator/array.go:38-55 | the corrected `pop`: no argument is RequiresAtLeast; only the popped array's cell changes and nothing is allocated; the remaining elements together with the returned one are a permutation of the old elements |
| ArrayBuiltins.PopAsWritten | sonar-lang/evaluator/array.go:38-55 | `pop` as written succeeds exactly when the corrected one does and leaves the same state; when its value differs, the index is not the last and it returns the element after the one removed |
| MapBuiltins.MapArgument | sonar-lang/evaluator/map.go:9-28 | the argument checks the three map builtins share: no map means an error |
| MapBuiltins.CollectKeys | sonar-lang/evaluator/map.go:19-26 | the loop collects the pairs' keys in order |
| MapBuiltins.CollectValues | sonar-lang/evaluator/map.go:39-46 | the loop collects the pairs' values in order |
| MapBuiltins.AllocateEntries | sonar-lang/evaluator/map.go:59-70 | the loop allocates one new array per entry |
| MapBuiltins.MapKeysAreTheKeys | sonar-lang/evaluator/map.go:9-28 | `mapKeys(m)` is a new array of m's keys, one per pair, and m is unchanged |
| MapBuiltins.MapValuesAreTheValues | sonar-lang/evaluator/map.go:29-48 | `mapValues(m)` is a new array of m's values, one per pair, and m is unchanged |
| MapBuiltins.MapEntriesArePairs | sonar-lang/evaluator/map.go:49-72 | `mapEntries(m)` holds one `[key, value]` array per pair, and m is unchanged |
| MapBuiltins.MapKeys | sonar-lang/evaluator/map.go:9-28 | one argument is required; for a map the result is a new array of its keys, pair by pair |
| MapBuiltins.MapValues | sonar-lang/evaluator/map.go:29-48 | one argument is required; for a map the result is a new array of its values, pair by pair |
| MapBuiltins.MapEntries | sonar-lang/evaluator/map.go:49-72 | one argument is required; for a map the result is a new array with one entry per pair |
| MapBuiltins.MapBuiltinErrors | sonar-lang/evaluator/map.go:9-17 | a non-map argument, or a wrong count, is an error for all three |
| TypesBuiltins.ToInteger | sonar-lang/evaluator/types.go:123-140 | an integer converts to itself, and a non-number that is not a string is an illegal conversion |
| TypesBuiltins.ToFloat | sonar-lang/evaluator/types.go:104-121 | a non-number that is not a string is an illegal conversion |
| TypesBuiltins.ConvertableMatchesConversions | sonar-lang/evaluator/types.go:12-43 | `convertable` agrees with `int`, `float` and `map`, is always true for "STRING", and false for other targets |
| TypesBuiltins.ConvertableIgnoresCase | sonar-lang/evaluator/types.go:12-43 | the target is read regardless of case: "string" is always true, and "Map" is true exactly for arrays |
| TypesBuiltins.Convertable | sonar-lang/evaluator/types.go:12-43 | two arguments are required; the answer is a fresh boolean; every non-nil value converts to "string", in any letter case |
| TypesBuiltins.IntBuiltin | sonar-lang/evaluator/types.go:60-68 | one argument is required; an integer converts to itself; nil panics; anything other than an integer or a string is IllegalConversion |
| TypesBuiltins.FloatBuiltin | sonar-lang/evaluator/types.go:69-77 | one argument is required; integers and strings take the unmodelled float path; anything else that is not nil is IllegalConversion |
| TypesBuiltins.StrOfInteger | sonar-lang/evaluator/types.go:44-59 | `str` of an integer parses back to the integer |
| TypesBuiltins.StrIdempotent | sonar-lang/evaluator/types.go:44-59 | `str` of a result of `str` gives that result back, and `str` changes no state |
| TypesBuiltins.IndexMap | sonar-lang/evaluator/types.go:78-101 | the loop stores one pair per element |
| TypesBuiltins.PutNew | sonar-lang/evaluator/types.go:78-101 | storing under a new key appends the pair |
| TypesBuiltins.IndexPairsShape | sonar-lang/evaluator/types.go:78-101 | `map(a)` has one pair per index, key i holding element i, with distinct keys |
| TypesBuiltins.MapOfArrayIndexes | sonar-lang/evaluator/types.go:78-101 | `map(a)[i]` is `a[i]` for every position |
| TypesBuiltins.MapBuiltin | sonar-lang/evaluator/types.go:78-101 | one argument is required; a non-array is ArgumentMustBe; an array gives a new map from each index to its element, the array unchanged |
| Stdlib.Table | sonar-lang/evaluator/builtins.go:14-270 | the table holds exactly its names, each bound to its own builtin |
| Stdlib.Library.constructor | sonar-lang/evaluator/builtins.go:14-270 | the package map starts with the ten core builtins |
| Stdlib.Library.CopyEntries | sonar-lang/evaluator/builtins.go:281-283 | copying a table's entries, in any order, overrides the map with that table |
| Stdlib.Library.InitStdlib | sonar-lang/evaluator/builtins.go:273-285 | afterwards the map is its old entries overridden by the array, map and type tables |
| Stdlib.Library.CopyTables | sonar-lang/evaluator/builtins.go:273-285 | copying a list of tables in turn leaves each later table winning over the earlier ones |
| Stdlib.TablesMerge | sonar-lang/evaluator/builtins.go:273-285 | merged tables are the table of all their names |
| Stdlib.GroupsDisjoint | sonar-lang/evaluator/builtins.go:273-285 | the four groups of names are disjoint, so no builtin replaces another |
| Stdlib.CallBuiltin | sonar-lang/evaluator/builtins.go:273-285 | a call never takes back heap, environments or identities; every builtin except `pop` leaves existing cells alone; a name outside the four tables is unmodelled |
| State.ExtendsKeeps | sonar-lang/object/object.go:176-212 | an array or map that exists keeps its contents while the state only grows, and growing twice is growing |
| Evaluator.BindParameters | sonar-lang/evaluator/evaluator.go:770-785 | binding parameters changes only the function's own frame; what it holds afterwards is stated by `Evaluator.BindParametersBinds` and `Evaluator.BindParametersKeeps` |
| Evaluator.BindParametersBinds | sonar-lang/evaluator/evaluator.go:776-782 | each parameter that no later parameter repeats holds its argument, or a fresh null of its own when the call passes fewer arguments |
| Evaluator.BindParametersKeeps | sonar-lang/evaluator/evaluator.go:776-782 | a name that is not a parameter keeps its binding in the function's frame, or stays unbound |
| Evaluator.CallBindsParameters | sonar-lang/evaluator/evaluator.go:754-785 | a call of a function runs its body in a new environment enclosed by the function's own and unwraps the result; there each parameter resolves to its argument or a fresh null, and every other name resolves as in the function's environment |
| Evaluator.ExtendFunctionEnv | sonar-lang/evaluator/evaluator.go:770-785 | the loop opens a frame over the closure's environment and binds each parameter in it |
| Evaluator.ForItems | sonar-lang/object/object.go:161-250 | a string, array or map gives its items to iterate over; anything else gives none |
| Evaluator.BindItem | sonar-lang/evaluator/evaluator.go:283-347 | binding a loop item never takes back state |
| Evaluator.Lookup | sonar-lang/evaluator/evaluator.go:689-703 | looking up an identifier changes nothing; which binding it finds is stated by `Evaluator.IdentifierLookup` |
| Evaluator.PostfixStep | sonar-lang/evaluator/evaluator.go:901-943 | `x++` and `x--` never take back state; their results are stated by `Evaluator.PostfixStepsInteger` and `Evaluator.PostfixRejects` |
| Evaluator.PostfixStepsInteger | sonar-lang/evaluator/evaluator.go:907-939 | on a name bound to an integer, or an unbound integer literal such as `1`, the stepped integer with int64 wrap-around is the result and is stored under the name in the current environment; no other name changes |
| Evaluator.PostfixRejects | sonar-lang/evaluator/evaluator.go:907-935 | a name bound to a non-integer gives UnacceptableLHSInPostfix, an unbound name that is not an integer literal gives IllegalToken, and neither changes the state |
| Evaluator.Assign | sonar-lang/evaluator/evaluator.go:56-87 | every run that finishes leaves the heap, the environments and the identity counter no smaller; the rules are stated by `Evaluator.AssignmentRules` and `Evaluator.CompoundIsInfix` |
| Evaluator.KeyAssignment | sonar-lang/evaluator/evaluator.go:182-213 | the first error among container, key and value is the result, else `Operators.KeyAssign`; every run that finishes leaves the heap, the environments and the identity counter no smaller |
| Evaluator.EvalExpr | sonar-lang/evaluator/evaluator.go:102-215 | every run that finishes leaves the heap, the environments and the identity counter no smaller; the rules per node are stated by `Evaluator.IdentifierLookup`, `Evaluator.CallAdder`, `Evaluator.NullLiteralIsTruthy` and the operator rows |
| Evaluator.EvalExprs | sonar-lang/evaluator/evaluator.go:737-752 | every run that finishes leaves the heap, the environments and the identity counter no smaller; `Evaluator.EvalExprsShape`, `Evaluator.EvalExprsOne` and `Evaluator.EvalExprsAppend` state the result |
| Evaluator.EvalExprsShape | sonar-lang/evaluator/evaluator.go:737-752 | the result is either one value per expression, after those already gathered, none of them an error, or a single error |
| Evaluator.EvalExprsOne | sonar-lang/evaluator/evaluator.go:743-748 | one expression: an error is the whole result, a value is added after those already gathered |
| Evaluator.EvalExprsAppend | sonar-lang/evaluator/evaluator.go:743-751 | evaluating a list is evaluating its first part and then, unless that gave an error, the rest from where it left off; the values come in the order of the expressions |
| Evaluator.EvalHashLiteral | sonar-lang/evaluator/evaluator.go:854-882 | every run that finishes leaves the heap, the environments and the identity counter no smaller; `Evaluator.HashLiteralPair` and `Evaluator.HashLiteralBuilds` state the result |
| Evaluator.HashLiteralPair | sonar-lang/evaluator/evaluator.go:860-879 | per pair: an error in the key is the result, an unhashable key gives UnusableAsHashKey, an error in the value is the result, otherwise the pair is stored under its hash key (which then finds it, other keys unchanged) and the literal goes on |
| Evaluator.HashLiteralBuilds | sonar-lang/evaluator/evaluator.go:858-881 | a literal without error is a new map holding one evaluated pair per literal pair, stored one after the other under the hash key of its key; with `Objects.LookupPutAllLast` a repeated key finds its last pair |
| Evaluator.CallOtherwise | sonar-lang/evaluator/evaluator.go:762-767 | a call of a builtin is the builtin on the arguments; a call of any other object that is not a function is NotAFunction |
| Evaluator.ApplyFunction | sonar-lang/evaluator/evaluator.go:754-768 | every run that finishes leaves the heap, the environments and the identity counter no smaller; `Evaluator.CallBindsParameters` and `Evaluator.CallOtherwise` state how a call runs, `Evaluator.FunctionReturns` and `Evaluator.CallAdder` state the result of particular calls |
| Evaluator.EvalStmt | sonar-lang/evaluator/evaluator.go:27-100 | every run that finishes leaves the heap, the environments and the identity counter no smaller; `Evaluator.LetRules`, `Evaluator.ReturnEndsProgram` and `Evaluator.BreakLeavesLoop` state the rules |
| Evaluator.EvalBlock | sonar-lang/evaluator/evaluator.go:239-257 | every run that finishes leaves the heap, the environments and the identity counter no smaller; `Evaluator.BlockStopsAtFirstSignal` states where a block stops |
| Evaluator.EvalStmts | sonar-lang/evaluator/evaluator.go:239-257 | every run that finishes leaves the heap, the environments and the identity counter no smaller; `Evaluator.StmtsAppend` states that running two lists is running one after the other |
| Evaluator.WhileLoop | sonar-lang/evaluator/evaluator.go:259-281 | every run that finishes leaves the heap, the environments and the identity counter no smaller; `Evaluator.WhileRounds` and `Evaluator.CountLoop` state the rounds |
| Evaluator.ForLoop | sonar-lang/evaluator/evaluator.go:283-347 | every run that finishes leaves the heap, the environments and the identity counter no smaller; `Evaluator.ForRounds`, `Evaluator.ForBindsElement` and `Evaluator.ForBindsEntry` state the rounds |
| Evaluator.ProgramFrom | sonar-lang/evaluator/evaluator.go:222-237 | every run that finishes leaves the heap, the environments and the identity counter no smaller; `Evaluator.ProgramAppend` states that a program runs statement by statement |
| Evaluator.EvalProgram | sonar-lang/evaluator/evaluator.go:222-237 | every run that finishes leaves the heap, the environments and the identity counter no smaller; `Evaluator.ProgramEndsAtFirstReturn` states where it stops |
| Evaluator.StmtsAppend | sonar-lang/evaluator/evaluator.go:239-257 | a block runs its statements one after another, and stops at a signal |
| Evaluator.BlockStopsAtFirstSignal | sonar-lang/evaluator/evaluator.go:239-257 | a block stops at the first return, error, break or continue, skipping the rest |
| Evaluator.ProgramAppend | sonar-lang/evaluator/evaluator.go:222-237 | a program runs its statements one after another, and stops at a return or an error |
| Evaluator.ProgramEndsAtFirstReturn | sonar-lang/evaluator/evaluator.go:222-237 | a program's value is the first return's inner value, and later statements do not run |
| Evaluator.LetRules | sonar-lang/evaluator/evaluator.go:46-54 | `let` binds the value in the current store, and an existing local binding is an error that does not rebind |
| Evaluator.LetTwice | sonar-lang/evaluator/evaluator_test.go:465-486 | a second `let` of the same name is an error and keeps the first value |
| Evaluator.AssignmentRules | sonar-lang/evaluator/evaluator.go:56-87 | assigning to an undefined name is an error, and otherwise the value is stored |
| Evaluator.CompoundIsInfix | sonar-lang/evaluator/evaluator.go:56-87 | `x op= e` stores `x op e` |
| Evaluator.CompoundAssignmentExamples | sonar-lang/evaluator/evaluator_test.go:82-121 | `+=`, `-=` and `*=` on a variable holding 0 give the test's values |
| Evaluator.WhileRounds | sonar-lang/evaluator/evaluator.go:259-281 | the condition is evaluated each round, the loop ends when it is falsy, and a signal ends it |
| Evaluator.ForBindsElement | sonar-lang/evaluator/evaluator.go:283-347 | each round binds the counter to the index and the value to the element |
| Evaluator.ForBindsEntry | sonar-lang/evaluator/evaluator.go:283-347 | over a map, each round binds the counter to the key and the value to the value |
| Evaluator.ForRounds | sonar-lang/evaluator/evaluator.go:283-347 | the loop ends after the last item, continue moves to the next, and break, return or error ends it |
| Evaluator.WhileCountsToThree | sonar-lang/evaluator/evaluator_test.go:123-171 | `let i = 0; while (i < 3) { i++ }; i` gives 3 |
| Evaluator.CountLoop | sonar-lang/evaluator/evaluator.go:259-281 | from the counter at 0, the counting loop runs three rounds and ends with the counter at 3 |
| Evaluator.CountFrom | sonar-lang/evaluator/evaluator.go:259-281 | from any counter up to 3, the counting loop ends with the counter at 3 |
| Evaluator.Rounds | sonar-lang/evaluator/evaluator.go:259-281 | a while loop whose every round moves its counter one up, and that stops at n, stops at n from any start below it given fuel for the rounds left |
| Evaluator.ReturnEndsProgram | sonar-lang/evaluator/evaluator.go:36-45 | `9; return 2 * 5; 9;` gives 10 |
| Evaluator.FunctionReturns | sonar-lang/evaluator/evaluator.go:754-793 | a call returns the function's return value, and the statements after it in the body do not run |
| Evaluator.CallAdder | sonar-lang/evaluator/evaluator.go:148-160 | calling a defined function binds the argument in a new frame and gives the returned value |
| Evaluator.BreakLeavesLoop | sonar-lang/evaluator/evaluator.go:259-281 | `while (true) { break }` ends with the break signal, which also stops the enclosing block |
| Evaluator.NullLiteralIsTruthy | sonar-lang/evaluator/evaluator.go:215 | the null literal allocates a fresh null, so `if (null)` takes its first branch |
| Evaluator.IdentifierLookup | sonar-lang/evaluator/evaluator.go:689-703 | a name resolves in the environment first, then among the builtins, else it is an error |
| EditorClient.AfterFrame | code-editor/src/context/editor.tsx:94-105 | a stderr frame shows only stderr, a stdout frame only stdout, and other frames change nothing |
| EditorClient.FramesKeepOnePane | code-editor/src/context/editor.tsx:60-71 | after any frames, stdout and stderr are never both non-empty |
| EditorClient.LastOutputFrameWins | code-editor/src/context/editor.tsx:94-105 | the panes show the last output frame alone |
| EditorClient.IgnoredFrames | code-editor/src/context/editor.tsx:101-103 | frames of other types leave the panes as they were |
| EditorClient.Editor.constructor | code-editor/src/context/editor.tsx:36-39 | code, stdout and stderr start empty, and one socket is connecting |
| EditorClient.Editor.WsConnect | code-editor/src/context/editor.tsx:17-20 | fails when no endpoint is configured, otherwise a new socket with no handlers becomes current |
| EditorClient.Editor.Emit | code-editor/src/context/editor.tsx:42-53 | a socket that is not open is replaced by one with no `onmessage` handler, and the payload waits for sending |
| EditorClient.Editor.Mount | code-editor/src/context/editor.tsx:83-110 | the mount effect: a new socket becomes current and gets the `onmessage` handler |
| EditorClient.Editor.Evaluate | code-editor/src/context/editor.tsx:54-59 | emits exactly `{type: 'evaluate', data: code}`, with code as it is at the call |
| EditorClient.Editor.Tick | code-editor/src/context/editor.tsx:42-53 | a waiting payload is sent once, on the current socket, only when it is open, and then stops waiting |
| EditorClient.Editor.SocketState | code-editor/src/context/editor.tsx:42 | only the ready state changes |
| EditorClient.Editor.SetCode | code-editor/src/context/editor.tsx:36 | only the code changes |
| EditorClient.Editor.ClearStd | code-editor/src/context/editor.tsx:60-63 | both panes become empty |
| EditorClient.Editor.HandleStdErr | code-editor/src/context/editor.tsx:64-67 | stderr shows the data, and stdout is empty |
| EditorClient.Editor.HandleStdOut | code-editor/src/context/editor.tsx:68-71 | stdout shows the data, and stderr is empty |
| EditorClient.Editor.OnMessage | code-editor/src/context/editor.tsx:94-105 | a frame on a socket that has the `onmessage` handler makes the panes `AfterFrame` of what they were; on any other socket it is dropped; nothing else changes |
| EditorClient.Editor.OnMessages | code-editor/src/context/editor.tsx:94-105 | a run of frames leaves the panes at `AfterFrames` on a socket with the handler, and as they were otherwise |
| EditorClient.ReplyAfterReconnectIsLost | code-editor/src/context/editor.tsx:43-53 | after `emit` has had to reconnect, a reply arriving on the new socket leaves both panes as they were |
| EditorClient.EmitThenOpen | code-editor/src/context/editor.tsx:42-53 | a payload emitted while the socket is closed goes out once, on the new socket, after it opens |
| LanguageServer.Reply | language-server/server/handlers/websocket.go:49-70 | only a non-blank evaluate gets a reply: stderr when the error output is not blank, else stdout |
| LanguageServer.HandleWebSocket | language-server/server/handlers/websocket.go:36-71 | sends `connected` first, then the reply to each message in order |
| LanguageServer.OneReplyPerEvaluate | language-server/server/handlers/websocket.go:49-70 | there is one reply per non-blank evaluate message, so never more replies than messages |
| LanguageServer.RepliesAreOutput | language-server/server/handlers/websocket.go:56-69 | every reply is a stdout or stderr message with text |
| LanguageServer.RepliesAppend | language-server/server/handlers/websocket.go:40-71 | replies to two runs of messages are the replies to each |
| LanguageServer.SessionShape | language-server/server/handlers/websocket.go:36-54 | `connected` comes first, and a blank or non-evaluate message adds nothing |

## Left out

- Floating point is not modelled: float objects, `evalFloatInfixExpression`,
  int/float promotion and `Float.HashKey`. A path that needs them stops as
  `Unmodelled`.
- Integer `/` by a non-zero divisor is not modelled, because the source picks
  an integer or a float result by formatting a float64. Division by zero is
  modelled and is an error.
- String parsing in `int(...)` and `float(...)`, and the numeric branches of
  `convertable` for string values, are `Unmodelled`.
- TypesBuiltins.ToFloat: does not state that a float converts to itself,
  because floats are not modelled.
- The output of `print` and the stray `fmt.Println` in `reverse` are dropped:
  only their results are modelled. Console and file I/O, the REPL, `main.go`
  and `keys.go` are outside the model.
- `String.HashKey` uses FNV-1a from Go's `hash/fnv`. The model computes it
  (`Objects.Fnv1a`) but no property relies on its value beyond "equal
  strings give equal keys".
- Go map iteration order is unspecified. The model visits a map in insertion
  order, which is one order Go may choose. Properties about `Inspect`,
  `Iters`, `mapKeys`, `mapValues` and `mapEntries` are stated per pair, not
  about any other order.
- Evaluator.EvalHashLiteral: evaluates the pairs in source order and, for a
  repeated key, keeps the later pair. The source ranges over a Go map of
  expressions, so both the evaluation order and which duplicate wins are
  unspecified there.
- Basics.Chars: splits a string per byte, while Go's `for range` and
  `string(rune)` split per UTF-8 rune. The string claims here and in the
  members below hold for ASCII text only.
- Objects.StringIters: one item per byte, not per rune; ASCII text only.
- Evaluator.ForItems: a `for` over a string binds one byte per round, not
  one rune; ASCII text only.
- Builtins.Slice: slices a string per byte, not per rune; ASCII text only.
- Builtins.IndexOf: positions in a string are byte positions, not rune
  positions; ASCII text only.
- Operators.StringIndexAsWritten: indexes a string per byte, not per rune;
  ASCII text only.
- Basics.ToUpper: maps only the ASCII letters `a`-`z`, while Go's
  `strings.ToUpper` maps every Unicode lower-case letter.
- Basics.RemoveAll: its own contract gives only the length bound and the
  cases of "" and an absent pattern; which occurrences are removed is stated
  by `Basics.RemoveFirstMatch`.
- Operators.StringOperators: states `-` through the same facts as
  `Basics.RemoveAll`; `Basics.RemoveFirstMatch` says which occurrences go.
- Evaluator.EvalExpr: its own contract says only that evaluation never takes
  back state. The rules for each kind of node are lemmas about it, named in
  its row, because a contract per node would repeat the body.
- Evaluator.EvalStmt: as for `Evaluator.EvalExpr`, its contract says only that
  state is never taken back; its rules are the lemmas named in its row.
- Evaluator.EvalBlock: as for `Evaluator.EvalExpr`, its contract says only that
  state is never taken back; its rules are the lemmas named in its row.
- Evaluator.EvalStmts: as for `Evaluator.EvalExpr`, its contract says only that
  state is never taken back; its rules are the lemmas named in its row.
- Evaluator.EvalExprs: as for `Evaluator.EvalExpr`, its contract says only that
  state is never taken back; `Evaluator.EvalExprsShape`,
  `Evaluator.EvalExprsOne` and `Evaluator.EvalExprsAppend` state its result.
- Evaluator.EvalHashLiteral: as for `Evaluator.EvalExpr`, its contract says only that
  state is never taken back; `Evaluator.HashLiteralPair` and
  `Evaluator.HashLiteralBuilds` state its result.
- Evaluator.ApplyFunction: as for `Evaluator.EvalExpr`, its contract says only that
  state is never taken back; `Evaluator.CallBindsParameters` states how a
  call of a function runs, and `Evaluator.CallOtherwise` states the other
  cases.
- Evaluator.WhileLoop: as for `Evaluator.EvalExpr`, its contract says only that
  state is never taken back; its rules are the lemmas named in its row.
- Evaluator.ForLoop: as for `Evaluator.EvalExpr`, its contract says only that
  state is never taken back; its rules are the lemmas named in its row.
- Evaluator.ProgramFrom: as for `Evaluator.EvalExpr`, its contract says only that
  state is never taken back; its rules are the lemmas named in its row.
- Evaluator.EvalProgram: as for `Evaluator.EvalExpr`, its contract says only that
  state is never taken back; its rules are the lemmas named in its row.
- The model does not share backing arrays between Go slices. Each Array
  object owns its cell, so `copy`, `slice`, `push` and `a * n` never alias
  an existing array's storage. `pop` and `a - n` shift their
  operand's own storage. The evaluator runs them as written
  (`ArrayBuiltins.PopAsWritten`, `Operators.RemoveAtAsWritten`), and these
  write the shifted elements back into the operand's cell; see Findings.
- A `for` loop over an array iterates over a snapshot of the elements taken
  when the loop starts, while Go re-reads the slice on each round.
- `NewEphemeralScope` is not part of this model, because it is not defined in
  object/environment.go. The `for` loop binds its counter and value in the
  loop's own environment.
- `BREAK` and `CONTINUE` objects are not defined in object/object.go. They
  are separate object kinds with no type name and no inspect text.
- Error objects carry an abstract error kind, not the message text from
  `sonar-lang/errors`. A token's error configuration is taken to always be
  present.
- Non-termination is replaced by fuel: a run that exhausts it stops as
  `OutOfFuel`.
- SliceUtils.SortInPlace: sorts stably, while Go's `sort.Slice` may order
  elements with equal texts differently. The result is still a sorted
  permutation.
- `SortObjectArrayWithFunction` is left out: its type assertion always fails,
  so every call panics.
- `AssignmentExpression.String` and `SquareBracketAssignment.String` write to
  a nil buffer and panic. The printer lemmas exclude trees containing them.
- Builtins.RangeFrom: a step that overflows int64 stops as `Unmodelled`
  rather than wrapping around.
- `convertable` with a map target on a map value, and the rest of
  `ConvertableMap`, follow only the array branch.
- The editor's sockets are reduced to their ready state and to whether the
  context's `onmessage` handler is attached to the current one. Left out:
  - the `onopen` keepalive timer and `setConnected`;
  - React rendering, and so when the mount effect re-runs, and its
    cleanup, which closes the current socket;
  - frames that arrive on a socket after it has been replaced;
  - the rate of the polling interval, which becomes the environment's
    `Tick` calls.
- The language server is reduced to the messages it reads before `ReadJSON`
  fails, and the messages it sends:
  - `utils.Evaluate` runs a subprocess, so it is the parameter `run`;
  - `fmt.Sprint` of data that is not text is modelled only for nil;
  - `server.go` is outside the model.
- The root-level copies of the evaluator, lexer, REPL and main are an older
  snapshot and are not modelled.
- Two surprising behaviours are modelled as written, and not as findings,
  because the tests rely on the surrounding behaviour:
  - a `break` object leaks out of its loop into the enclosing block;
  - the `null` literal evaluates to a freshly allocated, and so truthy, null.

## Findings

| source | as written | input that shows it | evidently intended | confidence | as-written member | corrected member |
|---|---|---|---|---|---|---|
| sonar-lang/evaluator/evaluator.go:809-832 | the upper bound for a string index is the length, and a negative index is shifted by one too many | "abc"[3] and "abc"[-1] panic; "abc"[-3] gives "b" | the array index rules: "abc"[3] is an out-of-range error, "abc"[-1] is "c", "abc"[-3] is "a" | not executed | Operators.StringIndexAsWritten, Operators.StringIndexOffByOne | Operators.StringIndex |
| sonar-lang/evaluator/evaluator.go:646-652 | `a - n` builds its result with `append(a[:n], a[n+1:]...)`, which shifts a's own storage | `let a = [1, 2, 3]; a - 0` leaves a holding [2, 3, 3] | a new array without element n, with a unchanged | not executed | Operators.RemoveAtAsWritten, Operators.RemoveAtChangesOperand, Operators.ArrayRemoveAsWritten | Operators.RemoveAt, Operators.ArrayRemove |
| sonar-lang/evaluator/array.go:40-52 | `pop(a, i)` reads the popped value after the in-place shift | `pop([1, 2, 3], 0)` returns 2 | the element at position i | not executed | ArrayBuiltins.PopAsWritten, ArrayBuiltins.PopReturnsNeighbour, ArrayBuiltins.PopAsWrittenRemoves | ArrayBuiltins.Pop, ArrayBuiltins.PopRemoves |
