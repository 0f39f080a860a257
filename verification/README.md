# ccjs core in Dafny

ccjs is a toy compiler for a small subset of C, written in TypeScript. It
has three stages:

1. The tokenizer (`src/tokenize.ts`) splits source text into reserved
   operators, identifiers and decimal numbers, each with its offset, and
   ends the list with an end marker.
2. The recursive-descent parser (`src/parse.ts`) turns tokens into a list
   of function definitions. It assigns every local variable an 8-byte
   slot below the frame base.
3. The generator (`src/generate.ts`) writes Intel-syntax x86-64 assembly
   for a stack machine. Every expression pushes one value. Operators pop
   their operands into `rax` and `rdi`. `if`, `while` and `for` take
   numbered labels from one counter shared by the whole program.

This project models the three stages as pure Dafny functions and proves
properties about them:

- The tokenizer's tokens are well formed and sit where they claim in the
  source. Unless a digit is followed by `x` or `X`, it fails exactly on
  characters no rule accepts. A `0x` prefix makes `parseInt` read base 16,
  and then the source can fail or loop forever.
- The parser is the inverse of a printer for expression trees, which
  covers precedence, associativity, `>`-swapping and unary signs. Its
  variable table keeps distinct, 8-aligned slots.
- The generated code for every expression is correct against an
  evaluator, on an abstract machine that models the instructions the
  generator emits. Label numbers are never reused, and every jump lands
  on a label that exists.
- Function frames, `return`, and the way a program's code grows function
  by function.

Modules:

| file | module | models |
|---|---|---|
| `wrappers.dfy` | `Wrappers` | `Option`, `Result`, and the two kinds of diagnostic (positioned, fatal) |
| `decimal.dfy` | `Decimal` | `parseInt` and `toString` on decimal digit strings |
| `tokenize.dfy` | `Tokenizer` | `strtol` and `tokenize` |
| `tokenize_props.dfy` | `TokenizerProps` | blank input, failure, faithfulness of the scanner |
| `ast.dfy` | `Ast` | the syntax tree |
| `parse.dfy` | `Parser` | every parsing function and the variable table |
| `parse_props.dfy` | `ParserProps` | printer/parser round trip and the grammar's special cases |
| `machine.dfy` | `Machine` | the instructions the generator emits, and a machine that runs them |
| `semantics.dfy` | `Semantics` | an evaluator for expression trees: the meaning the generated code must have |
| `generate.dfy` | `Generator` | `generateCode`, `gen`, `genLval` and `argRegisters` |
| `generate_props.dfy` | `GeneratorProps` | code correctness and stack effect of expressions |
| `labels.dfy` | `GeneratorLabels` | label numbering and jump targets |
| `layout.dfy` | `GeneratorLayout` | function frames, `return`, program order, unsupported nodes |
| `call_order.dfy` | `CallOrder` | the outermost call's sequence as the source writes it (second finding) |
| `samples.dfy` | `Samples` | expressions from the repository's test suite, followed through the model |

A diagnostic is a `Failure` value in the model. A positioned one
(`errorAt(pos, msg)`) carries its offset. A fatal one carries only a
message: a thrown `Error`, a `process.exit(1)` without position, or the
crash on an unsupported node. A loop of the source that makes no
progress, and so never returns, is the failure `Diverges`.

## Model

| member | source | states |
|---|---|---|
| Decimal.NatToString | src/tokenize.ts:76 | `val.toString()` is a canonical digit string (no leading zero unless it is `0`); it has one digit exactly when the value is below 10 |
| Decimal.ValueOfString | src/tokenize.ts:26 | reading back a rendered number gives the number |
| Decimal.StringOfValue | src/tokenize.ts:26 | a canonical digit string is the rendering of its own value |
| Decimal.StripZeros | src/tokenize.ts:32 | drops only leading zeros, keeps a suffix of the input, and the result is canonical |
| Decimal.LeadingZero | src/tokenize.ts:26 | a leading zero does not change the value `parseInt` reads |
| Decimal.RenderStripped | src/tokenize.ts:26-32 | `toString(parseInt(run))` is the run without its leading zeros, so `replace` finds it inside the run |
| Tokenizer.WordRunLength | src/tokenize.ts:61-70 | the identifier run is maximal: all word characters, followed by the end of input or by a non-word character |
| Tokenizer.DigitRunLength | src/tokenize.ts:26 | the digit run `parseInt` reads is maximal |
| Tokenizer.FindFrom | src/tokenize.ts:32 | finds the first occurrence of the pattern, or reports that there is none |
| Tokenizer.ParseInt | src/tokenize.ts:73 | `parseInt` gives a number only on text starting with a digit; on such text it is `NaN` only for a `0x` or `0X` prefix with no hexadecimal digit after it |
| Tokenizer.ReplaceFirst | src/tokenize.ts:32 | `replace` never lengthens the text and only keeps characters of it; the text is unchanged exactly when the pattern does not occur |
| Tokenizer.Strtol | src/tokenize.ts:25-33 | on `NaN` it returns 0 and the text unchanged; otherwise the value `parseInt` reads and a text no longer than the input, using only its characters; for a decimal literal the text is strictly shorter, and when the run has no leading zeros it is exactly the text after the run and the value renders as the run |
| Tokenizer.Scan | src/tokenize.ts:39-82 | from the current offset on: success gives exactly one end marker, placed last, and well-formed tokens at strictly increasing offsets inside the source; a failure that is not divergence is "failed to tokenize" at an offset at or after the current one |
| Tokenizer.ScanNumber | src/tokenize.ts:73-77 | when `strtol` leaves the text unchanged, the number rule never returns; otherwise it keeps the guarantees of `Scan` |
| Tokenizer.Tokenize | src/tokenize.ts:35-87 | the same for the whole source: one end marker, placed last; tokens well formed, in order and in range; a failure that is not divergence lies at an offset inside the source |
| TokenizerProps.ScanBlank | src/tokenize.ts:39-47 | a scan yields only the end marker if and only if the unread text is whitespace |
| TokenizerProps.TokenizeBlank | src/tokenize.ts:35-87 | `tokenize` returns only the end marker if and only if the source is all whitespace (empty included) |
| TokenizerProps.StrtolRemoval | src/tokenize.ts:25-33 | on a decimal literal `strtol` removes one contiguous block of the digit run, and only zeros precede that block |
| TokenizerProps.ScanFailsOnlyOutsideAlphabet | src/tokenize.ts:44-81 | when no digit of the source is followed by `x` or `X`, a failed scan is positioned and points at a source character that no rule can start with |
| TokenizerProps.ScanTotalOnAlphabet | src/tokenize.ts:44-78 | when no digit of the source is followed by `x` or `X`, a scan of text in which every character can start some rule succeeds |
| TokenizerProps.TokenizeFailure | src/tokenize.ts:35-87 | both directions, for sources in which no digit is followed by `x` or `X`: tokenizing fails only at a character outside the alphabet, and source made only of alphabet characters tokenizes |
| TokenizerProps.HexWithoutDigitsFails | src/tokenize.ts:73-81 | a `0x` prefix with no hexadecimal digit after it is `NaN`, so the scan fails there with "failed to tokenize" |
| TokenizerProps.HexNotFoundDiverges | src/tokenize.ts:25-33 | a base-16 literal whose value's decimal rendering does not occur in the text leaves the text unchanged, so the tokenizer never returns |
| TokenizerProps.HexWithoutDigits | src/tokenize.ts:73-81 | `0x;`, made only of alphabet characters, fails at offset 0 |
| TokenizerProps.HexNeverEnds | src/tokenize.ts:26-32 | `0x1F;` reads as 31, `31` does not occur, and the tokenizer never returns |
| TokenizerProps.NumberFaithful | src/tokenize.ts:73-77 | for a decimal literal without leading zeros, the number token's text is the literal at its offset, the whole digit run, and its value is the literal's value |
| TokenizerProps.ScanFaithful | src/tokenize.ts:39-82 | every token's text occurs at its offset; identifiers and numbers are maximal runs; `<`, `>` and `=` are never followed by `=` (the two-character rule wins) |
| TokenizerProps.TokenizeFaithful | src/tokenize.ts:35-87 | the same faithfulness for the whole source, when its literals have no leading zeros and no `0x` prefix |
| TokenizerProps.IdentLoopStallsAtEnd | src/tokenize.ts:64-67 | as written, once the text is used up the identifier loop's guard still holds and its body changes nothing (first finding) |
| Parser.Declare | src/parse.ts:352-353 | the new name gets slot `8 * (count + 1)`; every other name keeps its slot; the new slot lies beyond every existing one in a well-formed table |
| Parser.DeclareInFrame | src/parse.ts:352-353 | registering the (k+1)-th name keeps every slot a multiple of 8 between 8 and 8(k+1) |
| Parser.DeclareDistinct | src/parse.ts:352-353 | registering a name keeps slots pairwise distinct |
| Parser.Next | src/parse.ts:91-97 | the first token when there is one; "there are no tokens" otherwise |
| Parser.Expect | src/parse.ts:131-139 | both directions: it consumes the token exactly when the token is the reserved operator asked for; otherwise "could not find" at that token's offset, or "there are no tokens" |
| Parser.ExpectKind | src/parse.ts:141-151 | both directions: it returns and consumes the token exactly when the token has the kind asked for; otherwise "expected" at its offset |
| Parser.ParseExpr | src/parse.ts:280-282 | on success it consumes at least one token, and the tree uses only declared variables |
| Parser.ParseAssign | src/parse.ts:270-278 | on success it consumes at least one token, and the tree uses only declared variables |
| Parser.ParseEquality | src/parse.ts:256-268 | on success it consumes at least one token, and the tree uses only declared variables |
| Parser.ParseRelational | src/parse.ts:238-254 | on success it consumes at least one token, and the tree uses only declared variables |
| Parser.ParseAdd | src/parse.ts:224-236 | on success it consumes at least one token, and the tree uses only declared variables |
| Parser.ParseMul | src/parse.ts:210-222 | on success it consumes at least one token, and the tree uses only declared variables |
| Parser.ParseUnary | src/parse.ts:194-208 | on success it consumes at least one token, and the tree uses only declared variables |
| Parser.ParsePrimary | src/parse.ts:153-192 | on success it consumes at least one token, and the tree uses only declared variables |
| Parser.ArgList | src/parse.ts:166-175 | a non-empty argument list; it consumes the closing parenthesis; the arguments use only declared variables |
| Parser.CallArgs | src/parse.ts:163-177 | arguments after `(`, possibly none; at least one token consumed |
| Parser.ForClause | src/parse.ts:326-337 | a `for` clause is absent exactly when its closing token follows at once |
| Parser.ParseStmt | src/parse.ts:284-361 | consumes at least one token; the variable table only grows and stays well formed; the statement uses only variables of the resulting table |
| Parser.ReturnStmt | src/parse.ts:293-297 | the same, and the node is a `return` |
| Parser.IfStmt | src/parse.ts:299-311 | the same, and the node is an `if` |
| Parser.WhileStmt | src/parse.ts:313-321 | the same, and the node is a `while` |
| Parser.ForStmt | src/parse.ts:323-342 | the same, and the node is a `for` |
| Parser.IntDeclStmt | src/parse.ts:344-356 | the same, and the node is a declaration |
| Parser.StmtList | src/parse.ts:285-290 | statements up to the closing brace; the table only grows and stays well formed |
| Parser.ParamList | src/parse.ts:372-389 | at least one parameter, each a local variable node; the table only grows and stays well formed |
| Parser.ParseFunc | src/parse.ts:363-399 | yields a function node; the table only grows and stays well formed; the body uses only declared variables |
| Parser.Functions | src/parse.ts:401-407 | every node is a function definition; the table only grows |
| Parser.Parse | src/parse.ts:401-409 | every top-level node is a function; there is a well-formed table under which every variable node refers to a declared slot |
| ParserProps.ExprRoundTrip | src/parse.ts:153-282 | parsing the printed form of any expression tree gives back that tree: precedence and left associativity as the grammar states them |
| ParserProps.AssignRoundTrip | src/parse.ts:270-278 | the same at the assignment level, which associates to the right |
| ParserProps.EqualityRoundTrip | src/parse.ts:256-268 | the same at the equality level |
| ParserProps.RelationalRoundTrip | src/parse.ts:238-254 | the same at the relational level |
| ParserProps.AddRoundTrip | src/parse.ts:224-236 | the same at the additive level |
| ParserProps.MulRoundTrip | src/parse.ts:210-222 | the same at the multiplicative level |
| ParserProps.UnaryRoundTrip | src/parse.ts:194-208 | the same at the unary level |
| ParserProps.PrimaryRoundTrip | src/parse.ts:153-192 | the same for numbers, variables, calls and parenthesised expressions |
| ParserProps.ArgsRoundTrip | src/parse.ts:166-175 | a printed comma-separated argument list followed by `)` reads back as the same arguments |
| ParserProps.GreaterSwaps | src/parse.ts:246-249 | `a > b` parses to `b < a`, and `a >= b` to `b <= a` |
| ParserProps.UnarySigns | src/parse.ts:195-200 | unary `+x` parses to `x`, and `-x` to `0 - x` |
| ParserProps.PrecedenceExample | src/parse.ts:210-236 | `5+6*7` parses to `5 + (6 * 7)` |
| ParserProps.IntDeclaration | src/parse.ts:344-356 | `int x;` for a new `x` registers it at the next slot; for a known `x` it reports "duplicate definitions" at the name |
| ParserProps.VariableLookup | src/parse.ts:180-184 | a name not followed by `(` reads as its slot, or reports "undefined variable" at its offset |
| ParserProps.ForClauseRoundTrip | src/parse.ts:326-337 | an absent or printed `for` clause reads back as itself |
| ParserProps.ForHeader | src/parse.ts:323-342 | a `for` header with any combination of absent clauses reads back as those clauses, followed by the body |
| ParserProps.OneParamFunc | src/parse.ts:363-399 | `int f(int x) {}` parses to a one-parameter function whose parameter takes `x`'s existing slot or a new one |
| ParserProps.SharedTable | src/parse.ts:88-89 | two functions naming the same parameter share its slot: the table belongs to the whole parse |
| Machine.TruncDivSpec | src/generate.ts:178-182 | `idiv` rounds toward zero: the quotient's magnitude is the quotient of the magnitudes, and a non-zero quotient is positive exactly when the operands have the same sign |
| Machine.DivRemIdentity | src/generate.ts:178-182 | quotient and remainder fit together: quotient times divisor plus remainder is the dividend, and the remainder is smaller in magnitude than the divisor |
| Semantics.Apply | src/generate.ts:164-210 | operator meaning: undefined exactly for division by zero; comparisons yield 0 or 1 |
| Semantics.EvalArgs | src/generate.ts:53-57 | one value per argument, or none when some argument has no value |
| Generator.ArgRegister | src/generate.ts:3-10 | both directions: argument i has a register exactly when i < 6, and then it is the i-th of rdi, rsi, rdx, rcx, r8, r9; otherwise "up to 6 arguments" |
| Generator.GenLval | src/generate.ts:18-27 | both directions: an address is generated exactly for a local variable; otherwise "not left value" |
| Generator.PopArgs | src/generate.ts:52-62 | pops n values into the argument registers, last register first |
| Generator.Gen | src/generate.ts:29-213 | the label counter never decreases |
| Generator.GenOptional | src/generate.ts:139-152 | an absent `for` clause emits nothing and takes no label |
| Generator.GenStmts | src/generate.ts:76-91 | the label counter never decreases across a statement list |
| Generator.GenArgs | src/generate.ts:52-58 | the arguments of a call generate only when there are at most six |
| Generator.GenAll | src/generate.ts:219-221 | the label counter never decreases across a program |
| Generator.GenerateCode | src/generate.ts:216-221 | the output starts with the two directives |
| GeneratorProps.ExprCorrect | src/generate.ts:29-213 | for every expression, running its code gets stuck exactly when the evaluator has no value; otherwise it pushes the evaluator's value on top of the old stack, leaves memory as the evaluator does, and keeps the frame base |
| GeneratorProps.LVarCorrect | src/generate.ts:35-41 | reading a variable pushes the value at its slot |
| GeneratorProps.AssignCorrect | src/generate.ts:42-51 | an assignment stores the right-hand value at the slot and pushes it |
| GeneratorProps.BinaryCorrect | src/generate.ts:159-213 | a binary operator pushes the operator applied to both operands' values, left first |
| GeneratorProps.CallCorrect | src/generate.ts:52-62 | a call passes the argument values, in order, to the callee and pushes its result |
| GeneratorProps.ArgsCorrect | src/generate.ts:52-57 | the argument code pushes the evaluator's argument values, in order |
| GeneratorProps.ExprNetEffect | src/generate.ts:29-213 | every expression's code has a net stack effect of exactly one push |
| GeneratorProps.ArgsNetEffect | src/generate.ts:53-57 | the argument code pushes one value per argument |
| GeneratorProps.ComparisonIsBit | src/generate.ts:183-206 | a comparison's code runs exactly when both operands evaluate, and then pushes 0 or 1 |
| GeneratorProps.OpCodeRun | src/generate.ts:164-210 | the operator instructions run exactly when the operator is defined on rax and rdi, and leave its value in rax |
| GeneratorProps.BinaryTailRun | src/generate.ts:161-212 | after both operands, pop rdi and rax, operate, then push the result over the remaining stack |
| GeneratorProps.StoreTailRun | src/generate.ts:46-49 | the store sequence writes the value at the address and pushes the value |
| GeneratorProps.LoadTailRun | src/generate.ts:37-39 | the load sequence replaces an address by the value stored there |
| GeneratorProps.AddressRun | src/generate.ts:24-26 | the address sequence pushes frame base minus offset |
| GeneratorProps.PopArgsRun | src/generate.ts:52-57 | popping pushed argument values puts each value in its own register |
| GeneratorProps.CallTailRun | src/generate.ts:59-60 | the pops, the `call` and the push leave the callee's result for the popped values |
| GeneratorProps.LabelFree | src/generate.ts:29-213 | expression code takes no label and contains no label, jump or `ret` |
| GeneratorLabels.GenLabels | src/generate.ts:101-156 | the code for any node defines only label numbers in the range it was handed, never defines one twice, and jumps only to labels it defines |
| GeneratorLabels.OptionalLabels | src/generate.ts:139-152 | the same for an optional `for` clause |
| GeneratorLabels.StmtsLabels | src/generate.ts:76-91 | the same for a statement list |
| GeneratorLabels.ArgsLabels | src/generate.ts:53-57 | the same for call arguments |
| GeneratorLabels.ParamsPlain | src/generate.ts:70-74 | parameter stores contain no label and no jump |
| GeneratorLabels.IfLabels | src/generate.ts:101-122 | the same for `if`, with or without `else` |
| GeneratorLabels.IfElseLabels | src/generate.ts:106-114 | the same for the `else` form, given its parts |
| GeneratorLabels.WhileLabels | src/generate.ts:123-135 | the same for `while` |
| GeneratorLabels.ForLabels | src/generate.ts:136-156 | the same for `for` |
| GeneratorLabels.ForExit | src/generate.ts:143-148 | both directions: a `for` jumps to its exit label exactly when it has a condition; without one the loop has no way out |
| GeneratorLabels.AllLabels | src/generate.ts:219-221 | the same for a list of functions with one counter: no label number repeats across functions |
| GeneratorLabels.ProgramLabels | src/generate.ts:12-16 | in the whole output, no numbered label is defined twice and every jump target is defined |
| GeneratorLabels.DuplicateFunctionLabel | src/generate.ts:63-65 | function labels are not kept apart: two functions named `f` both emit `f:` |
| GeneratorLayout.FuncLayout | src/generate.ts:63-85 | a function is its label, a prologue reserving 208 bytes, the parameter stores, the statements, and the epilogue |
| GeneratorLayout.ParamsFail | src/generate.ts:70-74 | both directions: parameters generate exactly when there are at most six and all are variables |
| GeneratorLayout.ArgsFail | src/generate.ts:52-58 | both directions, for expression arguments: they generate exactly when there are at most six and each generates on its own |
| GeneratorLayout.ReturnValue | src/generate.ts:93-100 | `return e` leaves e's value in rax, restores the caller's frame base, and the stack pointer and stack as the caller had them, before `ret` |
| GeneratorLayout.LeaveRun | src/generate.ts:95-97 | the three instructions before `ret` pop the value into rax and unwind the frame |
| GeneratorLayout.AllAppend | src/generate.ts:219-221 | both directions: generating two node lists in turn is generating their concatenation, with the counter carried over |
| GeneratorLayout.ProgramGrows | src/generate.ts:216-221 | adding a function leaves the earlier output unchanged and appends the new function's code |
| GeneratorLayout.StmtsFail | src/generate.ts:157-160 | a statement list containing a declaration, a dereference or an address-of fails to generate |
| GeneratorLayout.FuncFails | src/generate.ts:63-85 | so a function whose body declares a local with `int` fails to generate |
| CallOrder.ArgsAsWritten | src/generate.ts:53-57 | the interleaved argument code, as written; it fails on the same inputs as the corrected code and takes the same labels |
| CallOrder.CallAsWritten | src/generate.ts:52-62 | the call as written; it fails on the same inputs as the corrected code and takes the same labels |
| CallOrder.ArgumentClobbered | src/generate.ts:52-62 | for `f(1, 2+3)` with `f` returning its first argument: the value is 1, the as-written code pushes 3, and the corrected code pushes 1 (second finding) |
| Samples.AddMul | test/ccjs.test.ts:50-53 | `5+6*7` parses to `5 + (6 * 7)`, and its code leaves 47 |
| Samples.Halve | test/ccjs.test.ts:60-63 | `(3+5)/2` leaves 4 |
| Samples.Greater | test/ccjs.test.ts:80-88 | `1+1>=2` leaves 1 and `1>2` leaves 0 |
| Samples.AssignThenRead | src/generate.ts:35-51 | `a=1` stores 1 in `a`'s slot and leaves 1; reading `a` afterwards leaves 1 |

## Left out

- Console output is not modelled. The generator's `console.log` lines become a returned instruction list, and each instruction stands for one printed line. When the source stops with an error it has already printed some lines; the model returns only the failure.
- `errorAt` (`src/error.ts`) only prints a message and does not stop the program, so the source parser carries on with an undefined value. The model ends the parse at the first positioned diagnostic, which is what the source's design intends.
- The model has no process exit code. A program's exit status (`main`'s value modulo 256) is outside the model.
- Integers are unbounded. The model does not wrap at 64 bits, does not model `idiv`'s 128-bit dividend or its overflow trap, and does not model JavaScript's 53-bit number precision in `parseInt`.
- `Strtol` models `parseInt` on text that starts with a digit, which is the only text the number rule sees: a `0x`/`0X` prefix reads base 16, anything else reads decimal digits. A sign or a fraction cannot start that text. Literals with leading zeros are modelled as JavaScript treats them (`007` becomes three tokens 7, 0, 0), but the faithfulness lemmas assume no such literal and no `0x` prefix.
- TokenizerProps.ScanTotalOnAlphabet: assumes that no digit of the source is followed by `x` or `X`. Without that, a `0x` prefix can fail (`0x;`) or loop forever (`0x1F;`), even when it only appears once leading zeros are stripped (`0012x`). The condition is sufficient, not exact: `a1x` also contains a digit followed by `x` and still tokenizes.
- TokenizerProps.TokenizeFailure: both directions assume the same condition, for the same reason. The sources with a `0x` prefix are not characterised further. HexWithoutDigitsFails and HexNotFoundDiverges give the two ways they go wrong.
- Strings are sequences of characters; UTF-16 surrogate pairs are not modelled. Whitespace is the set of characters `String.prototype.trim` removes, listed character by character.
- The locals table is a map. Object-prototype names such as `constructor`, which a JavaScript object lookup would find, are not modelled.
- The tokenizer and the parser are not composed. The source parser asks for keyword token kinds (`return`, `if`, `int`, ...) and for `{`, `}` and `,`. `src/tokenize.ts` produces none of these. The parser therefore reads its own token type, which has keyword tokens.
- Positions of parser tokens in the parser examples are 0, as the examples only concern tree shape.
- `src/ccjs.ts` (whose `compile` does not call the three stages), `src/bin`, and the test suite's file and process handling are not part of this model. `setSrc` and the caret display in `src/error.ts` are left out as output formatting.
- Label names are a datatype (kind and number) rather than strings such as `.Lelse3`. Distinct numbers give distinct names.
- The machine is an abstract stack machine. It has registers, a value stack, and memory as a map from addresses to values. `push`/`pop` act on that stack rather than on memory below `rsp`, so stack alignment and the 208-byte frame's capacity (26 slots) are not modelled. `sub rsp, 208` only updates the register.
- The callee of a `call` is a parameter: a function from name and argument values to a result, and its effect on the argument registers. It does not touch the caller's stack or memory. The `call` instruction carries the argument count, which the printed assembly does not show.
- Generator.Gen: the stack effect and run-time behaviour of statements (blocks, `if`, `while`, `for`, functions) are not proved. Only their label discipline and layout are. The source leaves the values of `for`'s init and post expressions on the stack and pops after `if`/`while` statements that push nothing, which the model reproduces without proving anything about it.
- Generator.Gen: the `call` case emits the corrected sequence: every argument is pushed, then all are popped into their registers just before the `call`. This is the corrected half of the second finding. The sequence the source writes at `src/generate.ts:53-57` is kept in `CallOrder.CallAsWritten`.
- Generator.Gen: a declaration (`int x;`), a dereference and an address-of have no generator case. The source then calls `gen` on an undefined operand and crashes; the model fails with a fatal error (see GeneratorLayout.StmtsFail). As a result the test suite's examples that declare locals do not compile with this version of the source. The model keeps that behaviour.
- Identical input always gives identical output, because every stage is a function. The label counter restarts at 0 for each call of `generateCode`.

## Findings

| source | as written | input that shows it | evidently intended | confidence | as-written member | corrected member |
|---|---|---|---|---|---|---|
| src/tokenize.ts:64 | the identifier loop tests `/\w/` on `cur[0]`, which is `undefined` once the text is used up; the test sees the string "undefined", matches, and the loop body removes nothing, so the loop never ends | `a` (any identifier at the very end of the source) | the loop stops at the end of the input | high, not executed | TokenizerProps.IdentLoopStallsAtEnd | Tokenizer.WordRunLength |
| src/generate.ts:52-62 | each argument is popped into its register right after its own code, so a later argument's code can overwrite an earlier argument's register (every binary operator pops into `rdi`, and a nested call may change all six) | `f(1, 2+3)` where `f` returns its first argument: `f` receives 3 in `rdi` and the call yields 3 | all arguments are pushed first and popped into their registers just before the `call`, so the callee receives 1 and 5 | high, not executed | CallOrder.ArgumentClobbered | GeneratorProps.CallCorrect |

In the model, `Tokenizer.Scan` uses the corrected identifier run and `Generator.Gen` uses the corrected call sequence (`Generator.PopArgs`). The as-written versions (`Tokenizer.IdentGuardAsWritten`, `Tokenizer.IdentStepAsWritten`, `CallOrder.CallAsWritten`) sit beside them.
