# pyScm in Dafny

A model of pyScm, a small Scheme interpreter written in Python 2 (`pyscm.py`),
together with proofs about it. The model covers the whole interpreter except
the write to standard output:

- the reader, which splits text into tokens and folds them into nested lists
  with a stack, rewriting `'x` into `(quote x)` and wrapping the top-level
  forms in `begin`;
- the token tests (`is_number`, `is_string`, `is_primitive`, `is_variable`,
  the tagged-list tests);
- quotation (`pylist_to_pairs`) and `map_recursively`;
- the symbol table with `make_symbol` and `make_boolean`;
- the environment chain: lookup, `define` and `set!`;
- `let_to_lambda`;
- the trampolined `evaluate` loop with its `if`, `cond`, `begin`, `let` and
  application branches;
- the primitive library and `make_base`;
- `run`.

Modules, one per part of the program:

- `Base`: outcomes. `Result` and `Option`, and the error kinds the
  interpreter's exceptions are collapsed into.
- `Syntax`: the parsed form `Sexp = Atom(string) | SList(seq<Sexp>)`,
  Python-style indexing on characters, and the token predicates. `is_number` is decided by
  the grammar Python's `float()` accepts.
- `Reader`:
  - a character scanner standing in for `re.split`;
  - the parser's stack machine, as spec functions and as the imperative
    `Parse` loop;
  - a printer, with the round trip from printed forms back to the tree.
- `Interner`: the symbol table, a map from name to `Symbol`. A symbol's
  identity (Python's `is`) is the number the table gives it when it first
  creates it.
- `Values`: run-time values (numbers, strings, symbols, pairs, `None`, closures,
  primitives) and `map_recursively`.
- `Primitives`: the library functions, with `reduce` folds, Python 2 flooring
  division and `make_boolean` answers.
- `Environment`: frames live in a store `seq<Frame>`. A frame's index is its
  identity, so closures and child frames that share a frame see each other's
  `define` and `set!`. The reserved `'**parent**'` key is the frame's `parent`
  field.
- `Evaluator`: `evaluate` as functions of an explicit `State` (frames and
  symbol table).
  - `Step` is one pass of the `while True` loop. It either returns or
    continues with a new `exp` and `env`.
  - `Eval` runs at most `fuel` passes. Running out of fuel stands for an
    evaluation that does not end.
- `Fuel`: more fuel never changes an outcome that was reached.
- `TableGrowth`: evaluation only adds symbols to the table.
- `Semantics`: what the evaluator promises about quotation, `let`, truth,
  `if` and `cond`, application, `define`, `set!`, and the two forms on which
  the loop never ends.
- `Interpreter`: a class whose fields are the frame store and the symbol table.
  Its invariant `Valid` says that frames refer only to existing frames and
  that the table gives distinct names distinct identities.
  - `make_symbol`, `make_boolean`, `make_base` and `run` are methods that
    update them.
  - `evaluate` is a `while true` loop that reassigns `exp` and `env`. It is
    proved equal to `Eval`, and so is each branch method it calls.
- `Scenarios`: concrete runs taken from the program's unit tests (`tests.py`).

Where the program's documentation and its code disagree, the model follows
the code:

- `>=` is bound to the `gt` function (pyscm.py:406), so `(>= 2 2)` is `#f`.
- An `if` with 2, or 5 or more, elements does not fail on its length. Each
  pass evaluates its test and, if that gives no error, goes round the loop
  again on the same `if`; so it goes round for as long as its test evaluates
  without error (forever for `(if 1)`, `Semantics.IfOfTwoLoops`), and a test
  error is returned. `(if)` alone has no test to read and fails with an
  IndexError.
- Applying something that is neither a primitive nor a closure also goes
  round again on the same form. Every pass evaluates all of its elements
  again, and an error there is returned; when they all evaluate, as in `(5)`,
  the loop never ends (`Semantics.ApplyNumberLoops`).
- An unmatched `(` is not an error. The open list is dropped
  (`Scenarios.ParseUnclosed`).
- `set!` of an unbound name fails with a `KeyError` on `'**parent**'`, not
  with the "Undefine variable" exception of lookup. The model gives `Fault`
  there and `Unbound(name)` only for lookup.
- The empty program parses to `(begin)`. Evaluating it looks up the name
  `begin`, so it does not give an empty result
  (`Scenarios.EmptyProgramLooksUpBegin`).

## Model

| member | source | states |
|---|---|---|
| Syntax.NumeralValue | pyscm.py:264-267 | inf and nan fail as names; a token whose unsigned part is not all digits is a float, outside the model; a multi-digit token with a leading zero is octal and fails exactly when it holds an 8 or 9; any other digit token is its decimal value; a `-` sign negates |
| Syntax.DigitsValueAppend | pyscm.py:266-267 | appending a digit multiplies the value by the base and adds the digit |
| Syntax.DigitsValueConcat | pyscm.py:266-267 | in `a + b` the digits of `a` count `len(b)` places higher: value(a) · base^len(b) + value(b) |
| Syntax.LeadingZero | pyscm.py:266-267 | a leading zero does not change a digit string's value in any base |
| Syntax.DigitsNotSpecial | pyscm.py:69-75 | no digit string spells inf or nan |
| Syntax.IntegerToken | pyscm.py:69-90 | a digit string, signed or not, is a number, is no spelling of inf or nan, and is not a string |
| Syntax.StripQuotes | pyscm.py:268-269 | `strip('"')` gives a contiguous slice of its input with no double quote at either end, and everything cut off on either side is double quotes |
| Reader.Scan | pyscm.py:18-19 | every piece left after splitting and dropping blanks is a token: a single `(`, `)` or `'`, or a non-empty word with no whitespace or delimiter |
| Reader.Tokenize | pyscm.py:18-19 | every piece of the text is a token |
| Reader.ScanSplit | pyscm.py:18-19 | a whitespace or delimiter character cuts the text: the tokens of the whole are the left part's, then the delimiter's, then the right part's |
| Reader.ScanSeparator | pyscm.py:18-19 | a whitespace character gives no token and a delimiter is a token of its own |
| Reader.TokenizeAtSpace | pyscm.py:18-19 | whitespace anywhere only splits and leaves no token |
| Reader.TokenizeAtDelimiter | pyscm.py:18-19 | a parenthesis or quote mark is a token of its own wherever it appears, even inside a word |
| Reader.ScanWord | pyscm.py:18-19 | a run of characters without whitespace or delimiters is one token |
| Reader.TokenizeToken | pyscm.py:18-19 | a token alone tokenizes to itself |
| Reader.TokenizeUnwords | pyscm.py:18-19 | tokens joined with single spaces tokenize back to the same tokens |
| Reader.Attach | pyscm.py:26-38 | a finished element is appended to the open list, unless the list ends with a quote mark, which is replaced by `(quote x)` |
| Reader.Shift | pyscm.py:21-38 | one token fails exactly when it is `)` with only the outermost list open; on success a list is always open |
| Reader.Feed | pyscm.py:21-38 | the stack of open lists never empties while tokens are read |
| Reader.Parse | pyscm.py:16-41 | the imperative stack loop gives exactly the result of the spec function `ParseText` |
| Reader.TokensValid | pyscm.py:18-19 | the printed form of a datum consists only of tokens |
| Reader.FeedWord | pyscm.py:32-34 | a word token joins the innermost open list |
| Reader.FeedClosed | pyscm.py:22-31 | `(`, the tokens of some forms and `)` attach one list of exactly those forms to the enclosing list |
| Reader.FeedDatum | pyscm.py:21-38 | reading a printed datum, with or without `'` sugar, appends that datum to the open list |
| Reader.FeedAll | pyscm.py:21-38 | reading several printed data appends them in order |
| Reader.ParsePrint | pyscm.py:16-41 | parsing printed forms gives `begin` followed by those forms in source order |
| Reader.QuoteSugarInvisible | pyscm.py:26-38 | `'x` and `(quote x)` parse to the same tree |
| Reader.TokenizeAtBoundary | pyscm.py:18-19 | cut between two tokens (an empty side, or whitespace or a delimiter next to the cut), the text tokenizes as its two parts do |
| Reader.ParseWhitespaceAtBoundary | pyscm.py:16-41 | whitespace added at any token boundary leaves the parse unchanged |
| Reader.ParseTokens | pyscm.py:21-41 | the tokens parse exactly when the stack machine accepts them, and the result is a list headed by `begin` |
| Reader.ParseText | pyscm.py:16-41 | a successful parse is a list headed by `begin` |
| Reader.ParseExtraWhitespace | pyscm.py:18-19 | an extra whitespace character or newline next to another one never changes the parse |
| Interner.Intern | pyscm.py:246-253 | the symbol returned is the table's entry for the name; existing entries are never replaced; a known name leaves the table alone and a new one adds exactly that name; a valid table stays valid |
| Interner.InternAgain | pyscm.py:251-253 | asking again for a name returns the identical symbol and leaves the table unchanged |
| Interner.InternKeeps | pyscm.py:251-253 | any later interning keeps the symbol a name was given |
| Interner.InternAllExtends | pyscm.py:251-253 | any sequence of calls only adds entries |
| Interner.InternDistinct | pyscm.py:246-253 | different names get symbols of different identity, in either order |
| Interner.SameSymbolSameName | pyscm.py:246-253 | two entries are the same symbol exactly when they are for the same name |
| Interner.MakeBoolean | pyscm.py:255-260 | the answer is the table's entry for `#t` or `#f`; the table only gains entries and a valid table stays valid |
| Interner.BooleansDistinct | pyscm.py:255-260 | `make_boolean(False)` and `make_boolean(True)` are different symbols |
| Values.MapIdentity | pyscm.py:56-65 | mapping the identity gives back the value |
| Values.MapLeaves | pyscm.py:56-65 | the function is applied to every non-list value, in order, and to nothing else |
| Values.MapKeepsShape | pyscm.py:56-65 | the result is a proper list exactly when the input is |
| Primitives.FloorDiv | pyscm.py:154-156 | integer `/` floors: the quotient of a by b lies within one step of a/b, rounding down, for either sign of b |
| Primitives.AddFromSum | pyscm.py:142-144 | folding `+` from any seed adds the sum of the arguments when all are numbers, and fails otherwise |
| Primitives.AddIsSum | pyscm.py:142-144 | `+` is the sum of its arguments, seeded with 0; a non-number argument fails |
| Primitives.MulFromProduct | pyscm.py:150-152 | folding `*` from any seed multiplies by the product of the arguments |
| Primitives.MulIsProduct | pyscm.py:150-152 | `*` on numbers is their product, seeded with 1 |
| Primitives.SubFromSum | pyscm.py:146-148 | folding `-` from a number subtracts the sum of the remaining arguments |
| Primitives.SubIsDifference | pyscm.py:146-148 | `-` with no arguments fails, with one returns it, and otherwise is the first minus the sum of the rest |
| Primitives.DivByProduct | pyscm.py:154-156 | dividing in turn by positive numbers is one floor division by their product |
| Primitives.NestedFloorDiv | pyscm.py:154-156 | two floor divisions by positive numbers are one floor division by the product |
| Primitives.FloorDivUnique | pyscm.py:154-156 | the floor quotient is the only q with d·q ≤ a < d·q + d |
| Primitives.EmptyFolds | pyscm.py:142-156 | `(+)` is 0 and `(*)` is 1; `(-)` and `(/)` fail |
| Primitives.FoldExamples | pyscm.py:146-156 | `(- 5)` is 5, `(/ 4 2 2)` is 1, `(/ 7 -2)` is -4 (floor), `(/ 1 0)` fails |
| Primitives.Compare | pyscm.py:158-172 | fewer than two arguments fail; otherwise the comparison succeeds exactly when the model decides the relation, and answers the table's entry for `#t` or `#f` accordingly; the table only gains entries |
| Primitives.CompareFirstTwo | pyscm.py:158-172 | comparisons read only their first two arguments |
| Primitives.CompareNumbers | pyscm.py:158-172 | a comparison of two numbers answers the interned #t or #f for `<`, `>`, `<=`, `>=` respectively |
| Primitives.StrLessTotal | pyscm.py:158-164 | `<` on strings is irreflexive, and of two different strings exactly one is less |
| Primitives.PyEqualsScalars | pyscm.py:174-176 | `=` holds between two numbers, two strings or two symbols exactly when they are equal, and never between a number and a non-number |
| Primitives.PyEqualsReflexive | pyscm.py:174-176 | every value without procedures inside is `=` to itself |
| Primitives.IsSameCases | pyscm.py:178-182 | `eq?` holds for two empty lists, holds for symbols exactly when they are the same symbol, and fails for values of different kinds |
| Primitives.CarCdrCons | pyscm.py:184-194 | `car` and `cdr` of `cons a b` are a and b; further arguments are ignored |
| Primitives.Apply | pyscm.py:231-233 | a primitive's result refers to no frame its arguments do not, and the symbol table only gains entries |
| Environment.Chain | pyscm.py:271-278 | the parent chain starts at the frame itself and visits only older frames |
| Environment.Lookup | pyscm.py:271-278 | lookup fails only with "undefined variable" for the name, and a value found refers to existing frames |
| Environment.Nearest | pyscm.py:289-294 | the frame found binds the name and lies on or above the starting frame |
| Environment.LookupNearest | pyscm.py:271-278 | lookup succeeds exactly when some frame on the chain binds the name, with the value in the nearest such frame |
| Environment.LookupOnChain | pyscm.py:271-278 | lookup fails exactly when no frame on the parent chain binds the name; otherwise it gives the binding of the first frame along the chain that binds it |
| Environment.Write | pyscm.py:285-294 | storing a binding changes that one name in that one frame and no other frame |
| Environment.Push | pyscm.py:383-385 | a call adds one new frame after all existing ones, whose parent is the closure's frame |
| Environment.WriteVisible | pyscm.py:289-294 | after overwriting a frame's binding, every frame whose nearest binder is that frame sees the new value; when the name was already bound there, every frame whose nearest binder is another frame, or that finds no binder, reads as before; every other name reads as before, and no parent chain changes |
| Environment.DefineVisible | pyscm.py:284-287 | after a definition in the current frame, the name resolves there to the new value |
| Environment.PushLookup | pyscm.py:383-385 | creating a call frame changes no lookup in existing frames |
| Environment.PushLookupNew | pyscm.py:383-384 | in the new frame a name resolves to its argument if it is a parameter, and otherwise as in the closure's frame |
| Environment.Bind | pyscm.py:383 | zipping parameters with arguments succeeds exactly when the paired parameters are names |
| Environment.BindContents | pyscm.py:383 | the new frame binds exactly the parameter names paired with an argument; extra arguments are dropped and missing ones leave parameters unbound; a repeated name gets its last argument |
| Evaluator.PrimitiveValue | pyscm.py:264-269 | a number token evaluates to its numeral value, failing as the numeral does; a string token evaluates to its text with the surrounding double quotes stripped |
| Evaluator.Quote | pyscm.py:43-54 | a name quotes to the table's entry for it, interning it when new; a number or string token quotes to its literal value, with the table unchanged; the empty token fails; the result holds only numbers, strings, symbols and lists (no procedure, no None); a list becomes a proper list; the table only gains entries |
| Evaluator.QuoteList | pyscm.py:51-54 | an n-element list becomes a proper list of n pairs ending in the empty list, holding only data |
| Evaluator.LetToLambda | pyscm.py:318-326 | the rewrite succeeds exactly when there is a binding list with at least one binding and every binding has at least two elements |
| Evaluator.Eval | pyscm.py:328-389 | evaluation never removes frames or a frame's names, keeps every parent and captured frame in range, and returns values referring only to existing frames |
| Evaluator.Resume | pyscm.py:331-389 | continuing the loop after a pass never removes frames or names, keeps the store well formed, and returns values referring only to existing frames |
| Evaluator.Step | pyscm.py:331-389 | one pass of the loop keeps the store well formed, and continues only in an existing frame |
| Evaluator.StepIf | pyscm.py:347-359 | the `if` branch keeps the store well formed and continues only in an existing frame |
| Evaluator.StepApply | pyscm.py:376-387 | the application branch keeps the store well formed and continues only in an existing frame |
| Evaluator.EvalSeq | pyscm.py:309-314 | evaluating a sequence keeps the store well formed and returns a value referring only to existing frames; `Semantics.EvalSeqLast` states that the value is the last form's |
| Evaluator.EvalOperands | pyscm.py:377 | when all elements evaluate, the values already collected are kept and one value is added per element |
| Evaluator.EvalCond | pyscm.py:360-372 | the `cond` branch keeps the store well formed and continues only in an existing frame |
| Evaluator.Chosen | pyscm.py:366-369 | a chosen clause continues with its second element, in the same frame, and fails with the IndexError (`Fault`) exactly when the clause has none |
| Evaluator.EvalDefine | pyscm.py:280-287 | a definition returns None and keeps the store well formed |
| Evaluator.EvalSet | pyscm.py:289-294 | `set!` returns None and keeps the store well formed |
| Fuel.EvalMonotone | pyscm.py:331-389 | an outcome reached with some number of passes is the same with more: fuel only cuts off loops that would not end |
| Fuel.ResumeMonotone | pyscm.py:331-389 | continuing the loop after a pass: a reached outcome is the same with more passes |
| Fuel.StepMonotone | pyscm.py:331-389 | a pass that finished decides the same with more fuel |
| Fuel.IfMonotone | pyscm.py:347-359 | the `if` branch decides the same with more fuel |
| Fuel.ApplyMonotone | pyscm.py:376-387 | the application branch decides the same with more fuel |
| Fuel.SeqMonotone | pyscm.py:309-314 | a completed sequence gives the same with more fuel |
| Fuel.OperandsMonotone | pyscm.py:377 | completed operand evaluation gives the same with more fuel |
| Fuel.CondMonotone | pyscm.py:360-372 | the `cond` branch decides the same with more fuel |
| Fuel.DefineMonotone | pyscm.py:280-287 | a completed definition gives the same with more fuel |
| Fuel.SetMonotone | pyscm.py:289-294 | a completed `set!` gives the same with more fuel |
| TableGrowth.EvalKeeps | pyscm.py:328-389 | evaluation never removes or replaces an entry of the symbol table, and a valid table stays valid |
| TableGrowth.StepKeeps | pyscm.py:331-389 | one pass never removes or replaces a symbol |
| TableGrowth.IfKeeps | pyscm.py:347-359 | the `if` branch never removes or replaces a symbol |
| TableGrowth.ApplyKeeps | pyscm.py:376-387 | the application branch never removes or replaces a symbol |
| TableGrowth.SeqKeeps | pyscm.py:309-314 | a sequence never removes or replaces a symbol |
| TableGrowth.OperandsKeeps | pyscm.py:377 | evaluating operands never removes or replaces a symbol |
| TableGrowth.CondKeeps | pyscm.py:360-372 | the `cond` branch never removes or replaces a symbol |
| TableGrowth.DefineKeeps | pyscm.py:280-287 | a definition never removes or replaces a symbol |
| TableGrowth.SetKeeps | pyscm.py:289-294 | `set!` never removes or replaces a symbol |
| Semantics.QuoteRoundTrip | pyscm.py:43-54 | quoting a form whose tokens are all names succeeds, and reading the pairs back gives the form |
| Semantics.QuoteListRoundTrip | pyscm.py:51-54 | quoting a list of such forms gives a chain of pairs that reads back as that list |
| Semantics.QuoteDecimal | pyscm.py:264-267 | a quoted `42` is the number 42 |
| Semantics.QuoteOctal | pyscm.py:266-267 | a quoted `-017` is -15, because Python 2 reads a leading zero as octal |
| Semantics.QuoteString | pyscm.py:268-269 | a quoted `"hi"` is the string `hi` |
| Semantics.LetDesugars | pyscm.py:318-326 | `(let ((v e)...) b...)` becomes `((lambda (v...) b...) e...)`, keeping the names and initialisers in order |
| Semantics.LetToLambdaShape | pyscm.py:318-326 | for any well-formed `let`, the operator is a lambda whose parameters are the bindings' first elements in order and whose body is the let's body, and the operands are the bindings' second elements in order |
| Semantics.LetWithoutBindings | pyscm.py:320-321 | a `let` with an empty binding list fails |
| Semantics.LetBindingWithoutValue | pyscm.py:320-322 | a `let` binding without an initialiser fails |
| Semantics.OnlyTrueIsTrue | pyscm.py:351 | only the interned #t symbol counts as true; numbers, strings, lists and procedures count as false |
| Semantics.IfChoosesBranch | pyscm.py:347-354 | `(if c a b)` evaluates c, then a exactly when c gave #t and b otherwise, as the loop's next expression in the same frame |
| Semantics.IfWithoutAlternative | pyscm.py:355-359 | `(if c a)` whose test gives anything but #t returns None |
| Semantics.CondWithoutClauses | pyscm.py:360-372 | a `cond` with no clause returns None |
| Semantics.CondElse | pyscm.py:368-370 | an `else` clause is taken without evaluating anything |
| Semantics.CondClause | pyscm.py:362-367 | a clause is taken when its test gives #t; otherwise the following clauses are tried in order |
| Semantics.StepOfApplication | pyscm.py:376-377 | a list headed by no keyword is an application whose elements are all evaluated |
| Semantics.ApplyPrimitive | pyscm.py:380-381 | applying a primitive returns its result on the other elements' values |
| Semantics.ApplyClosure | pyscm.py:382-387 | applying a closure continues with `begin` and its body in a new frame after all others, whose parent is the captured frame and whose bindings zip parameters with arguments |
| Semantics.DefineWritesCurrentFrame | pyscm.py:284-285 | `(define x e)` evaluates e, then binds x in the current frame to its value, leaving every other frame unchanged |
| Semantics.DefineProcedure | pyscm.py:286-287 | `(define (f p...) b...)` binds f in the current frame to a closure over that frame, evaluating nothing |
| Semantics.SetUnbound | pyscm.py:289-294 | `set!` of a name no frame on the chain binds fails, before evaluating anything |
| Semantics.SetOverwritesNearest | pyscm.py:289-294 | `set!` evaluates the value in the calling frame; an error there is the result; otherwise the new store is the old one with the name's binding in its nearest binder replaced, every frame whose nearest binder is that frame sees the new value, frames that find the name elsewhere read as before, and every other name reads as before |
| Semantics.OperandsSplit | pyscm.py:377 | evaluating the first k elements and then the rest, from the state the first k leave, is evaluating them all; an error among the first k is the result |
| Semantics.OperandsAt | pyscm.py:377 | element i is evaluated in the state the elements before it leave; its value is the i-th value of the result and its error, if any, is the result |
| Semantics.EvalDigit | pyscm.py:332-333 | a one-digit token evaluates to its value in one pass |
| Semantics.EvalSeqLast | pyscm.py:309-314 | a non-empty sequence evaluates the forms before its last one in order; an error among them is the result, and otherwise the result is the last form's evaluation in the state they leave |
| Semantics.BeginContinuesWithLast | pyscm.py:344-346 | `(begin f... x)` evaluates the forms f in order in the same frame; an error among them is the result, and otherwise the loop goes on with x in that frame |
| Semantics.EmptyBegin | pyscm.py:344-346 | `(begin)` goes on with its only element, the name `begin` |
| Semantics.IfOfTwoStep | pyscm.py:347-359 | `(if 1)` comes back to itself after one pass |
| Semantics.IfOfTwoLoops | pyscm.py:347-359 | `(if 1)` runs out of any amount of fuel: the loop never ends |
| Semantics.ApplyNumberStep | pyscm.py:376-387 | `(5)` comes back to itself after one pass |
| Semantics.OperandsFive | pyscm.py:377 | the elements of `(5)` evaluate to the number 5 |
| Semantics.ApplyNumberLoops | pyscm.py:376-387 | `(5)` runs out of any amount of fuel: applying a number loops |
| Interpreter.LibraryNames | pyscm.py:397-410 | the library binds exactly the fourteen names `display` to `eq?` |
| Interpreter.LibraryContents | pyscm.py:397-410 | every library binding is a primitive, and `>=` is a primitive wrapping the same `gt` function as `>` |
| Interpreter.BaseFrameNames | pyscm.py:392-416 | the base frame binds the library names plus `#t` and `#f`, and has no parent |
| Interpreter.BaseFrameAtLeast | pyscm.py:405-406 | in the base frame `>=` is bound to the `gt` primitive |
| Interpreter.BaseFrameOk | pyscm.py:392-416 | the base frame refers to no other frame |
| Interpreter.BaseFrameBooleans | pyscm.py:413-414 | `#t` and `#f` are bound to the interned boolean symbols, which differ; the table only grows and stays valid |
| Interpreter.RunText | pyscm.py:418-419 | text that does not parse is the result, with the state unchanged; otherwise evaluation keeps the store well formed and never removes frames or names |
| Interpreter.Interpreter.constructor | pyscm.py:246 | the interpreter starts with no frames and an empty symbol table |
| Interpreter.Interpreter.MakeSymbol | pyscm.py:246-253 | the method returns and stores exactly what `Intern` specifies, leaving the frames alone |
| Interpreter.Interpreter.MakeBoolean | pyscm.py:255-260 | the method is `make_symbol` of `#t` or `#f` |
| Interpreter.Interpreter.MakeBase | pyscm.py:392-416 | a new base frame is added after the existing frames, and the store stays well formed |
| Interpreter.Interpreter.Run | pyscm.py:418-419 | running text is parsing followed by evaluation, with the result and new state the spec functions give |
| Interpreter.Interpreter.Evaluate | pyscm.py:328-389 | the `while true` loop that reassigns `exp` and `env` ends with the same result and state as `Eval` |
| Interpreter.Interpreter.Step | pyscm.py:331-389 | one pass of the loop, in place, decides what `Step` decides |
| Interpreter.Interpreter.StepIf | pyscm.py:347-359 | the `if` branch, in place, agrees with `StepIf` |
| Interpreter.Interpreter.StepApply | pyscm.py:376-387 | the application branch, in place, agrees with `StepApply` |
| Interpreter.Interpreter.EvalSequence | pyscm.py:309-314 | the loop over a sequence computes exactly `EvalSeq`, so it gives the last form's value (`Semantics.EvalSeqLast`) |
| Interpreter.Interpreter.EvalOperands | pyscm.py:377 | the loop over the elements agrees with `EvalOperands` |
| Interpreter.Interpreter.EvalCond | pyscm.py:360-372 | the loop over the clauses agrees with `EvalCond` |
| Interpreter.Interpreter.EvalDefinition | pyscm.py:280-287 | the in-place definition agrees with `EvalDefine` |
| Interpreter.Interpreter.EvalSet | pyscm.py:289-294 | the in-place `set!` agrees with `EvalSet` |
| Interpreter.Interpreter.FindBinder | pyscm.py:289-294 | walking the parent chain finds the nearest frame binding the name, or none |
| Scenarios.TokensOfSum | tests.py:7-8 | `(+ 1 2)` tokenizes to `(`, `+`, `1`, `2`, `)` |
| Scenarios.ShiftOpen | pyscm.py:22-23 | `(` opens a new innermost list |
| Scenarios.ShiftWord | pyscm.py:32-34 | a word joins the innermost list |
| Scenarios.ShiftClose | pyscm.py:24-27 | `)` attaches the innermost list to the one around it |
| Scenarios.FeedSum | tests.py:7-8 | the tokens of `(+ 1 2)` fold into one finished list |
| Scenarios.ParseSum | tests.py:7-8 | `(+ 1 2)` parses to `begin` followed by that list |
| Scenarios.ParseUnbalanced | pyscm.py:24-26 | a `)` with nothing open fails |
| Scenarios.ParseUnclosed | pyscm.py:39 | a list still open at the end of the text is dropped |
| Scenarios.IntegersArePrimitive | tests.py:58-68 | `12` is a primitive and `33` is not a variable |
| Scenarios.FractionIsPrimitive | tests.py:59 | `12.2` is a primitive |
| Scenarios.ExponentIsPrimitive | tests.py:60 | `1.2e20` is a primitive |
| Scenarios.StringsArePrimitive | tests.py:61-69 | `"hello world"` is a primitive and `"foobar"` is not a variable |
| Scenarios.UnclosedStringIsNot | tests.py:63 | `"illgal string` is not a primitive |
| Scenarios.NamesAreVariables | tests.py:66-67 | `a` and `name_name` are variables, though the latter holds an exponent marker |
| Scenarios.NotNumeric | pyscm.py:69-75 | a token with no sign, starting with anything but a digit, `.`, an exponent marker or a letter of `inf`/`nan`, is not a number |
| Scenarios.NotDecimal | pyscm.py:69-75 | a token starting with anything but a digit, `.` or an exponent marker is not in float's decimal notation |
| Scenarios.PairNamesAreVariables | pyscm.py:398-400 | the names `cons`, `car` and `cdr` bound in the base frame are variables, not numbers or strings |
| Scenarios.EmptyProgramLooksUpBegin | pyscm.py:39-41 | the empty program parses to `(begin)`, and evaluating that gives the lookup of the name `begin` with the state unchanged |
| Scenarios.LookupExamples | tests.py:113-115 | a name is found in its frame or its parent, and is undefined in an empty frame |

## Left out

- `display` writes to standard output (pyscm.py:138-140). The model returns None and does not model the output.
- Floating point: a number token that is not an integer literal evaluates to `Unmodelled`, because the model has no floats.
- inf and nan are recognised as numbers, as Python's `float()` does. Their evaluation fails as an undefined name, because Python's `eval` does the same.
- The reserved `'**parent**'` key is a separate field of the frame. A program that uses `**parent**` as a variable name is not modelled.
- `eq?` decides only two empty lists, symbols, None, and values of different kinds. Whether two numbers, strings, pairs or procedures are one Python object depends on CPython's object caching. Those cases give `Unmodelled`.
- `=` on closures and primitives compares Python object identity and gives `Unmodelled`.
- `<`, `>` and `<=` are decided for two numbers and for two strings only. On two lists, two symbols, two Nones, two procedures, or values of different types Python 2 has an ordering of its own; there the model gives `Unmodelled`.
- `ge` (pyscm.py:170-172) is defined but bound to no name, since `>=` gets `gt`. It is kept as the `AtLeast` relation of `Primitives.Compare`, which no primitive reaches.
- `is_primitive` and `is_variable` on a list (tests.py:62, tests.py:70) are not modelled as predicates: the model's predicates take tokens. Both answer False on a list in Python, and `Step` sends a list to the list branches, which is the same outcome.
- Strings are sequences of characters, while a Python 2 `str` is a sequence of bytes. On text with non-ASCII characters, `car` and `cdr` on strings (pyscm.py:184-194) and indexing into atoms (a `lambda`'s parameter atom, `let` bindings, `cond` clauses) pick a character where Python picks a byte. Tokenizing, `float()`, `strip('"')` and `<` on strings agree on UTF-8 text, so only indexing differs.
- Sequence repetition by `*` (a string or list times a number) gives `Unmodelled`.
- `eval_application` (pyscm.py:296-301) is never called by `evaluate`. The empty `__main__` block (pyscm.py:421-422) does nothing.
- Python's exception types (IndexError, KeyError, TypeError, ZeroDivisionError, the undefined-variable Exception) are collapsed. They become `Unbound(name)` for lookup and `Fault` for everything else.
- Non-termination: `Eval` takes a fuel bound, and running out gives `OutOfFuel`. `Fuel.EvalMonotone` shows the bound only cuts off evaluations and never changes an outcome.
- Stack depth is not modelled. Nested evaluation of operands and tests is Python recursion, bounded in Python by its recursion limit.
- `re.split` and `re.match` (pyscm.py:18-19) are replaced by a character scanner. `\s` is taken as space, tab, newline, return, vertical tab and form feed.
- The empty token never reaches `is_string` from the reader. Where Python would raise on it, the model fails with `Fault`.
- Evaluator.Eval: its contract covers the frame store only. The symbol table's growth is proved separately, by `TableGrowth.EvalKeeps`.
- Values.MapLeaves: the ordering property assumes `f` maps every value to a non-list, as `str` does in `display`.
- Values.MapKeepsShape: the same assumption on `f`.
