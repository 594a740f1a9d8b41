# kiwilang core in Dafny

kiwilang is a small scripting language. The compiler turns source text into
an S-expression tree:
- it strips comments;
- it splits the rest into tokens;
- a recursive-descent parser reads nested lists and converts atoms.

The tree-walking interpreter then evaluates each top-level node. State lives
in two kinds of dict from names to `Variable` records (a value, an `is_local`
flag and an `is_mutable` flag):
- the interpreter's global dict holds `:`-names;
- a local dict (`local_vars`) holds `$`-names.

This project models both halves and proves what they promise.

## Modules

- `ast.dfy`, modules `Results` and `Ast`:
  - the `Result` and `Option` wrappers;
  - the parsed `Node` type;
  - `StripVariableSigil`.
- `compiler.dfy`, module `Compiler`. The front end as specification functions:
  - `StripComments`, `Scan` (the token regular expression written out as a scanner), `Tokens`;
  - `ConvertAtom`, `ParseExpr`, `ParseItems`, `ParseAll`.

  The class `Compiler` holds the `tokens` list and the `current_token` cursor. Its methods have the loops of the source and are proved equal to those functions. The module's lemmas cover:
  - comment handling and token shape;
  - the parser's `None`, error and unterminated-list cases;
  - a round trip: parsing the tokens `Emit` produces for a node gives the node back.
- `values.dfy`, module `Values`. The Python values a program computes with:
  - ints, bools, strs, floats (opaque), `None`, tuples, the empty list, and functions made by `lambda`;
  - Python floor division and modulo, with the lemmas that characterise them;
  - `==` and `<`, truthiness, `math.factorial`, `range` and iteration.
- `store.dfy`, module `Store`. Memory with Python's object identity made explicit:
  - every `Variable` object is an entry of `variables`;
  - every local dict object is an entry of `tables`, mapping names to variable indices;
  - table 0 is the default `local_vars` dict;
  - the global dict maps names to variable indices as well.

  Two dicts holding the same index share one `Variable`. `Wf` is the well-formedness invariant. `Evolves` says how memory may change during one evaluation.
- `evaluator.dfy`, module `Evaluator`. `_evaluate_node` as functions over that memory, one per form, with a fuel bound on nesting depth. `Classify` is the structural `match`, case by case in source order. Every evaluation keeps `Wf` and `Evolves`.
- `properties.dfy`, module `Properties`. The promises of the forms, stated in terms of names, variables and values.
- `interpreter.dfy`, module `Interpreter`. The class `Interpreter` holds the memory as a field. Its `_evaluate_node` is a recursive method that:
  - updates the dicts and variables in place;
  - loops over `block`/`list` items, `for-each` elements, call arguments and function bodies.

  Each method is proved to end in the outcome the `Evaluator` functions specify.

Behaviour as the code has it:
- **Top-level dict.** Every top-level node, in every `run`, is evaluated with the same default local dict (interpreter.py:149).
- **Capture by reference.** A `lambda` keeps a reference to the local dict it was created in, not a copy. Each body of a call runs in a new dict: that dict's current bindings merged with fresh immutable parameter variables. Through the shared `Variable` objects, a `mutate` inside a body is seen outside, and the other way round. A `defn $x` inside one body is gone when the next body starts.
- **`for-each`.** The loop binds its variable in the enclosing dict, with no duplicate check.
- **`mutate` order.** `mutate` checks that the name is bound and mutable, evaluates the new value, and only then looks the name up again to write it. A `for-each` on the same `$`-name inside the value can therefore have the write land in the loop's immutable variable. `Evolves` accordingly protects the value of immutable *global* variables only.
- **`None` from the parser.** `parse_expression` yields `None` at the end of the tokens and also for a `nil`/`null` token. The top-level loop drops both.

## Model

| member | source | states |
|---|---|---|
| Ast.StripVariableSigil | interpreter.py:9-15 | a name starting with `:` or `$` loses exactly that first character; any other name is returned unchanged |
| Compiler.SplitLines | compiler.py:14 | the lines of the text: at least one, none containing a line break |
| Compiler.JoinSplitLines | compiler.py:36 | joining the split lines with `\n` gives the text back |
| Compiler.SplitJoinLines | compiler.py:36 | splitting joined lines that hold no line break gives the lines back |
| Compiler.LStrip | compiler.py:16 | the result is a suffix of the input that does not start with whitespace |
| Compiler.LStripRemovesBlank | compiler.py:16 | what `strip` removes at the front is whitespace only |
| Compiler.RStrip | compiler.py:31 | the result is a prefix of the input that does not end with whitespace |
| Compiler.RStripRemovesBlank | compiler.py:31 | what `rstrip` removes is whitespace only |
| Compiler.CommentFrom | compiler.py:21-28 | the result is -1 or a position of the line at or after the scan start |
| Compiler.CommentFromFirst | compiler.py:21-28 | the result is the first `#`/`;` outside a double-quoted region (odd quote parity before it), every earlier one being inside quotes; -1 means every comment character is inside quotes |
| Compiler.ProcessLine | compiler.py:14-33 | the result is a prefix of the line |
| Compiler.ProcessLineCases | compiler.py:14-33 | a whole-line comment becomes empty; a line whose comment characters all lie inside quotes is unchanged |
| Compiler.LineWithoutCommentCharUnchanged | compiler.py:21-33 | a line without `#` or `;` passes the comment pass unchanged |
| Compiler.StripCommentsKeepsLines | compiler.py:13-36 | the comment pass keeps the number of lines |
| Compiler.FindQuote | compiler.py:39 | -1 or an index into the text |
| Compiler.FindQuoteFirst | compiler.py:39 | the result is the index of the first `"`, with none before it, or -1 when there is none |
| Compiler.WordRun | compiler.py:39 | a length within the text |
| Compiler.WordRunLongest | compiler.py:39 | the result is the length of the longest prefix of ASCII word characters |
| Compiler.PlainRun | compiler.py:39 | a length within the text |
| Compiler.PlainRunLongest | compiler.py:39 | the result is the length of the longest prefix without whitespace, parentheses or `"` |
| Compiler.MatchLength | compiler.py:39-40 | the length of the match of the token pattern at the start (0 when none matches), never starting at whitespace |
| Compiler.NonBlankTokens | compiler.py:43 | the kept tokens are not blank, and there are no more of them than were found |
| Compiler.ScanTokensStartNonBlank | compiler.py:39-40 | every token the scanner finds is non-empty and starts with a non-blank character |
| Compiler.ScanHasNoBlankTokens | compiler.py:43 | the blank filter drops nothing from tokens that start with a non-blank character |
| Compiler.TokensAreScanned | compiler.py:39-43 | the tokens of a source are exactly the scanner's matches over the comment-stripped text |
| Compiler.SkipStep | compiler.py:40 | where no alternative matches, the scanner skips one character and finds nothing there |
| Compiler.TakeStep | compiler.py:40 | where an alternative matches, the scanner takes the match as the next token and resumes just after it |
| Compiler.RemoveFirstDot | compiler.py:83-84 | a token without `.` is unchanged |
| Compiler.RemoveFirstDotAt | compiler.py:83-84 | in a token with a `.`, exactly the first `.` is removed and the rest is kept in order |
| Compiler.Lower | compiler.py:87-91 | the result has the same length, each ASCII letter lower-cased |
| Compiler.ParseExpr | compiler.py:45-94 | the cursor stays within the tokens; at the end the result is `None` with the cursor unchanged; otherwise a successful parse moves the cursor forward |
| Compiler.ParseItems | compiler.py:55-66 | the element loop never moves the cursor backwards or past the end |
| Compiler.ParseExprNull | compiler.py:45-94 | the parser yields `None` exactly at the end or for a token that converts to `None`; a `)` where a node is expected is `SyntaxError` |
| Compiler.UnterminatedList | compiler.py:55-68 | a list of atoms still open when the tokens run out yields the converted tokens read so far, with no error |
| Compiler.ParseItemsNeverRaises | compiler.py:54-66 | the element loop of a list never raises |
| Compiler.ParseExprRaises | compiler.py:45-70 | `parse_expression` raises exactly when the token at the cursor is `)` |
| Compiler.OpenItemsRunToEnd | compiler.py:54-66 | with no `)` ahead, even around nested lists, the element loop reaches the end of the tokens without error and keeps every element collected before |
| Compiler.OpenExprRunsToEnd | compiler.py:50-67 | with no `)` ahead, a node is read without error and a `(` yields a list that runs to the end of the tokens |
| Compiler.NatToString | compiler.py:81-82 | the decimal spelling of a natural number is a digit string |
| Compiler.DigitsValueOfNatToString | compiler.py:81-82 | `int` of the decimal spelling of `n` is `n` |
| Compiler.Emit | compiler.py:51-68 | the tokens that spell a node are non-empty and a list's start with `(` |
| Compiler.ConvertQuoted | compiler.py:77-78 | a quoted token converts to its contents without the quotes |
| Compiler.ConvertInteger | compiler.py:81-82 | the decimal spelling of an integer, with `-` when negative, converts to that integer |
| Compiler.FloatLiteralIsPlain | compiler.py:83-86 | a float literal that is not an integer literal converts to a float |
| Compiler.ConvertWord | compiler.py:87-94 | a word of letters converts to `True`, `False` or `None` when its lower-case form is a keyword (`TRUE`, `Nil`) and stays a symbol otherwise |
| Compiler.ConvertSigil | compiler.py:79-80 | a token starting with `:` or `$` is kept as is, sigil included |
| Compiler.ConvertAtomInverse | compiler.py:77-94 | every parsable atom is read back from the token that spells it |
| Compiler.EmitStart | compiler.py:69-71 | the first token of a node's spelling is never `)` |
| Compiler.ParseEmit | compiler.py:45-94 | parsing the tokens that spell a node gives the node back and moves the cursor just past them |
| Compiler.ParseEmitItems | compiler.py:55-66 | the element loop reads back a sequence of nodes from their tokens followed by `)` |
| Compiler.ParseAllEmit | compiler.py:101-111 | the top-level loop reads back any sequence of parsable nodes without `None` from their tokens |
| Compiler.ParseAllStep | compiler.py:106-109 | one turn of the top-level loop keeps every node but `None` |
| Compiler.Compiler.constructor | compiler.py:6-9 | a new compiler has no tokens and the cursor at 0 |
| Compiler.Compiler.Tokenize | compiler.py:11-43 | the result is the tokens of the source, and none is blank |
| Compiler.Compiler.StripCommentLines | compiler.py:13-36 | the line loop produces the comment-stripped text |
| Compiler.Compiler.InlineCommentStart | compiler.py:21-28 | the character loop with the quote flag finds the inline comment start |
| Compiler.Compiler.FindTokens | compiler.py:39-40 | the scanning loop finds the scanner's matches |
| Compiler.Compiler.DropBlank | compiler.py:43 | the filter loop keeps exactly the non-blank tokens |
| Compiler.Compiler.ParseExpression | compiler.py:45-94 | the recursive method with its element loop returns the parsed node and leaves the cursor where the parser ends, or returns the parse error |
| Compiler.Compiler.CompileToList | compiler.py:101-111 | the cursor loop tokenizes and returns the non-`None` top-level nodes, or the parse error |
| Values.FloorDivision | interpreter.py:180-187 | `b * (a // b) + a % b == a`, and the remainder has the sign of the divisor and is smaller in magnitude |
| Values.FloorDivUnique | interpreter.py:180-187 | any quotient and remainder with those properties are Python's `//` and `%` |
| Values.ProductAtLeastFactor | interpreter.py:180-187 | a non-zero multiple of `b` is at least `|b|` in magnitude |
| Values.Factorial | interpreter.py:216-217 | `n!` is at least 1 |
| Values.FactorialOf | interpreter.py:216-217 | a negative integer raises `ValueError`, a non-negative one gives a positive int, anything else raises |
| Values.SqrtOf | interpreter.py:218-219 | a negative integer raises `ValueError`; otherwise the result is a float, which is outside the model |
| Values.RangeSeqElements | interpreter.py:307-323 | element `i` of `range(start, stop, step)` is `start + i * step`, every element lies before `stop` in the step's direction, and the next one would not |
| Values.RangeSeqMembers | interpreter.py:315-323 | with step 1 the range holds exactly the integers in `[start, stop)` |
| Values.RangeSeqIncreasing | interpreter.py:307-323 | with a positive step the range is strictly increasing |
| Values.IntsToValues | interpreter.py:307-323 | the tuple items are the range's integers, in order |
| Values.EqualsSymmetric | interpreter.py:188-195 | `a == b` and `b == a` agree |
| Values.EqualsItemsSymmetric | interpreter.py:188-195 | element-wise tuple equality is symmetric |
| Values.EqualsReflexive | interpreter.py:188-195 | a value without floats equals itself |
| Values.EqualsItemsReflexive | interpreter.py:188-195 | a tuple without floats equals itself element-wise |
| Values.StrLessTrichotomy | interpreter.py:196-211 | of two different strings exactly one is less than the other, and no string is less than itself |
| Values.StrLessTransitive | interpreter.py:196-211 | string `<` is transitive |
| Values.BinaryOp | interpreter.py:164-215 | a comparison gives a bool; arithmetic on integers is the integer operation; `+` concatenates strings and tuples |
| Values.RangeOf | interpreter.py:307-323 | a non-integer argument raises `TypeError`, a zero step `ValueError`, and a result is a tuple of ints |
| Values.Iterate | interpreter.py:268 | a tuple yields its items, a string its characters, and a value that cannot be iterated raises `TypeError` |
| Store.Initial | interpreter.py:40-52 | a new interpreter has no globals, one empty default local dict and no output |
| Store.Lookup | interpreter.py:57-58 | the value of the variable a name is bound to refers only to existing dicts and functions |
| Store.Bind | interpreter.py:223-250 | a fresh variable, local exactly in a local dict, becomes the binding of the key; every other binding, dict and variable is unchanged |
| Store.Assign | interpreter.py:251-266 | only the value of one variable changes; its flags, all dicts and every other variable stay |
| Store.Enter | interpreter.py:276-293 | a body's dict is a new dict, the captured dict merged with one fresh immutable local variable per argument; existing dicts are unchanged |
| Store.ZipMap | interpreter.py:281-290 | `dict(zip(params, refs))` binds exactly the first `min` parameters, each to the argument at its last occurrence |
| Store.LastIndexOf | interpreter.py:281-290 | the position of the last occurrence of a name among the parameters |
| Store.BindWf | interpreter.py:223-250 | binding a name keeps memory well formed |
| Store.BindEvolves | interpreter.py:223-250 | binding a free global or a name of the current dict is an allowed change |
| Store.AssignWf | interpreter.py:251-266 | writing a variable keeps memory well formed |
| Store.AssignEvolves | interpreter.py:251-266 | writing a local or mutable variable is an allowed change |
| Store.EnterWf | interpreter.py:274-293 | entering a body keeps memory well formed and changes no existing dict |
| Store.EvolvesTransitive | interpreter.py:149-348 | two allowed changes in a row, the second possibly in a newer dict, are one allowed change |
| Evaluator.Classify | interpreter.py:163-331 | atoms are exactly the nodes that are not non-empty lists; `defn`/`mutate` names carry a sigil, `for-each` names a `$`; `range` has 1 to 3 arguments |
| Evaluator.Eval | interpreter.py:149-348 | evaluation keeps memory well formed, changes it only as `Evolves` allows for its frame, and yields a value that refers to existing dicts |
| Evaluator.EvalForm | interpreter.py:163-348 | the same for each case of the `match` |
| Evaluator.EvalBinary | interpreter.py:164-215 | the same for the operator forms |
| Evaluator.EvalApply | interpreter.py:216-219 | the same for `fact` and `sqrt` |
| Evaluator.EvalPrint | interpreter.py:220-222 | after the argument evaluates, its value is appended to the output and the form yields `None` |
| Evaluator.EvalDefine | interpreter.py:223-250 | a name already in the dict its sigil selects raises "already defined" with memory unchanged; otherwise, once the value evaluates, the name is bound to a fresh variable with that value and mutability, and the form yields `None` |
| Evaluator.EvalMutate | interpreter.py:251-266 | an unbound name raises "not defined" and an immutable one "not mutable", both with memory unchanged; otherwise, once the value evaluates, the variable the name is bound to at that point receives it |
| Evaluator.EvalForEach | interpreter.py:267-272 | once the iterable evaluates and can be iterated, the loop runs over its elements with the name stripped of its sigil |
| Evaluator.ForEachLoop | interpreter.py:268-272 | the loop yields `None` unless a body raises |
| Evaluator.ForEachStep | interpreter.py:268-272 | one turn of the loop: the element is bound to a fresh immutable local variable, the body runs, and the loop ends if it raised or goes on with the rest |
| Evaluator.ParamNames | interpreter.py:275 | a list of strings gives the names without sigils, a string gives one name per character, each stripped of its sigil as a one-character name (so `$n` gives the names `""` and `n`), a list item that is not a string raises `AttributeError`, anything else `TypeError` |
| Evaluator.EvalLambda | interpreter.py:274-293 | the form yields a new function holding the names, the bodies and a reference to the current dict, and evaluates nothing |
| Evaluator.EvalBlock | interpreter.py:294-296 | the same for `block` |
| Evaluator.EvalList | interpreter.py:297-298 | the same for `list` |
| Evaluator.EvalEach | interpreter.py:294-298 | the nodes evaluate left to right to one value each, or to the first exception |
| Evaluator.EvalIf | interpreter.py:299-306 | exactly one branch is evaluated, chosen by the condition's truthiness; a falsy condition without an else yields `None` |
| Evaluator.EvalRange | interpreter.py:307-323 | the arguments evaluate left to right and the result is `tuple(range(...))` of them |
| Evaluator.EvalCall | interpreter.py:324-330 | the memory invariant for a call |
| Properties.CallFormOrder | interpreter.py:324-330 | the head is evaluated first and a value that is not a function raises "Unable to call"; then the arguments left to right in the caller's dict; then the call, whose outcome is the form's; an exception at any step ends the form |
| Evaluator.CallClosure | interpreter.py:276-293 | applying a function keeps memory well formed, changes no dict that existed at the call, and yields a value that refers to existing dicts |
| Evaluator.CallBodies | interpreter.py:276-293 | running the bodies changes no dict that existed at the call and yields one value per body |
| Evaluator.EvalAtom | interpreter.py:331-348 | a `$` name is looked up in the local dict only and a `:` name in the global dict only, raising "not defined" when unbound; every other atom is its own value, the empty list included |
| Evaluator.RunNodes | interpreter.py:79-80 | the run keeps memory well formed and changes it only as allowed for the default dict |
| Properties.DefineAddsOneBinding | interpreter.py:223-250 | `defn` on a free name adds exactly that key to the selected dict, bound to one new variable with the value, local exactly for `$` and mutable exactly for `defn-mutable`; the other dict and the other names stay |
| Properties.DefineTwiceRaises | interpreter.py:223-250 | `defn` on a bound name raises and changes nothing |
| Properties.MutateWritesOneValue | interpreter.py:251-266 | a successful `mutate` changes no dict and only the value of one variable, whose flags stay |
| Properties.SigilSelectsOneDict | interpreter.py:331-348 | `$k` reads the local dict and `:k` the global dict, with no fallback to the other |
| Properties.GlobalsPersist | interpreter.py:223-266 | no evaluation unbinds or rebinds a global name or changes an immutable global's value |
| Properties.SetThenGet | interpreter.py:54-58 | after `set_global_variable`, the name holds an immutable global variable with the value, and other globals keep their variables |
| Properties.FalsyValues | interpreter.py:299-306 | exactly `False`, `None`, `0`, `""`, `()` and `[]` are falsy |
| Properties.AtomLeavesBinding | interpreter.py:331-348 | an atom body leaves any loop variable's binding and value alone |
| Properties.AtomKeepsState | interpreter.py:331-348 | evaluating an atom changes no memory |
| Properties.ForEachLastElement | interpreter.py:267-272 | after a non-empty loop whose body leaves the loop variable alone, the name holds an immutable local variable with the last element, whatever it held before |
| Properties.FirstElementBound | interpreter.py:268-272 | after the first pass of such a loop the name holds an immutable local variable with the first element |
| Properties.EnterBindsParams | interpreter.py:276-290 | in a body's dict each parameter is bound to a new immutable local variable holding the argument at its last position |
| Properties.EnterShares | interpreter.py:274-293 | every other captured name is bound in the body's dict to the very same variable as in the captured dict |
| Properties.CallKeepsTables | interpreter.py:274-293 | a call changes no dict that existed at the call; the parameters never enter the captured dict |
| Properties.RangeOneArgument | interpreter.py:322-323 | `(range n)` is `0, ..., n - 1` |
| Properties.RangeTwoArguments | interpreter.py:315-321 | `(range a b)` is `a, ..., b - 1` |
| Properties.RangeUnitLength | interpreter.py:315-323 | a unit-step range has `stop - start` elements counting up from `start` |
| Properties.RangeThreeArguments | interpreter.py:307-314 | `(range a b s)` is the progression `a + i * s` up to `b`, and a zero step raises `ValueError` |
| Interpreter.Interpreter.constructor | interpreter.py:40-52 | a new interpreter starts from the initial memory |
| Interpreter.Interpreter.SetGlobalVariable | interpreter.py:54-55 | the name, taken as given, is bound to a new immutable global variable, replacing an earlier binding |
| Interpreter.Interpreter.GetGlobalVariable | interpreter.py:57-58 | the value of the global variable, or `KeyError` when the name is unbound |
| Interpreter.Interpreter.Run | interpreter.py:74-80 | the loop evaluates every node in the default dict until one raises, ending as `RunNodes` specifies |
| Interpreter.Interpreter.EvaluateNode | interpreter.py:149-348 | the recursive method ends with the result and memory `Eval` specifies |
| Interpreter.Interpreter.EvaluateForm | interpreter.py:163-348 | the dispatch ends as `EvalForm` specifies |
| Interpreter.Interpreter.EvaluateBinary | interpreter.py:164-215 | ends as `EvalBinary` specifies |
| Interpreter.Interpreter.EvaluateApply | interpreter.py:216-219 | ends as `EvalApply` specifies |
| Interpreter.Interpreter.EvaluatePrint | interpreter.py:220-222 | appends the value to the output, as `EvalPrint` specifies |
| Interpreter.Interpreter.EvaluateDefine | interpreter.py:223-250 | the check, the value, then the insertion into the dict, as `EvalDefine` specifies |
| Interpreter.Interpreter.EvaluateMutate | interpreter.py:251-266 | the checks, the value, then the write to the variable, as `EvalMutate` specifies |
| Interpreter.Interpreter.EvaluateForEach | interpreter.py:267-272 | ends as `EvalForEach` specifies |
| Interpreter.Interpreter.ForEachItems | interpreter.py:268-272 | the loop that overwrites the name and runs the body per element ends as `ForEachLoop` specifies |
| Interpreter.Interpreter.EvaluateLambda | interpreter.py:274-293 | ends as `EvalLambda` specifies |
| Interpreter.Interpreter.EvaluateBlock | interpreter.py:294-296 | ends as `EvalBlock` specifies |
| Interpreter.Interpreter.EvaluateList | interpreter.py:297-298 | ends as `EvalList` specifies |
| Interpreter.Interpreter.EvaluateEach | interpreter.py:294-298 | the loop over the items ends as `EvalEach` specifies |
| Interpreter.Interpreter.EvaluateIf | interpreter.py:299-306 | ends as `EvalIf` specifies |
| Interpreter.Interpreter.EvaluateRange | interpreter.py:307-323 | ends as `EvalRange` specifies |
| Interpreter.Interpreter.EvaluateCall | interpreter.py:324-330 | ends as `EvalCall` specifies |
| Interpreter.Interpreter.CallFunction | interpreter.py:276-293 | the loop over the bodies, each in a new merged dict, ends as `CallClosure` specifies |
| Interpreter.CallStep | interpreter.py:276-293 | one turn of that loop: a new merged dict, then the body, whose value joins the results unless it raised |
| Interpreter.CallClosureCompleted | interpreter.py:276-293 | when every body ran, the call yields the last body's value, or `IndexError` without bodies |
| Interpreter.CallClosureRaised | interpreter.py:276-293 | when a body raised, the call raises the same error |

## Left out

- The console, file and JSON front ends are not modelled: `repl`, `run_from_file`, `run_from_string`, `main.py`, and the file read in `compile_to_list`. `CompileToList` takes the file's text as a parameter.
- Debug, verbose and performance printing and `node_count` are diagnostics only and are not modelled.
- `print` renders nothing here: the printed value is appended to an output trace.
- Floating-point arithmetic is not modelled:
  - a float is kept as its literal text;
  - a true quotient `/` with a non-zero divisor, an integer power with a negative exponent and a non-zero base, and `sqrt` of a non-negative number give `Unsupported`;
  - so do arithmetic on a float, the ordering operators with a float, `==`/`!=` between a float and a number, and a truth test on a float;
  - `==` between a float and a value that is not a number is `False`, as in Python;
  - `/`, `//` and `%` by zero, and `0` raised to a negative power, give `ZeroDivision`, as in Python.
- Some of Python's cross-type operator semantics give `Unsupported`:
  - `==` and `!=` across types are modelled (`1 == "a"` is false, `True == 1` is true since bools count as integers);
  - the ordering operators between values of different types give `Unsupported`, where Python raises `TypeError`;
  - ordering on tuples and on the empty list (`(< [] [])`) gives `Unsupported`, where Python compares element by element;
  - repetition with `*` of a string, a tuple or the empty list (`(* [] 2)`) gives `Unsupported`, where Python repeats the sequence.
- Host callables passed through `set_global_variable` are foreign code. Only the functions `lambda` builds are callable here.
- Interpreter.Interpreter.SetGlobalVariable: requires that the value refers only to existing dicts and functions, which the source does not check, because host values are not modelled.
- Python's recursion limit is replaced by the `fuel` parameter, which bounds nesting depth. Running out of fuel is an `OutOfFuel` outcome, where Python raises `RecursionError` at a depth of its own.
- The default `local_vars` dict is a class-level default, so the source shares it between all `Interpreter` instances. The model gives each instance its own table 0.
- Character classes are ASCII only: Python's full `str.isspace`, `str.isdigit`, `str.lower` and regular-expression `\w` are approximated on ASCII.
- `pretty_print_list` is a wrapper over `json.dumps` and is not modelled.
- Exception messages are not modelled: each exception is an `Error` constructor that carries the name involved.
