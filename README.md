# A verified model of the sillycalcs expression front end

This project models `actual_parser.py` of sillycalcs, a small calculator that
turns an arithmetic expression into a syntax tree and evaluates it. The
calculator has three parts:

- **The tokenizer** is a cursor over the input string. It hands out typed
  tokens one at a time: "N" for a maximal run of digits and dots, "S" for
  `+`/`-`, "M" for `*`/`/`, and "(" and ")" for themselves. It skips
  whitespace and raises `UnexpectedChar` on anything else.
- **The parser** tokenizes the whole input and reverses the token list in
  place. It then runs a recursive descent over that list with one token of
  lookahead. Because it reads the input back to front, it swaps each
  operator's children back into source order. The resulting tree is
  left-associative, and `*`/`/` bind tighter than `+`/`-`.
- **The tree interpreter** walks the tree in post-order. It hands numbers to
  `n_value` and combines the two children of an operator node with
  `sum_value`, `sub_value`, `prod_value` or `div_value`.

Modules:

- `Tokens` (tokens.dfy): token types, tokens, errors, character classes.
- `Lexer` (lexer.dfy):
  - the class `Tokenizer`, with its cursor `pos`;
  - the functions `NextTokenAt`/`Tokenize`, which say what one call and a
    whole run produce;
  - the theorems about them.
- `Syntax` (syntax.dfy): syntax nodes and tree shape. It also holds
  `Source`, an expression as written with all its parentheses, and the
  grammar's well-formedness rule for it. Finally, it holds `Unparse`, the
  printer with the fewest parentheses.
- `Descent` (descent.dfy): what the recursive descent computes, as functions
  of the reversed token buffer and a cursor.
- `Parsing` (parser.dfy): the class `Parser`, which holds the reversed token
  array and a cursor. Each method is proved to compute what its `Descent`
  function does.
- `RoundTrip` (roundtrip.dfy): the descent, given any grammatical
  expression in reverse, returns the tree that expression stands for.
- `Grammar` (grammar.dfy): the resulting theorems about whole input strings.
- `Interpreter` (interpreter.dfy): `_eval_node`/`eval`, generic in the value
  type. The five operations are a record of functions that may raise. A
  stack machine over the postfix code serves as an independent reference
  evaluator.
- `Arithmetic` (arithmetic.dfy): an exact instance of the interpreter over
  Dafny's `real`, standing in for `ExampleInterpreter`.
- `Samples` (samples.dfy): the behaviour on particular inputs, derived from
  the general theorems.

The code behaves in some ways a reader might not expect. The model
reproduces each of them:

- `"(1+2"` parses to `1+2`, and `"5 3"` parses to `3`. `parse` never checks
  that every token was used, so the unread leading tokens are dropped.
- `"+1"` fails with `IndexError`. The docstring of `consume_if`
  (actual_parser.py:131-134) promises `ExprSyntaxError` for a bad token.
  Here, though, the descent reads `1` and `+` and then asks for `current`
  past the end of the buffer.
- `parse()` is not idempotent. After a successful parse that used every
  token, the cursor stands at the end of the buffer, and a second call on
  the same parser raises `IndexError` (`Grammar.ParseAgainFails`).
- An operator node without exactly two children is rejected by an `assert`,
  so it raises `AssertionError`. `EvalError` is documented as the error for
  a malformed tree (actual_parser.py:193), but it is not raised here.

## Model

| member | source | states |
|---|---|---|
| Tokens.CharKind | actual_parser.py:80-86 | "+"/"-" get type "S", "*"/"/" get "M", and "(" and ")" get their own type, each as an if-and-only-if |
| Lexer.NumberEnd | actual_parser.py:76-79 | the number loop stops at the first character that is not a digit or a dot, or at the end of the input; everything it passed over is a number character |
| Lexer.NextTokenAt | actual_parser.py:70-95 | one `next_token` call never moves the cursor back and never past the end of the input |
| Lexer.NextTokenAtSpec | actual_parser.py:70-95 | `next_token` answers None exactly when only whitespace is left, and then stands at the end; it raises UnexpectedChar at the first character that is neither a number character, an operator, a parenthesis nor whitespace, having skipped only whitespace; otherwise it returns a well-formed token (never whitespace) read right after whitespace, and a number token takes every number character there is |
| Lexer.NumberTokenAt | actual_parser.py:76-79 | a number token is the maximal run of digits and dots at the cursor, kept as its text |
| Lexer.TokensFrom | actual_parser.py:60-68 | every token a successful run of the iterator yields is well formed |
| Lexer.Tokenizer.constructor | actual_parser.py:41-43 | a new tokenizer holds the string, with the cursor at 0 |
| Lexer.Tokenizer.Consume | actual_parser.py:50-54 | `consume` returns the current character and advances the cursor by one |
| Lexer.Tokenizer.Restart | actual_parser.py:60-62 | `__iter__` puts the cursor back to 0 |
| Lexer.Tokenizer.NextToken | actual_parser.py:70-95 | the method, with its character-collecting loop and its recursion on whitespace, returns what `NextTokenAt` says and leaves the cursor where it says |
| Lexer.Tokenizer.ToList | actual_parser.py:60-68 | `list(iter(tokenizer))` restarts, then returns exactly `Tokenize(s)`, with the cursor at the end of the input on success |
| Lexer.TokenizeFailsIff | actual_parser.py:90-94 | tokenizing fails exactly when the input holds a character that is not allowed, and the error is then always UnexpectedChar |
| Lexer.TokenizeEmptyIff | actual_parser.py:70-92 | the token list is empty exactly when the input is empty or all whitespace |
| Lexer.TokenizeTexts | actual_parser.py:64-95 | on success, the token texts joined in order are the input with its whitespace removed |
| Lexer.LayoutTokenize | actual_parser.py:70-95 | any list of well-formed tokens, written out with whitespace gaps (non-empty between two numbers), tokenizes back to itself |
| Lexer.Tokenize | actual_parser.py:105-107 | the token list of a whole input holds only well-formed tokens, and the only error is UnexpectedChar |
| Descent.ConsumeIf | actual_parser.py:131-139 | `consume_if` succeeds exactly when the current token exists and has the asked type, then returns it with the cursor one further; otherwise it raises IndexError past the end and ExprSyntaxError on a token of another type |
| Descent.Value | actual_parser.py:159-169 | `parse_value` on success consumes at least one token and stays inside the buffer |
| Descent.CatBinary | actual_parser.py:141-157 | `_parse_cat_binary` on success consumes at least one token and stays inside the buffer |
| Descent.Term | actual_parser.py:171-175 | `parse_term` on success consumes at least one token and stays inside the buffer |
| Descent.Expr | actual_parser.py:177-181 | `parse_expr` on success consumes at least one token and stays inside the buffer |
| Descent.ParseAt | actual_parser.py:183-189 | `parse` answers None exactly for an empty buffer; otherwise it succeeds or fails exactly as `parse_expr` does, with the same error |
| Descent.ParseString | actual_parser.py:105-111 | `Parser(s).parse()` fails with the tokenizer's error when tokenizing fails, and answers None exactly when there are no tokens |
| Descent.CatBinaryShaped | actual_parser.py:141-157 | every node the descent builds is a number leaf without children or an "S"/"M" node with exactly two children, and its tokens are tokenizer output when the buffer's are |
| Descent.ParseStringWellFormed | actual_parser.py:183-189 | a tree returned by `Parser(s).parse()` is well shaped and holds only well-formed tokens |
| Syntax.MinimalSource | actual_parser.py:141-181 | the printer with the fewest parentheses writes a grammatical expression that stands for the tree printed and binds as strongly as its context needs |
| RoundTrip.ValueRoundTrip | actual_parser.py:159-169 | `parse_value` reads a reversed number or parenthesised expression as the tree it stands for, consuming exactly its tokens, ")" first and "(" last |
| RoundTrip.TermRoundTrip | actual_parser.py:171-175 | `parse_term` reads a reversed written term (a product, a number or a parenthesised expression) as its tree, stopping before the next token when that is not "*"/"/" |
| RoundTrip.ExprRoundTrip | actual_parser.py:177-181 | `parse_expr` reads any reversed grammatical expression as its tree, stopping before the next token when that is not an operator |
| RoundTrip.ReadsBack | actual_parser.py:141-189 | for any grammatical expression and any tokens in front of it whose last one is not an operator, the descent over the reversed list returns exactly the expression's tree and uses exactly its tokens |
| Parsing.ReverseInPlace | actual_parser.py:110 | `list.reverse()` leaves the array holding the reverse of its old contents |
| Parsing.Parser.constructor | actual_parser.py:105-111 | the parser holds the token list reversed, with the cursor at 0 |
| Parsing.Parser.Create | actual_parser.py:105-111 | `Parser(s)` fails exactly when tokenizing `s` fails, with the same error; otherwise it holds the reversed token list of `s` with the cursor at 0 |
| Parsing.Parser.Ahead | actual_parser.py:113-120 | `ahead(1)` returns the token after the current one when there is one, and None otherwise; a token ahead implies that the parser has not finished |
| Parsing.Parser.Current | actual_parser.py:122-125 | `current` returns the token at the cursor exactly when the parser has not finished, and raises IndexError otherwise |
| Parsing.Parser.ConsumeIf | actual_parser.py:131-139 | on a match it returns the current token and advances the cursor by exactly one; on an error (IndexError past the end, ExprSyntaxError for another type) the cursor does not move |
| Parsing.Parser.ParseCatBinary | actual_parser.py:141-157 | the method returns the same tree or error as `CatBinary`, and leaves the cursor just after the tree |
| Parsing.Parser.ParseValue | actual_parser.py:159-169 | the method returns the same tree or error as `Value`, and leaves the cursor just after the tree |
| Parsing.Parser.ParseTerm | actual_parser.py:171-175 | the method returns the same tree or error as `Term`, and leaves the cursor just after the tree |
| Parsing.Parser.ParseExpr | actual_parser.py:177-181 | the method returns the same tree or error as `Expr`, and leaves the cursor just after the tree |
| Parsing.Parser.Parse | actual_parser.py:183-189 | `parse` returns None for an empty token list and leaves the cursor alone; otherwise it returns the result of `parse_expr` from the cursor and, on success, leaves the cursor just after the expression |
| Parsing.ParseText | actual_parser.py:105-111 | `Parser(s).parse()` returns exactly `ParseString(s)`, to which every theorem of `Grammar` applies |
| Grammar.ParseWritten | actual_parser.py:141-189 | every grammatical expression, with whatever parentheses it has (redundant ones included) and any whitespace between its tokens, parses to the tree it stands for: operators of equal strength group to the left, "*"/"/" bind tighter than "+"/"-", and parentheses only group |
| Grammar.ParseWrittenText | actual_parser.py:141-189 | a grammatical expression written without whitespace parses to its tree |
| Grammar.ParseLayout | actual_parser.py:141-181 | a well-formed tree, printed with the fewest parentheses and any whitespace between its tokens, parses back to itself, so operators of equal strength group to the left and "*"/"/" bind tighter than "+"/"-" |
| Grammar.ParseSource | actual_parser.py:141-181 | the printout of a well-formed tree, with no whitespace, parses back to the tree |
| Grammar.ParseDropsPrefix | actual_parser.py:183-189 | tokens in front of a printout are silently ignored when the last of them is not an operator, with any separating whitespace: the result is the printout's tree |
| Grammar.ParseStringNoneIff | actual_parser.py:183-189 | `parse` returns None exactly when the input is empty or all whitespace |
| Grammar.StartsWithoutOperand | actual_parser.py:159-169 | a value, a term or an expression starting at a token that is neither a number nor ")" fails with ExprSyntaxError, raised by `consume_if("N")` |
| Grammar.ParseFailsAfterOperator | actual_parser.py:165-168 | input whose last token is an operator or "(" fails with ExprSyntaxError |
| Grammar.AtEnd | actual_parser.py:122-125 | every descent function started at the end of the buffer raises IndexError |
| Grammar.ParseAgainFails | actual_parser.py:183-189 | on a parser created from any grammatical input, a first `parse` returns its tree and a second `parse` on the same parser raises IndexError |
| Interpreter.FromChild | actual_parser.py:239-243 | an IndexError from evaluating the children becomes EvalError; any other exception passes through unchanged |
| Interpreter.Apply | actual_parser.py:244-253 | "+", "-", "*" and "/" dispatch to `sum_value`, `sub_value`, `prod_value` and `div_value` on the two values; any other text raises EvalError |
| Interpreter.EvalNode | actual_parser.py:233-253 | `_eval_node` on a tree it cannot walk (a wrong child count or an unknown operator text anywhere) always raises, and never IndexError |
| Interpreter.TreeInterpreter.Eval | actual_parser.py:255-259 | `eval` on a tree it cannot walk always raises, and never IndexError |
| Interpreter.WellFormedIsEvaluable | actual_parser.py:244-253 | the operator text of every tree the parser builds is one of the four the interpreter dispatches on |
| Interpreter.EvalSucceedsIff | actual_parser.py:233-253 | with operations that never raise, `_eval_node` returns a value exactly on the evaluable trees; on any other tree it raises AssertionError (child count) or EvalError (unknown text) |
| Interpreter.NoIndexErrorFromBelow | actual_parser.py:239-243 | with operations that never raise IndexError, `_eval_node` never raises it either |
| Interpreter.EvalByStackMachine | actual_parser.py:233-253 | on evaluable trees `_eval_node` agrees with a stack machine run on the postfix code, left child first then right child: the same value or the same first exception |
| Interpreter.OnlyOwnExceptions | actual_parser.py:233-253 | on an evaluable tree, every exception `_eval_node` raises comes from one of the operations |
| Interpreter.EvalParsedTree | actual_parser.py:255-259 | `eval` of a tree the parser built, with operations that never raise, returns a value |
| Arithmetic.NumberValue | actual_parser.py:265-266 | a text of digits alone is read as its decimal value; the empty text and a lone "." are refused |
| Arithmetic.NumberValueSomeIff | actual_parser.py:265-266 | `float` reads a text exactly when it is made of digits and dots, with at most one dot and at least one digit: "1." and ".5" are read, "1.2.3" is refused |
| Arithmetic.DecimalReading | actual_parser.py:265-266 | a text with one dot reads as its whole part plus its fraction digits divided by ten to the power of their count |
| Arithmetic.Number | actual_parser.py:265-266 | `n_value` returns the number the text reads as, and raises the not-a-number error exactly when the text is refused |
| Arithmetic.Divide | actual_parser.py:277-278 | `div_value` raises the zero-divisor error exactly when the divisor is 0, and otherwise returns the quotient q with q * divisor = dividend |
| Arithmetic.ExactRaisesOwn | actual_parser.py:262-278 | the operations of the exact interpreter raise only their own errors, never the evaluator's |
| Arithmetic.ParsedTreesFailOnlyOnValues | actual_parser.py:262-278 | evaluating a parsed tree exactly raises nothing but a refused number or a zero divisor |
| Samples.SubtractionGroupsLeft | actual_parser.py:141-157 | "1-2-3" parses to (1-2)-3 |
| Samples.DivisionGroupsLeft | actual_parser.py:141-157 | "8/4/2" parses to (8/4)/2 |
| Samples.ProductBindsTighterRight | actual_parser.py:171-181 | "2+3*4" parses to 2+(3*4) |
| Samples.ProductBindsTighterLeft | actual_parser.py:171-181 | "2*3+4" parses to (2*3)+4 |
| Samples.ParenthesesGroupRight | actual_parser.py:159-169 | "1-(2-3)" parses to 1-(2-3) |
| Samples.ParenthesesGroupSum | actual_parser.py:159-169 | "(1+2)*3" parses to (1+2)*3 |
| Samples.RedundantParenthesesVanish | actual_parser.py:159-169 | "(1)+2" parses to 1+2 |
| Samples.NestedParenthesesVanish | actual_parser.py:159-169 | "((2))" parses to the leaf 2 |
| Samples.LeftParenthesesAgree | actual_parser.py:141-169 | "(1-2)-3" parses to the same tree as "1-2-3" |
| Samples.LeadingNumberDropped | actual_parser.py:183-189 | "5 3" parses to the leaf 3 |
| Samples.UnmatchedOpenDropped | actual_parser.py:183-189 | "(1+2" parses to 1+2 |
| Samples.TrailingOperatorFails | actual_parser.py:165-168 | "1+" fails with ExprSyntaxError |
| Samples.LeadingOperatorFails | actual_parser.py:122-125 | "+1" fails with IndexError |
| Samples.BlankGivesNothing | actual_parser.py:183-189 | input of whitespace only parses to None |
| Samples.DotsStayInOneNumber | actual_parser.py:76-79 | "1.2.3" is one number token |
| Samples.SubtractionValue | actual_parser.py:233-253 | (1-2)-3 evaluates to -4 |
| Samples.ProductFirstValue | actual_parser.py:233-253 | (2*3)+4 evaluates to 10 |
| Samples.DivisionValue | actual_parser.py:233-253 | (8/4)/2 evaluates to 1 |
| Samples.PrecedenceValue | actual_parser.py:233-253 | 2+(3*4) evaluates to 14 |
| Samples.ParenthesesValue | actual_parser.py:233-253 | (1+2)*3 evaluates to 9 |
| Samples.DivisionByZeroRaised | actual_parser.py:277-278 | 1/(2-2) raises the zero-divisor error once both operands are evaluated |
| Samples.MalformedNumberRaised | actual_parser.py:265-266 | the number token "1.2.3" is refused by the number conversion |
| Samples.StructuralErrors | actual_parser.py:236-253 | an operator node with one child raises AssertionError; unknown operator text raises EvalError; a number node is converted whatever children it has |

## Left out

- The other calculator programs of the repository are not part of this model. `intelligent_calc.py` uses a learning library, randomness and console I/O. `speed_matters_calc.py` relies on floating-point rounding and console I/O. `safety_first_calc.py` uses randomness, Python's `eval` and `sys.exit`.
- Floating point: `ExampleInterpreter` uses Python floats. `Arithmetic` uses exact rationals instead, so it does not model rounding, overflow or infinities.
- Arithmetic.NumberValue: models `float` only on texts of digits and dots, which is all a number token can hold. Such a text is read when it has at most one dot and at least one digit, and is refused otherwise. Python's `float` also accepts forms such as "1e5", "inf" or surrounding whitespace, but the tokenizer never produces them.
- Character classes are narrowed to ASCII. `str.isdigit` is the digits 0-9 here, and `str.isspace` is the ASCII whitespace set (space, tab to carriage return, and the four separators 0x1C-0x1F). Unicode digits and spaces are not modelled.
- The unreachable `raise ExprSyntaxError` in `next_token` has no counterpart: `CharKind` covers every single-character token.
- `ahead` is modelled for `k = 1` only, the one value the code uses. Its `assert k == 1` is left out.
- The iterator protocol (`__next__`, `StopIteration`) is modelled only as far as "restart at 0, collect tokens until `next_token` answers None" (`Tokenizer.ToList`).
- Where the cursor stands after a failed parse is left open. The methods promise only the error that the descent functions name.
- `Tokenizer.current` and `Tokenizer.consume` are modelled with the precondition that the cursor is inside the string. `next_token` calls them only there.
- The recursion depth of Python (`RecursionError` on deeply nested input) is not modelled.
- Python's `assert` disappears under `python -O`. The model always raises `AssertionError` for a node without two children.
