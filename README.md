# paraCL interpreter core in Dafny

paraCL is a small C-like language. A program is read as text and split into
tokens: integer literals, identifiers, keywords, operators and the
auxiliary characters `{}();?`. A recursive-descent parser builds a syntax tree
from the tokens and records every syntax error with a counter and a message
buffer. A tree walker then runs the tree over a stack of scope levels that
map identifier ids to integers. `?` reads an integer and `print` writes one.

This project models that core in three parts.

1. **The tokenizer.** This is the `tokenizer` of lexer.h with its
   process-wide interning table `IDs`.
   - `Lexer` holds the character classes, the keyword and operator tables, and
     one specification function per scanning routine.
   - The class `Lexer.Lexer` keeps the interning table as its field `ids`. Its
     methods are the routines of the source (cursor loops), each proved equal
     to its specification function.
   - `Tokens` holds the token classes of lexer.cpp.
2. **The parser.**
   - `ExprParser` is the expression half (`parse_op`,
     `find_op_not_in_parentheses`, `find_bool_end`, `parse_bool` down to
     `parse_true_false`). The source writes it recursively over by-value
     iterator ranges, so it is modelled as pure functions that thread the error
     state.
   - `StmtParser` is the statement half (`parse` down to `parse_right`), as
     specification functions that return the tree, the new cursor and the new
     error state.
   - `Syntax` holds the syntax tree and the error state.
3. **The evaluator.**
   - `Eval` holds specification functions of `run` down to `run_int`, over a
     machine state: the scope stack `IDs_`, the input numbers, the read
     position, the printed numbers and the error state.
   - The class `Interp.Parser` is the `parser` class. Its fields are the tree,
     `IDs_`, the error buffer and counter, the input and the output. Its parse
     and run methods update these fields the way the source does, and each is
     proved to end in the state that the matching `StmtParser` or `Eval`
     function computes.

Three modules prove properties of these functions:

- `LexerProps`:
  - numerals read back;
  - the character classes and their character lists;
  - whitespace handling;
  - auxiliary characters and their tags;
  - growth and density of the interning table;
  - longest-match, one-character and unknown operators;
  - a worked example.
- `ParseShapes` and `ParserProps`:
  - error states only grow;
  - an error-free parse yields a well-formed tree;
  - how `parse_op` splits;
  - left associativity;
  - unary minus.
- `EvalProps`:
  - every identifier is bound in at most one level;
  - a run never changes which names the enclosing levels bind, so a name
    first assigned inside a block is gone after the block;
  - assignments read back, and `print` writes the value of its operand;
  - a bare identifier is created by `run_id_lval`, while the same name inside
    an expression is read by `run_int`;
  - equivalences of statements.

Two facts about the scope stack shape the evaluator model:

- `run_id_lval` creates a new name in the innermost live level (`IDs_[lvl-1]`),
  and `run_aux`, `run_if`, `run_do` and `run_while` resize that level away
  when they finish. So a name first assigned inside a block, an if or a loop
  is not visible after it, which `EvalProps.BlockBindingsAreLocal` states.
- `run_int` and `run_id_lval` search the levels from the outermost upward.
  Every identifier is bound in at most one level (`EvalProps.StatementsKeepUnique`),
  so the direction makes no difference.

## Model

| member | source | states |
|---|---|---|
| Tokens.KindIdentifiesConstructor | lexer.cpp:5-73 | a token's `node_t` kind determines which token class it is: identifier, integer literal, unary, binary or unknown iff that constructor, and every other kind is a plain token |
| Tokens.AuxiliaryCharacters | lexer.cpp:75-79 | `isauxiliary` holds exactly for the characters `{ } ( ) ; ?` |
| Lexer.RunEnd | lexer.h:101-146 | the end of a maximal run of one character class: every character before it is in the class, and the character at it is not (or it is the end of the text) |
| Lexer.RunEndUnique | lexer.h:101-146 | any position that ends a maximal run is that run's end |
| Lexer.DigitValue | lexer.h:108-121 | a digit's value is below 10 |
| Lexer.AuxiliaryChar | lexer.h:156-167 | each of the six tags of read_auxiliary_token stands for an auxiliary character |
| Lexer.AuxiliaryToken | lexer.h:152-170 | an auxiliary character becomes a plain token whose tag is one of the six and stands for that same character, so AuxiliaryChar is its inverse |
| Lexer.OpToken | lexer.h:172-214 | reading an operator consumes at least one character and stays inside the text |
| Lexer.Intern | lexer.h:139-146 | after interning, the name is in the table with the returned id; only that name is added; a known name keeps the table unchanged; a new name gets the table's size as its id; a dense table stays dense |
| Lexer.NextToken | lexer.h:230-249 | one token always consumes at least one character and stays inside the text |
| Lexer.TokenizeFromStep | lexer.h:230-249 | one round of the tokenize loop: skip the spaces, read one token, then continue after it |
| Lexer.TokenizeFrom | lexer.h:230-249 | tokenizing from a position yields at most one token per remaining character |
| Lexer.DecimalValue | lexer.h:119 | the value `stoi` gives a numeral of n digits is below 10 to the n |
| Lexer.IdKeywordToken | lexer.h:133-146 | a keyword yields its plain token and leaves the table; another name yields an identifier token with the id the table then maps it to, keeping every old entry; a new name gets the table's size and is the only key added; a known name leaves the table unchanged |
| Lexer.SkipSpaces | lexer.h:101-106 | the cursor loop stops at the end of the run of whitespace |
| Lexer.ReadDigitToken | lexer.h:108-121 | consumes the maximal run of digits and yields the integer literal of their decimal value |
| Lexer.ReadAuxiliaryToken | lexer.h:152-170 | consumes one auxiliary character and yields its plain token |
| Lexer.ReadOpToken | lexer.h:172-214 | yields the token and the cursor of the operator reading specification: a two-character binary operator if one matches, else a one-character unary or binary operator, else an unknown token over the run of operator characters |
| Lexer.ReadOpAuxiliaryToken | lexer.h:216-228 | an auxiliary character goes to read_auxiliary_token and anything else to read_op_token |
| Lexer.Lexer.constructor | lexer.h:46 | the interning table starts empty |
| Lexer.Lexer.ReadIdKeywordToken | lexer.h:123-148 | consumes the maximal alphanumeric run; a keyword yields its plain token and any other name is interned as an identifier token |
| Lexer.Lexer.ReadToken | lexer.h:230-249 | digit, letter and other characters are dispatched as the source does; the token, cursor and table equal NextToken's |
| Lexer.Lexer.Tokenize | lexer.h:230-249 | the token list and the final interning table equal the tokenize specification over the whole text |
| LexerProps.NumeralValue | lexer.h:119 | `stoi` of the decimal numeral of n is n |
| LexerProps.ReadsNumeral | lexer.h:108-121 | a numeral followed by a non-digit is read back as the integer literal n and exactly the numeral is consumed |
| LexerProps.LeadingZerosIgnored | lexer.h:119 | a leading `0` does not change the value of a numeral |
| LexerProps.CharClassesDisjoint | lexer.h:237-245 | the space, digit, letter and punctuation classes are pairwise disjoint, so at most one branch of the tokenize loop applies, and every auxiliary character is punctuation |
| LexerProps.SpaceAndDigitCharacters | lexer.h:101-121 | `isspace` holds for exactly space, tab, newline, vertical tab, form feed and carriage return; `isdigit` for exactly `0` to `9` |
| LexerProps.LetterCharacters | lexer.h:128 | `isalpha` holds for exactly the 26 lower-case and 26 upper-case letters |
| LexerProps.PunctuationCharacters | lexer.h:180-211 | `ispunct` holds for exactly the 32 punctuation characters of the "C" locale |
| LexerProps.AuxiliaryRoundTrip | lexer.h:152-170 | reading the character a tag stands for gives back the token of that tag |
| LexerProps.AuxiliaryCharacterToken | lexer.h:152-170 | an auxiliary character is one token of one character, the table is unchanged, and its tag is OPEN_BRACE, CLOSE_BRACE, OPEN_PARENTHESIS, CLOSE_PARENTHESIS, SEMICOLON or SCAN iff the character is `{`, `}`, `(`, `)`, `;` or `?` |
| LexerProps.OneCharOperator | lexer.h:199-205 | without a two-character binary operator, a one-character binary operator is tried first and then a unary one, each consuming one character |
| LexerProps.UnknownOperatorRun | lexer.h:206-211 | any other operator character starts an unknown token over the maximal run of non-auxiliary punctuation after it, which ends at the end of the text, at a non-punctuation character or at an auxiliary one |
| LexerProps.SkipsLeadingSpaces | lexer.h:237-238 | tokenizing from a position equals tokenizing from the first non-space character after it |
| LexerProps.SpacesGiveNoTokens | lexer.h:230-249 | text that is only whitespace gives no token and leaves the table unchanged |
| LexerProps.NextTokenTable | lexer.h:123-148 | one token keeps every entry of the interning table and keeps a dense table dense |
| LexerProps.TokenizeTable | lexer.h:230-249 | tokenize keeps every table entry and keeps a dense table dense, so ids are 0, 1, 2, ... in order of first occurrence |
| LexerProps.KeywordKeepsTable | lexer.h:133-138 | a keyword becomes its plain token, consumes its alphanumeric run and does not change the table |
| LexerProps.IdentifierInterned | lexer.h:139-146 | a non-keyword name becomes an identifier token whose id the table maps the name to; a known name keeps the table, a new one gets the table's size as its id |
| LexerProps.LongestMatch | lexer.h:180-186 | when the next two characters form a binary operator, that operator is read and two characters are consumed |
| LexerProps.MinusIsSubstraction | lexer.h:172-214 | a `-` is always read as the one-character SUBSTRACTION |
| LexerProps.Exclamation | lexer.h:172-214 | `!=` is NOT_EQUAL over two characters; `!` without a following `=` is LOGICAL_NEGATION over one |
| LexerProps.TwelvePlusThree | lexer.h:230-249 | `12+3` tokenizes to 12, ADDITION, 3 without touching the table |
| Syntax.ExtendsTransitive | parser.h:177-180 | appending diagnostics is transitive |
| Syntax.TranscriptAdd | parser.cpp:188-189 | recording a diagnostic appends its message to the error buffer |
| ExprParser.ScanBack | parser.h:210-229 | the backward scan returns the start of the range or a position where the level splits |
| ExprParser.ScanBackRightmost | parser.h:210-229 | the position found is outside parentheses, and no split position to its right is outside parentheses |
| ExprParser.FindOp | parser.h:210-229 | on an empty range the result is the range's end; otherwise it lies in the range, and when it is after the start it is a split position of the level |
| ExprParser.FindOpRightmost | parser.h:210-229 | the split found is the right-most operator of the level at parenthesis depth zero |
| ExprParser.FindOpNotInParentheses | parser.h:210-229 | the backward loop with the parenthesis counter returns FindOp's position |
| ExprParser.ParseOp | parser.h:183-208 | an empty range records "Expected expression"; the error state only grows; a poisoned state returns Empty unchanged; a parse without errors builds a complete expression |
| ExprParser.ParseUnary | parser.cpp:610-646 | an empty range records "Expected factor"; the same result shape as ParseOp |
| ExprParser.ParseFactor | parser.cpp:648-684 | an empty range records "Expected factor"; the same result shape as ParseOp |
| ExprParser.ParseId | parser.cpp:686-696 | builds the identifier node of the first token; no error is recorded iff the range is exactly one token |
| ExprParser.ParseInt | parser.cpp:698-712 | builds the literal node of the first token; no error is recorded iff the range is exactly one token |
| ExprParser.ParseScan | parser.cpp:714-726 | builds the `?` node; no error is recorded iff the range is exactly one token |
| ExprParser.ParseTrueFalse | parser.cpp:728-740 | builds the boolean literal of the first token; no error is recorded iff the range is exactly one token |
| ExprParser.ParseBool | parser.cpp:466-480 | an empty range records "Expected expression"; the same result shape as ParseOp |
| ExprParser.IfBool | parser.cpp:231-239 | an expression may not contain exactly the unknown tokens, the braces, `;` and the keywords `print`, `if`, `else`, `do` and `while` |
| ExprParser.BoolEndFrom | parser.cpp:241-262 | the loop's stopping position lies between its start and the range's end |
| ExprParser.BoolEnd | parser.cpp:241-262 | the end of a condition lies in the range |
| ExprParser.BoolEndFromStops | parser.cpp:241-262 | one pass of the loop keeps the depth non-negative and passes only expression tokens |
| ExprParser.BoolEndStep | parser.cpp:246-259 | one further expression token keeps the depth non-negative |
| ExprParser.BoolEndStops | parser.cpp:241-262 | find_bool_end passes only expression tokens at non-negative depth and stops at the end, at a token that cannot be part of an expression, or at an unmatched `)` |
| ExprParser.FindBoolEnd | parser.cpp:241-262 | the for loop with the parenthesis counter returns BoolEnd |
| StmtParser.Expect | parser.cpp:268-273 | the cursor moves past the token iff it has the expected kind, and the error state is unchanged iff it moves |
| StmtParser.ParseRightF | parser.cpp:426-458 | the cursor stays in the list; a poisoned state returns Empty at the same cursor; an error-free parse consumes at least one token |
| StmtParser.ParsePrntF | parser.cpp:404-424 | the cursor stays in the list; a poisoned state returns Empty at the same cursor; an error-free parse consumes at least one token |
| StmtParser.ParseStmtF | parser.cpp:366-402 | the cursor stays in the list; a poisoned state returns Empty at the same cursor; an error-free statement consumes at least one token |
| StmtParser.DispatchIf | parser.cpp:376-377 | a statement starting with `if` is handle_if_else's |
| StmtParser.DispatchDo | parser.cpp:382-383 | a statement starting with `do` is handle_do_while's |
| StmtParser.DispatchWhile | parser.cpp:384-385 | a statement starting with `while` is handle_while's |
| StmtParser.DispatchOpenBrace | parser.cpp:386-387 | a statement starting with `{` is parse_block's |
| StmtParser.ParenCondF | parser.cpp:268-283 | `( condition )` keeps the cursor in the list |
| StmtParser.HandleIfElseF | parser.cpp:264-297 | the cursor stays in the list past the `if` |
| StmtParser.ElseBranchF | parser.cpp:287-294 | the cursor stays in the list |
| StmtParser.HandleDoWhileF | parser.cpp:299-337 | the cursor stays in the list past the `do` |
| StmtParser.DoTailF | parser.cpp:306-334 | the cursor stays in the list |
| StmtParser.HandleWhileF | parser.cpp:339-364 | the cursor stays in the list past the `while` |
| StmtParser.ParseBlockF | parser.cpp:198-218 | the cursor stays in the list, and an error-free block that is not at the end consumes a token |
| StmtParser.ParseStmtsF | parser.cpp:220-229 | the cursor stays in the list |
| StmtParser.ParseProgram | parser.cpp:182-196 | the root is always a scope |
| ParseShapes.ExtendsByAdd | parser.cpp:188-189 | recording a diagnostic extends the error state |
| ParseShapes.ExpectShape | parser.cpp:268-273 | an expectation either leaves the error state alone or poisons it |
| ParseShapes.ParseRightShape | parser.cpp:426-458 | the result is an assignment iff the second token is `=` and the first is an identifier, which is the target; an `=` after any other token records "Unknown token" and yields Empty; the cursor ends at find_bool_end's position; an error-free result is a right side |
| ParseShapes.ParsePrntShape | parser.cpp:404-424 | without an error, `print` yields a print node of a right side and anything else a right side |
| ParseShapes.ParseStmtShape | parser.cpp:366-402 | diagnostics are only appended, and an error-free statement is well formed |
| ParseShapes.PrntStmtShape | parser.cpp:391-399 | the print-or-right branch of parse_stmt keeps that shape |
| ParseShapes.ParenCondShape | parser.cpp:268-283 | without an error, the condition is a complete expression |
| ParseShapes.HandleIfElseShape | parser.cpp:264-297 | handle_if_else builds an if node whose error-free result is well formed |
| ParseShapes.ElseBranchShape | parser.cpp:287-294 | the else branch is well formed without an error |
| ParseShapes.HandleDoWhileShape | parser.cpp:299-337 | handle_do_while builds a do loop whose error-free result is well formed |
| ParseShapes.DoTailShape | parser.cpp:306-334 | without an error, the do-loop condition is a complete expression |
| ParseShapes.HandleWhileShape | parser.cpp:339-364 | handle_while builds a while loop whose error-free result is well formed |
| ParseShapes.ParseBlockShape | parser.cpp:198-218 | a block opening with `{` builds a scope whose error-free result is well formed |
| ParseShapes.ParseStmtsShape | parser.cpp:220-229 | parse_stmts stops at the end, at a `}` or at the first error, and every statement it appends without an error is well formed |
| ParseShapes.ParseProgramShape | parser.cpp:182-196 | without an error, the whole token list is consumed and the root is a well-formed scope |
| ParserProps.NoSplitPassesDown | parser.h:203-205 | with no operator of its level after the start, parse_op parses the whole range at the next level down |
| ParserProps.SplitMakesBinOp | parser.h:195-199 | with a split found, parse_op builds a binary node from the left part at the left-hand level and the right part at the next level, threading errors from left to right |
| ParserProps.LiteralAtEveryLevel | parser.cpp:698-712 | a single integer literal parses to that literal at every level, with no error |
| ParserProps.UnaryOperators | parser.cpp:610-646 | a leading `!` is a logical negation and a leading `-` a negation of the rest; any other leading operator records "Unknown token" |
| ParserProps.MinusRangeReachesExpr | parser.cpp:466-582 | a range whose only operators are `-` reaches parse_expr unchanged |
| ParserProps.LeftAssociative | parser.h:210-229 | `a - b - c` parses to `(a - b) - c` |
| ParserProps.MinusAfterOperatorNegates | parser.cpp:564-582 | `a - - b` parses to `a - (-b)` |
| Eval.ProgressTransitive | parser.cpp:756-778 | a proof aid: forward progress is transitive, which chains the per-statement Progress clauses of run_aux and its callees |
| Eval.FirstBinding | parser.cpp:930-939 | the first level from a start that binds the name: no earlier level binds it |
| Eval.Resize | parser.cpp:760 | `IDs_.resize(n)` keeps the first n levels and adds empty ones |
| Eval.TruncDiv | parser.cpp:913-915 | C++ division truncating toward zero; a zero divisor, undefined in the source, gives 0 |
| Eval.NatDivision | parser.cpp:913-915 | a proof aid for TruncDivRemainder: Dafny's Euclidean division law on non-negative operands |
| Eval.TruncDivRemainder | parser.cpp:913-915 | the magnitude of the quotient is the quotient of the magnitudes; the remainder is smaller than the divisor and has the dividend's sign |
| Eval.EvalExpr | parser.cpp:855-865 | an expression only reads input and records errors: the scope stack and output are unchanged, and the state moves forward |
| Eval.EvalUnary | parser.cpp:867-875 | `!` yields 0 or 1; the same effect as run_expr |
| Eval.EvalBinary | parser.cpp:877-917 | comparisons and logical operators yield 0 or 1; the same effect as run_expr |
| Eval.Apply | parser.cpp:886-915 | every comparison yields 0 or 1; `==` yields 1 iff the values are equal and `<` yields 1 iff the left one is smaller |
| Eval.EvalInt | parser.cpp:930-954 | an identifier bound in some level yields its first binding with no error; an unbound one yields 0 and records "Undefined identifier" |
| Eval.Lval | parser.cpp:919-928 | a bound name's level is returned and nothing changes; an unbound name is created as 0 in the innermost level; no other level changes |
| Eval.FirstBindingAt | parser.cpp:930-939 | a name bound only at level j is found at j |
| Eval.FirstBindingFrom | parser.cpp:930-939 | a name unbound from i up to j, and bound at j, is found at j |
| Eval.ExecRight | parser.cpp:837-853 | leaves the stack at lvl levels, prints nothing, moves forward; a poisoned state gives 0 and no change; what a bare identifier does is BareIdentifierCreates and BareIdentifierReads, what an assignment does is AssignThenRead |
| Eval.ExecPrnt | parser.cpp:824-835 | `print` appends exactly the value run_right gives its operand; anything else prints nothing; a poisoned state changes nothing |
| Eval.Exec | parser.cpp:756-778 | the stack is back at lvl levels, the state moves forward, and a poisoned state changes nothing |
| Eval.ExecSeq | parser.cpp:762-767 | the statements of a scope keep the stack at its size and move forward |
| Eval.ExecIf | parser.cpp:780-792 | the stack is back at lvl levels and the state moves forward |
| Eval.ExecDo | parser.cpp:794-806 | the stack is back at lvl levels and the state moves forward |
| Eval.DoPasses | parser.cpp:798-805 | the passes of run_do keep the stack at lvl levels |
| Eval.DoPassesStep | parser.cpp:798-805 | one pass: a false condition ends the loop with the inner level resized away; a true one runs the loop again from the new state |
| Eval.ExecWhile | parser.cpp:808-822 | the stack is back at lvl levels and the state moves forward |
| Eval.WhilePasses | parser.cpp:812-821 | the passes of run_while keep the stack at lvl levels |
| Eval.WhilePassesStep | parser.cpp:812-821 | a true condition runs the body, then the loop again from the new state |
| Eval.RunProgram | parser.cpp:742-754 | the code is -1, -2 or 0; -1 iff parsing failed, and then nothing changes; -2 when the run records an error; 0 iff no run-time error; the stack ends empty |
| Interp.Parser.constructor | parser.cpp:115-118 | an empty tree, no errors, an empty scope stack, nothing read or printed |
| Interp.Parser.Fail | parser.cpp:188-189 | the counter and the buffer record exactly one more diagnostic |
| Interp.Parser.Parse | parser.cpp:182-196 | the tree and the error state equal ParseProgram's; returns 0 iff no error, else -1 |
| Interp.Parser.ParseBlock | parser.cpp:198-218 | the tree, the cursor and the error state equal ParseBlockF's |
| Interp.Parser.ParseStmts | parser.cpp:220-229 | the tree, the cursor and the error state equal ParseStmtsF's |
| Interp.Parser.HandleIfElse | parser.cpp:264-297 | the tree, the cursor and the error state equal HandleIfElseF's |
| Interp.Parser.ElseBranch | parser.cpp:287-294 | the tree, the cursor and the error state equal ElseBranchF's |
| Interp.Parser.HandleDoWhile | parser.cpp:299-337 | the tree, the cursor and the error state equal HandleDoWhileF's |
| Interp.Parser.DoTail | parser.cpp:306-334 | the tree, the cursor and the error state equal DoTailF's |
| Interp.Parser.HandleWhile | parser.cpp:339-364 | the tree, the cursor and the error state equal HandleWhileF's |
| Interp.Parser.ParenCond | parser.cpp:268-283 | the tree, the cursor and the error state equal ParenCondF's |
| Interp.Parser.Consume | parser.cpp:278-283 | the cursor and the error state equal Expect's |
| Interp.Parser.ParseCond | parser.cpp:274-277 | the cursor moves to find_bool_end's position, and the condition is parse_bool of the range up to it |
| Interp.Parser.ParseStmt | parser.cpp:366-402 | the tree, the cursor and the error state equal ParseStmtF's |
| Interp.Parser.ParsePrnt | parser.cpp:404-424 | the tree, the cursor and the error state equal ParsePrntF's |
| Interp.Parser.ParseRight | parser.cpp:426-458 | the tree, the cursor and the error state equal ParseRightF's |
| Interp.Parser.ParseAssign | parser.cpp:438-450 | the assignment of the identifier to parse_bool of the range after `=`, and the cursor at find_bool_end's position |
| Interp.Parser.Run | parser.cpp:742-754 | when every loop finished, the code and the final state equal RunProgram's |
| Interp.Parser.Evaluate | parser.cpp:855-865 | the value and the state equal EvalExpr's |
| Interp.Parser.RunAux | parser.cpp:756-778 | `finished` iff Exec is Done, and then the state equals Exec's |
| Interp.Parser.RunScope | parser.cpp:759-768 | `finished` iff the scope's statements ran to Done, and then the state equals ExecSeq's |
| Interp.Parser.RunIf | parser.cpp:780-792 | `finished` iff ExecIf is Done, and then the state equals ExecIf's |
| Interp.Parser.RunDo | parser.cpp:794-806 | `finished` iff ExecDo is Done, and then the state equals ExecDo's |
| Interp.Parser.DoPass | parser.cpp:798-804 | one pass of the do loop's `while (1)` agrees with DoPasses |
| Interp.Parser.RunWhile | parser.cpp:808-822 | `finished` iff ExecWhile is Done, and then the state equals ExecWhile's |
| Interp.Parser.WhilePass | parser.cpp:812-820 | one pass of the while loop's `while (1)` agrees with WhilePasses |
| Interp.Parser.RunPrnt | parser.cpp:824-835 | the state equals ExecPrnt's |
| Interp.Parser.RunRight | parser.cpp:837-853 | the value and the state equal ExecRight's |
| Interp.Parser.RunIdLval | parser.cpp:919-928 | the new scope stack and the level found equal Lval's |
| EvalProps.ResizeKept | parser.cpp:760 | resizing keeps the names of the surviving levels and keeps bindings unique |
| EvalProps.ClearKept | parser.cpp:785 | clearing level j keeps the names of the levels below j and keeps bindings unique |
| EvalProps.Overwrite | parser.cpp:848 | writing through the reference binds the name to the value at that level |
| EvalProps.OverwriteKept | parser.cpp:848 | overwriting an existing binding keeps every level's names |
| EvalProps.LvalKept | parser.cpp:919-928 | run_id_lval keeps the names of the levels below the innermost one and keeps bindings unique |
| EvalProps.ExecRightKept | parser.cpp:837-853 | run_right keeps uniqueness and the names of the levels below the innermost one |
| EvalProps.AssignKept | parser.cpp:843-850 | an assignment keeps uniqueness and the names of the levels below the innermost one |
| EvalProps.ExecPrntKept | parser.cpp:824-835 | run_prnt keeps uniqueness and the names of the levels below the innermost one |
| EvalProps.ExecPrntPure | parser.cpp:824-835 | a simple statement that neither names nor assigns an identifier leaves the scope stack as it is |
| EvalProps.ExecKept | parser.cpp:756-778 | run_aux keeps uniqueness; a block, if or loop changes no name of any enclosing level, and a simple statement changes none below the innermost level |
| EvalProps.ScopeKept | parser.cpp:759-768 | a scope keeps the names of the enclosing levels and uniqueness |
| EvalProps.ExecSeqKept | parser.cpp:762-767 | the statements of a scope keep uniqueness and the names of every level below the scope's own |
| EvalProps.ExecIfKept | parser.cpp:780-792 | run_if keeps the names of every enclosing level and uniqueness |
| EvalProps.DoPassKept | parser.cpp:798-804 | one pass of run_do keeps the enclosing levels' names and uniqueness |
| EvalProps.DoPassesKept | parser.cpp:794-806 | run_do keeps the names of every enclosing level and uniqueness |
| EvalProps.WhilePassKept | parser.cpp:812-820 | one pass of run_while keeps the enclosing levels' names and uniqueness |
| EvalProps.WhilePassesKept | parser.cpp:808-822 | run_while keeps the names of every enclosing level and uniqueness |
| EvalProps.BlockBindingsAreLocal | parser.cpp:756-778 | a name no level binds before a block, if or loop is bound in no level after it |
| EvalProps.StatementsKeepUnique | parser.cpp:756-778 | from a scope stack where every identifier is bound in at most one level, running any statement keeps every identifier bound in at most one level |
| EvalProps.AssignThenRead | parser.cpp:837-853 | after `x = e`, reading x gives the assigned value without error, and every other name is found at the same level with the same value |
| EvalProps.FreshIncrement | parser.cpp:843-849 | `x = x + 1` with x unbound gives 1 without an error, because run_id_lval creates x as 0 before the right side is read |
| EvalProps.BareIdentifierCreates | parser.cpp:837-853 | a bare identifier x bound nowhere, as a statement or a `print` operand, gives 0, records no error and creates x = 0 in the innermost level only; read inside an expression the same x records "Undefined identifier" |
| EvalProps.BareIdentifierReads | parser.cpp:919-928 | a bound bare identifier gives the value of its first binding and changes nothing |
| EvalProps.PrintAssigned | parser.cpp:824-835 | `x = e; print x;` prints exactly the value assigned to x, or nothing when the assignment recorded an error |
| EvalProps.SingleStatement | parser.cpp:762-767 | a scope of one statement runs that statement |
| EvalProps.IfTrue | parser.cpp:780-792 | `if (true)` runs the then-branch as a block |
| EvalProps.IfFalse | parser.cpp:780-792 | `if (false)` runs the else-branch as a block |
| EvalProps.DoFalseRunsOnce | parser.cpp:794-806 | `do b while (false);` runs b once as a block |
| EvalProps.WhileFalseSkips | parser.cpp:808-822 | `while (false) b` changes nothing |
| EvalProps.AndShortCircuits | parser.cpp:883-885 | `l && ?` with a false left operand reads no input |

## Left out

- The executable around the core is not part of this model. It reads the
  program file, writes to `std::cerr` and calls tokenize, parse and run, which
  is I/O.
  - `std::cin` is the `input` sequence with a read position `read`. A `?` past
    the end of the input yields 0, as a failed `std::cin >>` leaves `ret == 0`.
  - `std::cout` is the `output` sequence of printed numbers.
  - `std::cerr` output is not modelled. The error buffer is the list of
    diagnostics whose `Transcript` is the `errors` string.
- `parent_` links, the destructor `parser_dct_aux` and the node casts are not
  modelled. The tree is a Dafny datatype.
- The lexer's static `IDs` map is the field `ids` of a `Lexer.Lexer` object,
  not a process-wide global.
- 32-bit `int`:
  - Values are unbounded integers.
  - Overflow in `+`, `-`, `*`, unary `-` and `stoi` is not modelled.
  - Division by zero yields 0; it is undefined in the source.
- Operand order, because C++ does not specify the order in which it evaluates
  the arguments of a call or the operands of an operator:
  - The evaluator reads the two operands of a binary operator left to right.
  - `parse_op` builds a binary node from `parse_lhs(...)` and `parse_rhs(...)`
    as two constructor arguments (parser.h:196-199). The model parses the left
    operand first. When both sides are malformed, this decides which
    diagnostic is recorded, since a poisoned state stops the other side.
- `Interp.Parser.Run`: every loop gets a budget of `fuel` passes. A loop that
  needs more ends the run with `finished == false`. Programs that do not
  terminate are therefore not modelled.
- `Lexer.Lexer.Tokenize`: text with a character outside space, digit, letter
  and punctuation is excluded by the precondition `AllLexable`. On such a
  character the source's loop makes no progress and runs forever.
- Text that ends in whitespace: the source reads `*cur` at the end of the text
  after skipping the spaces, which is undefined. The model stops there.
- `StmtParser.ParseBlockF`: when `parse_stmts` stops at the end of the tokens
  without a `}`, the source's `++cur` goes past `end`, which is undefined. The
  model records "Expected }" and clamps the cursor at the end.
- `StmtParser.ParseRightF`: on an empty range the source assigns the
  uninitialised `bool_end` to the cursor. The model leaves the cursor where it
  was.
- `StmtParser.ParseRightF`: when the token before `=` is not an identifier,
  `parse_id` casts it to an identifier anyway (parser.cpp:446, 689), which is
  undefined. In that case the model records "Unknown token", yields Empty and
  moves the cursor to find_bool_end's position after the `=`. This is
  `ParseShapes.ParseRightShape`'s fourth clause.
- `ParenCondF`, `ElseBranchF` and `DoTailF` (and the methods `ParenCond`,
  `ElseBranch`, `DoTail` and `ParseAssign`) factor repeated parts of
  `handle_if_else`, `handle_do_while`, `handle_while` and `parse_right` into
  functions of their own. This changes no behaviour.
- Lexer.OpToken: its own contract states only progress. What it reads is stated
  by the LexerProps lemmas `LongestMatch` (two-character operators),
  `OneCharOperator` (one-character binary, then unary operators),
  `UnknownOperatorRun` (the unknown run), `MinusIsSubstraction` and
  `Exclamation`.
- Lexer.NextToken: its own contract states only progress. The table and token
  properties are the LexerProps lemmas.
- StmtParser.ParseStmtF and its siblings: their own contracts state cursor
  bounds and poisoning. The tree shapes are the ParseShapes lemmas, and the
  dispatch by keyword is `DispatchIf`, `DispatchDo`, `DispatchWhile` and
  `DispatchOpenBrace`.
- Eval.Exec, Eval.ExecRight and the other run specification functions: their
  own contracts state the stack size and forward progress. The bindings they
  keep are ExecKept and its siblings. ExecRight on a bare identifier is
  BareIdentifierCreates and BareIdentifierReads; on an assignment it is
  AssignThenRead and FreshIncrement.
- `Interp.Parser.DoPass` and `Interp.Parser.WhilePass` carry a ghost pass count.
  It is only used to tie each pass to `DoPasses` and `WhilePasses`.
