/** The statement half of the parser (parser.cpp parse, parse_block,
    parse_stmts, handle_if_else, handle_do_while, handle_while, parse_stmt,
    parse_prnt, parse_right) as specification functions. The source moves a
    cursor passed by reference; here each function returns the tree, the new
    cursor and the new error state, and the methods of `Interp.Parser` are
    proved equal to them. */
module StmtParser {
  import Types
  import opened Tokens
  import opened Syntax
  import opened ExprParser

  /** What every cursor-moving parse function promises: the cursor stays in
      the token list and never moves back. */
  predicate Moves(toks: seq<Token>, cur: nat, c: nat) {
    cur <= c <= |toks|
  }

  /** A statement parser's result: the tree, the new cursor and the new
      error state. */
  datatype Parsed = Parsed(tree: Ast, next: nat, err: ErrState)

  /** parse_stmts' result: the statements, the new cursor and the new error
      state. */
  datatype ParsedList = ParsedList(trees: seq<Ast>, next: nat, err: ErrState)

  /** The cursor and the error state after stepping over a fixed token. */
  datatype Moved = Moved(next: nat, err: ErrState)

  /** The recurring `if (cur == end || **cur != K) error; else ++cur;`. */
  function Expect(toks: seq<Token>, c: nat, k: Types.NodeKind, msg: Diag, e: ErrState): (r: Moved)
    requires c <= |toks|
    ensures Moves(toks, c, r.next)
    ensures r.err == e <==> r.next == c + 1
    ensures r.next == c + 1 <==> c < |toks| && toks[c].Kind() == k
  {
    if c == |toks| || toks[c].Kind() != k then Moved(c, e.Add(msg)) else Moved(c + 1, e)
  }

  /** parse_right: an assignment when the second token is '=', otherwise an
      expression up to find_bool_end; either way the cursor moves to the end
      of the expression. At the end of the list the source leaves the cursor
      unset; the model leaves it where it was. Before '=' the source casts
      the first token to an identifier without checking it; on any other
      token that cast is undefined, and the model records "Unknown token". */
  function ParseRightF(toks: seq<Token>, cur: nat, e: ErrState): (r: Parsed)
    requires cur <= |toks|
    ensures Moves(toks, cur, r.next)
    ensures e.Poisoned() ==> r == Parsed(Empty, cur, e)
    ensures !r.err.Poisoned() ==> cur < r.next
    decreases |toks| - cur, 0
  {
    if e.Poisoned() then Parsed(Empty, cur, e)
    else if cur == |toks| then Parsed(Empty, cur, e.Add(MsgExpectedRight))
    else if |toks| - cur >= 2 && toks[cur + 1].Kind() == Types.BinaryOperation
            && toks[cur + 1].bop == Types.Assignment then
      var boolEnd := BoolEnd(toks, cur + 2, |toks|);
      if !toks[cur].Id? then Parsed(Empty, boolEnd, e.Add(MsgUnknownToken))
      else
        var Built(lhs, e1) := ParseId(toks, cur, cur + 1, e);
        var Built(rhs, e2) := ParseBool(toks, cur + 2, boolEnd, e1);
        Parsed(Assign(lhs.id, rhs), boolEnd, e2)
    else
      var boolEnd := BoolEnd(toks, cur, |toks|);
      var Built(x, e1) := ParseBool(toks, cur, boolEnd, e);
      Parsed(x, boolEnd, e1)
  }

  /** parse_prnt: `print right` or a bare `right`. */
  function ParsePrntF(toks: seq<Token>, cur: nat, e: ErrState): (r: Parsed)
    requires cur <= |toks|
    ensures Moves(toks, cur, r.next)
    ensures e.Poisoned() ==> r == Parsed(Empty, cur, e)
    ensures !r.err.Poisoned() ==> cur < r.next
    decreases |toks| - cur, 1
  {
    if e.Poisoned() then Parsed(Empty, cur, e)
    else if cur == |toks| then Parsed(Empty, cur, e.Add(MsgExpectedPrint))
    else if toks[cur].Kind() == Types.Print then
      var Parsed(v, c1, e1) := ParseRightF(toks, cur + 1, e);
      Parsed(Print(v), c1, e1)
    else ParseRightF(toks, cur, e)
  }

  /** parse_stmt: dispatch on the first token. Without a new error the
      cursor always moves forward, which is what makes parse_stmts end. */
  function ParseStmtF(toks: seq<Token>, cur: nat, e: ErrState): (r: Parsed)
    requires cur <= |toks|
    ensures Moves(toks, cur, r.next)
    ensures e.Poisoned() ==> r == Parsed(Empty, cur, e)
    ensures !r.err.Poisoned() ==> cur < r.next
    decreases |toks| - cur, 2
  {
    if e.Poisoned() then Parsed(Empty, cur, e)
    else if cur == |toks| then Parsed(Empty, cur, e.Add(MsgExpectedPrimary))
    else match toks[cur].Kind()
      case If => HandleIfElseF(toks, cur, e)
      case Else => Parsed(Empty, cur, e.Add(MsgElseWithoutIf))
      case Do => HandleDoWhileF(toks, cur, e)
      case While => HandleWhileF(toks, cur, e)
      case OpenBrace => ParseBlockF(toks, cur, e)
      case Semicolon => Parsed(Empty, cur + 1, e)
      case _ =>
        var Parsed(nd, c1, e1) := ParsePrntF(toks, cur, e);
        var Moved(c2, e2) := Expect(toks, c1, Types.Semicolon, MsgExpectedSemicolon, e1);
        Parsed(nd, c2, e2)
  }

  /** parse_stmt hands a statement starting with If to HandleIfElse. */
  lemma DispatchIf(toks: seq<Token>, cur: nat, e: ErrState)
    requires cur < |toks| && !e.Poisoned()
    requires toks[cur].Kind() == Types.If
    ensures ParseStmtF(toks, cur, e) == HandleIfElseF(toks, cur, e)
  {
  }

  /** parse_stmt hands a statement starting with Do to HandleDoWhile. */
  lemma DispatchDo(toks: seq<Token>, cur: nat, e: ErrState)
    requires cur < |toks| && !e.Poisoned()
    requires toks[cur].Kind() == Types.Do
    ensures ParseStmtF(toks, cur, e) == HandleDoWhileF(toks, cur, e)
  {
  }

  /** parse_stmt hands a statement starting with While to HandleWhile. */
  lemma DispatchWhile(toks: seq<Token>, cur: nat, e: ErrState)
    requires cur < |toks| && !e.Poisoned()
    requires toks[cur].Kind() == Types.While
    ensures ParseStmtF(toks, cur, e) == HandleWhileF(toks, cur, e)
  {
  }

  /** parse_stmt hands a statement starting with OpenBrace to ParseBlock. */
  lemma DispatchOpenBrace(toks: seq<Token>, cur: nat, e: ErrState)
    requires cur < |toks| && !e.Poisoned()
    requires toks[cur].Kind() == Types.OpenBrace
    ensures ParseStmtF(toks, cur, e) == ParseBlockF(toks, cur, e)
  {
  }

  /** The `( bool )` every condition of if, do-while and while is written
      in: the condition runs to find_bool_end's result, and a missing
      parenthesis is recorded without stopping the parse. */
  function ParenCondF(toks: seq<Token>, c: nat, e: ErrState): (r: Parsed)
    requires c <= |toks|
    ensures Moves(toks, c, r.next)
  {
    var Moved(c1, e1) := Expect(toks, c, Types.OpenParenthesis, MsgExpectedOpenParen, e);
    var boolEnd := BoolEnd(toks, c1, |toks|);
    var Built(cond, e2) := ParseBool(toks, c1, boolEnd, e1);
    var Moved(c3, e3) := Expect(toks, boolEnd, Types.CloseParenthesis, MsgExpectedCloseParen, e2);
    Parsed(cond, c3, e3)
  }

  /** handle_if_else: `if ( bool ) stmt [else stmt]`; a missing else branch
      is Empty. Diagnostics are recorded for a missing parenthesis even when
      an earlier one was. */
  function HandleIfElseF(toks: seq<Token>, cur: nat, e: ErrState): (r: Parsed)
    requires cur < |toks|
    ensures Moves(toks, cur + 1, r.next)
    decreases |toks| - cur, 1
  {
    var Parsed(cond, c3, e3) := ParenCondF(toks, cur + 1, e);
    var Parsed(body, c4, e4) := ParseStmtF(toks, c3, e3);
    var Parsed(other, c5, e5) := ElseBranchF(toks, c4, e4);
    Parsed(If(cond, body, other), c5, e5)
  }

  /** The optional `else stmt` of handle_if_else; without it the else
      branch is Empty and the cursor stays. */
  function ElseBranchF(toks: seq<Token>, c: nat, e: ErrState): (r: Parsed)
    requires c <= |toks|
    ensures Moves(toks, c, r.next)
    decreases |toks| - c, 3
  {
    if c != |toks| && toks[c].Kind() == Types.Else then ParseStmtF(toks, c + 1, e)
    else Parsed(Empty, c, e)
  }

  /** handle_do_while: `do stmt while ( bool ) ;`. */
  function HandleDoWhileF(toks: seq<Token>, cur: nat, e: ErrState): (r: Parsed)
    requires cur < |toks|
    ensures Moves(toks, cur + 1, r.next)
    decreases |toks| - cur, 1
  {
    var Parsed(body, c1, e1) := ParseStmtF(toks, cur + 1, e);
    var Parsed(cond, c2, e2) := DoTailF(toks, c1, e1);
    Parsed(Loop(Do, cond, body), c2, e2)
  }

  /** The `while ( bool ) ;` that closes a do-while. */
  function DoTailF(toks: seq<Token>, c: nat, e: ErrState): (r: Parsed)
    requires c <= |toks|
    ensures Moves(toks, c, r.next)
  {
    var Moved(c1, e1) := Expect(toks, c, Types.While, MsgExpectedWhile, e);
    var Parsed(cond, c2, e2) := ParenCondF(toks, c1, e1);
    var Moved(c3, e3) := Expect(toks, c2, Types.Semicolon, MsgExpectedSemicolon, e2);
    Parsed(cond, c3, e3)
  }

  /** handle_while: `while ( bool ) stmt`. */
  function HandleWhileF(toks: seq<Token>, cur: nat, e: ErrState): (r: Parsed)
    requires cur < |toks|
    ensures Moves(toks, cur + 1, r.next)
    decreases |toks| - cur, 1
  {
    var Parsed(cond, c3, e3) := ParenCondF(toks, cur + 1, e);
    var Parsed(body, c4, e4) := ParseStmtF(toks, c3, e3);
    Parsed(Loop(While, cond, body), c4, e4)
  }

  /** parse_block: `{ stmts }`. When the closing brace is missing at the very
      end the source steps the cursor past the end; the model stops it at
      the end. */
  function ParseBlockF(toks: seq<Token>, cur: nat, e: ErrState): (r: Parsed)
    requires cur <= |toks|
    ensures Moves(toks, cur, r.next)
    ensures !r.err.Poisoned() && cur < |toks| ==> cur < r.next
    decreases |toks| - cur, 1
  {
    if cur == |toks| then Parsed(Empty, cur, e)
    else if toks[cur].Kind() == Types.OpenBrace then
      var ParsedList(nodes, c1, e1) := ParseStmtsF(toks, cur + 1, e, []);
      var e2 := if c1 == |toks| || toks[c1].Kind() != Types.CloseBrace
                then e1.Add(MsgExpectedCloseBrace) else e1;
      Parsed(Scope(nodes), if c1 < |toks| then c1 + 1 else c1, e2)
    else Parsed(Empty, cur, e.Add(MsgExpectedOpenBrace))
  }

  /** The loop of parse_stmts: statements are appended to `acc` until an
      error is recorded, the tokens run out or a '}' comes up. */
  function ParseStmtsF(toks: seq<Token>, cur: nat, e: ErrState, acc: seq<Ast>): (r: ParsedList)
    requires cur <= |toks|
    ensures Moves(toks, cur, r.next)
    decreases |toks| - cur, 3, if e.Poisoned() then 0 else 1
  {
    if e.Poisoned() || cur == |toks| || toks[cur].Kind() == Types.CloseBrace then ParsedList(acc, cur, e)
    else
      var Parsed(s, c1, e1) := ParseStmtF(toks, cur, e);
      ParseStmtsF(toks, c1, e1, acc + [s])
  }

  /** parse: the whole token list is one statement list; tokens left over
      (a '}' without its '{') are a stray token. */
  function ParseProgram(toks: seq<Token>): (r: (Ast, ErrState))
    ensures r.0.Scope?
  {
    var ParsedList(nodes, c, e) := ParseStmtsF(toks, 0, NoErrors, []);
    (Scope(nodes), if c != |toks| then e.Add(MsgStray) else e)
  }
}
