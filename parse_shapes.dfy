/** What the statement parser promises about the trees it builds and the
    errors it records, proved by induction over the parse functions' own
    recursion: diagnostics are only ever appended, a poisoned parser stays
    poisoned, and a parse that records no error builds a statement tree with
    no placeholder in place of an expression. (The expression parsers state
    the same in their own contracts, ParseResult.) */
module ParseShapes {
  import Types
  import opened Tokens
  import opened Syntax
  import opened ExprParser
  import opened StmtParser

  lemma ExtendsByAdd(e: ErrState, d: Diag)
    ensures Extends(e, e.Add(d))
  {
    assert e.diags < e.diags + [d] by {
      assert (e.diags + [d])[..|e.diags|] == e.diags;
    }
  }

  /** The shape every statement parser promises. */
  predicate StmtResult(e: ErrState, r: Parsed) {
    Extends(e, r.err) && (!r.err.Poisoned() ==> IsStmt(r.tree))
  }

  lemma ExpectShape(toks: seq<Token>, c: nat, k: Types.NodeKind, msg: Diag, e: ErrState)
    requires c <= |toks|
    ensures var r := Expect(toks, c, k, msg, e);
            Extends(e, r.err) && (r.err == e || r.err.Poisoned())
  {
    ExtendsByAdd(e, msg);
  }

  /** parse_right: an assignment exactly when the second token is '=', with
      the first token's identifier as its target; the cursor ends at
      find_bool_end's result for the expression. */
  lemma ParseRightShape(toks: seq<Token>, cur: nat, e: ErrState)
    requires cur <= |toks|
    ensures var r := ParseRightF(toks, cur, e);
            Extends(e, r.err) && (r.tree.Assign? || IsPartialExpr(r.tree)) &&
            (!r.err.Poisoned() ==> IsRight(r.tree))
    ensures var r := ParseRightF(toks, cur, e);
            !e.Poisoned() ==>
              (r.tree.Assign? <==> cur + 2 <= |toks| && toks[cur + 1] == Token.BinOp(Types.Assignment) &&
                                   toks[cur].Id?)
    ensures var r := ParseRightF(toks, cur, e);
            r.tree.Assign? ==>
              toks[cur].Id? && r.tree.target == toks[cur].id && r.next == BoolEnd(toks, cur + 2, |toks|)
    ensures var r := ParseRightF(toks, cur, e);
            !e.Poisoned() && cur + 2 <= |toks| && toks[cur + 1] == Token.BinOp(Types.Assignment) &&
            !toks[cur].Id? ==>
              r == Parsed(Empty, BoolEnd(toks, cur + 2, |toks|), e.Add(MsgUnknownToken))
    ensures var r := ParseRightF(toks, cur, e);
            !e.Poisoned() && cur < |toks| &&
            !(cur + 2 <= |toks| && toks[cur + 1] == Token.BinOp(Types.Assignment)) ==>
              r.next == BoolEnd(toks, cur, |toks|)
  {
    if e.Poisoned() {
    } else if cur == |toks| {
      ExtendsByAdd(e, MsgExpectedRight);
    } else if |toks| - cur >= 2 && toks[cur + 1].Kind() == Types.BinaryOperation
              && toks[cur + 1].bop == Types.Assignment {
      if !toks[cur].Id? {
        ExtendsByAdd(e, MsgUnknownToken);
      } else {
        var boolEnd := BoolEnd(toks, cur + 2, |toks|);
        var Built(lhs, e1) := ParseId(toks, cur, cur + 1, e);
      }
    } else {
      var boolEnd := BoolEnd(toks, cur, |toks|);
      var Built(x, e1) := ParseBool(toks, cur, boolEnd, e);
      assert !x.Assign?;
    }
  }

  /** parse_prnt: a print statement exactly when the first token is print. */
  lemma ParsePrntShape(toks: seq<Token>, cur: nat, e: ErrState)
    requires cur <= |toks|
    ensures var r := ParsePrntF(toks, cur, e);
            StmtResult(e, r) && (!r.err.Poisoned() ==> r.tree != Empty)
    ensures var r := ParsePrntF(toks, cur, e);
            !e.Poisoned() && cur < |toks| ==> (r.tree.Print? <==> toks[cur].Kind() == Types.Print)
  {
    if e.Poisoned() {
    } else if cur == |toks| {
      ExtendsByAdd(e, MsgExpectedPrint);
    } else if toks[cur].Kind() == Types.Print {
      ParseRightShape(toks, cur + 1, e);
    } else {
      ParseRightShape(toks, cur, e);
    }
  }

  lemma {:induction false} ParseStmtShape(toks: seq<Token>, cur: nat, e: ErrState)
    requires cur <= |toks|
    ensures StmtResult(e, ParseStmtF(toks, cur, e))
    decreases |toks| - cur, 2
  {
    if e.Poisoned() {
    } else if cur == |toks| {
      ExtendsByAdd(e, MsgExpectedPrimary);
    } else {
      var k := toks[cur].Kind();
      if k == Types.If {
        HandleIfElseShape(toks, cur, e);
        DispatchIf(toks, cur, e);
      } else if k == Types.Do {
        HandleDoWhileShape(toks, cur, e);
        DispatchDo(toks, cur, e);
      } else if k == Types.While {
        HandleWhileShape(toks, cur, e);
        DispatchWhile(toks, cur, e);
      } else if k == Types.OpenBrace {
        ParseBlockShape(toks, cur, e);
        DispatchOpenBrace(toks, cur, e);
      } else if k == Types.Else {
        ExtendsByAdd(e, MsgElseWithoutIf);
      } else if k != Types.Semicolon {
        PrntStmtShape(toks, cur, e);
      }
    }
  }

  /** A print or expression statement and its ';'. */
  lemma PrntStmtShape(toks: seq<Token>, cur: nat, e: ErrState)
    requires cur < |toks| && !e.Poisoned()
    requires toks[cur].Kind() !in {Types.If, Types.Else, Types.Do, Types.While, Types.OpenBrace, Types.Semicolon}
    ensures StmtResult(e, ParseStmtF(toks, cur, e))
  {
    ParsePrntShape(toks, cur, e);
    var p := ParsePrntF(toks, cur, e);
    ExpectShape(toks, p.next, Types.Semicolon, MsgExpectedSemicolon, p.err);
    var m := Expect(toks, p.next, Types.Semicolon, MsgExpectedSemicolon, p.err);
    ExtendsTransitive(e, p.err, m.err);
  }

  /** `( bool )`: without an error, a complete expression. */
  lemma ParenCondShape(toks: seq<Token>, c: nat, e: ErrState)
    requires c <= |toks|
    ensures var r := ParenCondF(toks, c, e);
            Extends(e, r.err) && (!r.err.Poisoned() ==> IsExpr(r.tree))
  {
    ExpectShape(toks, c, Types.OpenParenthesis, MsgExpectedOpenParen, e);
    var Moved(c1, e1) := Expect(toks, c, Types.OpenParenthesis, MsgExpectedOpenParen, e);
    var boolEnd := BoolEnd(toks, c1, |toks|);
    var Built(cond, e2) := ParseBool(toks, c1, boolEnd, e1);
    ExpectShape(toks, boolEnd, Types.CloseParenthesis, MsgExpectedCloseParen, e2);
    var Moved(c3, e3) := Expect(toks, boolEnd, Types.CloseParenthesis, MsgExpectedCloseParen, e2);
    ExtendsTransitive(e, e1, e2);
    ExtendsTransitive(e, e2, e3);
  }

  /** handle_if_else builds an if node. */
  lemma {:induction false} HandleIfElseShape(toks: seq<Token>, cur: nat, e: ErrState)
    requires cur < |toks|
    ensures var r := HandleIfElseF(toks, cur, e);
            StmtResult(e, r) && r.tree.If?
    decreases |toks| - cur, 1
  {
    ParenCondShape(toks, cur + 1, e);
    var Parsed(cond, c3, e3) := ParenCondF(toks, cur + 1, e);
    ParseStmtShape(toks, c3, e3);
    var Parsed(body, c4, e4) := ParseStmtF(toks, c3, e3);
    ElseBranchShape(toks, c4, e4);
    var Parsed(other, c5, e5) := ElseBranchF(toks, c4, e4);
    ExtendsTransitive(e, e3, e4);
    ExtendsTransitive(e, e4, e5);
    ExtendsTransitive(e3, e4, e5);
  }

  lemma {:induction false} ElseBranchShape(toks: seq<Token>, c: nat, e: ErrState)
    requires c <= |toks|
    ensures StmtResult(e, ElseBranchF(toks, c, e))
    decreases |toks| - c, 3
  {
    if c != |toks| && toks[c].Kind() == Types.Else {
      ParseStmtShape(toks, c + 1, e);
    }
  }

  /** handle_do_while builds a do loop. */
  lemma {:induction false} HandleDoWhileShape(toks: seq<Token>, cur: nat, e: ErrState)
    requires cur < |toks|
    ensures var r := HandleDoWhileF(toks, cur, e);
            StmtResult(e, r) && r.tree.Loop? && r.tree.kind == Do
    decreases |toks| - cur, 1
  {
    ParseStmtShape(toks, cur + 1, e);
    var Parsed(body, c1, e1) := ParseStmtF(toks, cur + 1, e);
    DoTailShape(toks, c1, e1);
    var Parsed(cond, c2, e2) := DoTailF(toks, c1, e1);
    ExtendsTransitive(e, e1, e2);
  }

  /** `while ( bool ) ;`: without an error, a complete expression. */
  lemma DoTailShape(toks: seq<Token>, c: nat, e: ErrState)
    requires c <= |toks|
    ensures var r := DoTailF(toks, c, e);
            Extends(e, r.err) && (!r.err.Poisoned() ==> IsExpr(r.tree))
  {
    ExpectShape(toks, c, Types.While, MsgExpectedWhile, e);
    var Moved(c1, e1) := Expect(toks, c, Types.While, MsgExpectedWhile, e);
    ParenCondShape(toks, c1, e1);
    var Parsed(cond, c2, e2) := ParenCondF(toks, c1, e1);
    ExpectShape(toks, c2, Types.Semicolon, MsgExpectedSemicolon, e2);
    var Moved(c3, e3) := Expect(toks, c2, Types.Semicolon, MsgExpectedSemicolon, e2);
    ExtendsTransitive(e, e1, e2);
    ExtendsTransitive(e, e2, e3);
  }

  /** handle_while builds a while loop. */
  lemma {:induction false} HandleWhileShape(toks: seq<Token>, cur: nat, e: ErrState)
    requires cur < |toks|
    ensures var r := HandleWhileF(toks, cur, e);
            StmtResult(e, r) && r.tree.Loop? && r.tree.kind == While
    decreases |toks| - cur, 1
  {
    ParenCondShape(toks, cur + 1, e);
    var Parsed(cond, c3, e3) := ParenCondF(toks, cur + 1, e);
    ParseStmtShape(toks, c3, e3);
    var Parsed(body, c4, e4) := ParseStmtF(toks, c3, e3);
    ExtendsTransitive(e, e3, e4);
  }

  /** parse_block builds a scope when the block opens with '{'. */
  lemma {:induction false} ParseBlockShape(toks: seq<Token>, cur: nat, e: ErrState)
    requires cur <= |toks|
    ensures var r := ParseBlockF(toks, cur, e);
            StmtResult(e, r) &&
            (cur < |toks| && toks[cur].Kind() == Types.OpenBrace ==> r.tree.Scope?)
    decreases |toks| - cur, 1
  {
    if cur == |toks| {
    } else if toks[cur].Kind() == Types.OpenBrace {
      ParseStmtsShape(toks, cur + 1, e, []);
      var ParsedList(nodes, c1, e1) := ParseStmtsF(toks, cur + 1, e, []);
      if c1 == |toks| || toks[c1].Kind() != Types.CloseBrace {
        ExtendsByAdd(e1, MsgExpectedCloseBrace);
        ExtendsTransitive(e, e1, e1.Add(MsgExpectedCloseBrace));
      }
    } else {
      ExtendsByAdd(e, MsgExpectedOpenBrace);
    }
  }

  /** parse_stmts only appends, stops at the end, at a '}' or at the first
      error, and every statement it appends without an error is well
      formed. */
  lemma {:induction false} ParseStmtsShape(toks: seq<Token>, cur: nat, e: ErrState, acc: seq<Ast>)
    requires cur <= |toks|
    ensures var r := ParseStmtsF(toks, cur, e, acc);
            Extends(e, r.err) && acc <= r.trees &&
            (r.err.Poisoned() || r.next == |toks| || toks[r.next].Kind() == Types.CloseBrace) &&
            (!r.err.Poisoned() ==> forall i :: |acc| <= i < |r.trees| ==> IsStmt(r.trees[i]))
    decreases |toks| - cur, 3, if e.Poisoned() then 0 else 1
  {
    if e.Poisoned() || cur == |toks| || toks[cur].Kind() == Types.CloseBrace {
    } else {
      ParseStmtShape(toks, cur, e);
      var Parsed(s, c1, e1) := ParseStmtF(toks, cur, e);
      ParseStmtsShape(toks, c1, e1, acc + [s]);
      var r := ParseStmtsF(toks, c1, e1, acc + [s]);
      ExtendsTransitive(e, e1, r.err);
      assert acc <= acc + [s];
      if !r.err.Poisoned() {
        assert !e1.Poisoned();
        forall i | |acc| <= i < |r.trees|
          ensures IsStmt(r.trees[i])
        {
          if i == |acc| {
            assert r.trees[i] == (acc + [s])[i] == s;
          }
        }
      }
    }
  }

  /** parse: without an error the whole token list is consumed, and the
      result is a well-formed scope. */
  lemma ParseProgramShape(toks: seq<Token>)
    ensures var r := ParseProgram(toks);
            Extends(NoErrors, r.1) &&
            (!r.1.Poisoned() ==> IsStmt(r.0) && ParseStmtsF(toks, 0, NoErrors, []).next == |toks|)
  {
    ParseStmtsShape(toks, 0, NoErrors, []);
    var ParsedList(nodes, c, e) := ParseStmtsF(toks, 0, NoErrors, []);
    if c != |toks| {
      ExtendsByAdd(e, MsgStray);
      ExtendsTransitive(NoErrors, e, e.Add(MsgStray));
    }
  }
}
