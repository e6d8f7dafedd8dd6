/** What the expression parser promises about the trees it builds: how a
    range without an operator of a level is handed down, how a leading
    operator becomes a unary node, and, on concrete token lists, that
    operators of one level associate to the left and that a '-' right after
    another operator is a negation. */
module ParserProps {
  import Types
  import opened Tokens
  import opened Syntax
  import opened ExprParser

  /** No operator of the level at any position after the start of the
      range (the start is never a split point). */
  predicate NoOpOfLevel(lv: Level, toks: seq<Token>, lo: nat, hi: nat)
    requires lo <= hi <= |toks|
  {
    forall k :: lo < k < hi ==> !(toks[k].BinOp? && toks[k].bop in LevelOps(lv))
  }

  /** Without an operator of its level, parse_op parses the whole range at
      the next level (parse_unary below parse_term). */
  lemma NoSplitPassesDown(lv: Level, toks: seq<Token>, lo: nat, hi: nat, e: ErrState)
    requires lo < hi <= |toks| && NoOpOfLevel(lv, toks, lo, hi)
    ensures ParseOp(lv, toks, lo, hi, e) ==
            if lv == Term then ParseUnary(toks, lo, hi, e) else ParseOp(Down(lv), toks, lo, hi, e)
  {
  }

  /** With an operator of its level found after the start, parse_op makes a
      binary node of it: the left operand parsed at the level that may stand
      left of it, the right one at the next level down, errors threaded left
      to right. */
  lemma SplitMakesBinOp(lv: Level, toks: seq<Token>, lo: nat, hi: nat, e: ErrState)
    requires lo < hi <= |toks| && !e.Poisoned() && lv != Term && lo < FindOp(lv, toks, lo, hi)
    ensures var it := FindOp(lv, toks, lo, hi);
            var l := ParseOp(LhsLevel(lv), toks, lo, it, e);
            var r := ParseOp(Down(lv), toks, it + 1, hi, l.err);
            ParseOp(lv, toks, lo, hi, e) == Built(Ast.BinOp(toks[it].bop, l.tree, r.tree), r.err)
  {
  }

  /** A single integer literal is that literal at every level, with no
      error recorded. */
  lemma {:induction false} LiteralAtEveryLevel(lv: Level, toks: seq<Token>, lo: nat, e: ErrState)
    requires lo < |toks| && toks[lo].IntLit? && !e.Poisoned()
    ensures ParseOp(lv, toks, lo, lo + 1, e) == Built(Ast.IntLit(toks[lo].value), e)
    decreases Rank(lv)
  {
    NoSplitPassesDown(lv, toks, lo, lo + 1, e);
    if lv != Term {
      LiteralAtEveryLevel(Down(lv), toks, lo, e);
    }
  }

  /** parse_unary: a leading '!' token is a logical negation and a leading
      '-' token a negation, each of the unary parse of the rest of the range;
      any other operator token in front is an unknown token. */
  lemma UnaryOperators(toks: seq<Token>, lo: nat, hi: nat, e: ErrState)
    requires lo < hi <= |toks| && !e.Poisoned()
    ensures var r := ParseUnary(toks, lo, hi, e);
            var rest := ParseUnary(toks, lo + 1, hi, e);
            (toks[lo] == Token.UnOp(Types.LogicalNegation) ==>
               r == Built(Ast.UnOp(Types.LogicalNegation, rest.tree), rest.err)) &&
            (toks[lo] == Token.BinOp(Types.Substraction) ==>
               r == Built(Ast.UnOp(Types.Negation, rest.tree), rest.err)) &&
            ((toks[lo].UnOp? || toks[lo].BinOp?) &&
             toks[lo] != Token.UnOp(Types.LogicalNegation) && toks[lo] != Token.BinOp(Types.Substraction) ==>
               r == Built(Empty, e.Add(MsgUnknownToken)))
  {
  }

  /** The operator tokens of a sequence are all '-'. */
  predicate OnlyMinus(toks: seq<Token>) {
    forall k :: 0 <= k < |toks| ==> toks[k].BinOp? ==> toks[k].bop == Types.Substraction
  }

  /** A range whose only operators are '-' is handed down from parse_bool
      to parse_expr unchanged. */
  lemma MinusRangeReachesExpr(toks: seq<Token>, lo: nat, hi: nat, e: ErrState)
    requires lo < hi <= |toks| && OnlyMinus(toks)
    ensures ParseBool(toks, lo, hi, e) == ParseOp(Expr, toks, lo, hi, e)
  {
    NoSplitPassesDown(Bool, toks, lo, hi, e);
    NoSplitPassesDown(Join, toks, lo, hi, e);
    NoSplitPassesDown(Equality, toks, lo, hi, e);
    NoSplitPassesDown(Rel, toks, lo, hi, e);
  }

  const Minus := Token.BinOp(Types.Substraction)

  /** The tokens of `a - b - c`. */
  predicate Chain(toks: seq<Token>, a: int, b: int, c: int) {
    |toks| == 5 && toks[0] == Token.IntLit(a) && toks[1] == Minus &&
    toks[2] == Token.IntLit(b) && toks[3] == Minus && toks[4] == Token.IntLit(c)
  }

  /** `a - b - c` is `(a - b) - c`: parse_expr splits at the right-most
      '-', so operators of one level associate to the left. */
  lemma LeftAssociative(toks: seq<Token>, a: int, b: int, c: int)
    requires Chain(toks, a, b, c)
    ensures ParseBool(toks, 0, 5, NoErrors) ==
            Built(Ast.BinOp(Types.Substraction,
                            Ast.BinOp(Types.Substraction, Ast.IntLit(a), Ast.IntLit(b)),
                            Ast.IntLit(c)), NoErrors)
  {
    ChainSplits(toks, a, b, c);
    MinusRangeReachesExpr(toks, 0, 5, NoErrors);
    WholeChain(toks, a, b, c);
  }

  /** `a - b - c` at the expr level. */
  lemma WholeChain(toks: seq<Token>, a: int, b: int, c: int)
    requires Chain(toks, a, b, c)
    ensures ParseOp(Expr, toks, 0, 5, NoErrors) ==
            Built(Ast.BinOp(Types.Substraction,
                            Ast.BinOp(Types.Substraction, Ast.IntLit(a), Ast.IntLit(b)),
                            Ast.IntLit(c)), NoErrors)
  {
    ChainSplits(toks, a, b, c);
    SplitMakesBinOp(Expr, toks, 0, 5, NoErrors);
    LiteralAtEveryLevel(Term, toks, 4, NoErrors);
    LeftOperand(toks, a, b, c);
  }

  /** The splits parse_expr finds in `a - b - c` and in its prefix `a - b`;
      its only operators are '-'. */
  lemma ChainSplits(toks: seq<Token>, a: int, b: int, c: int)
    requires Chain(toks, a, b, c)
    ensures FindOp(Expr, toks, 0, 5) == 3
    ensures FindOp(Expr, toks, 0, 3) == 1
    ensures OnlyMinus(toks)
  {
    assert SplitsAt(Expr, toks, 3) && !SplitsAt(Expr, toks, 4);
    assert SplitsAt(Expr, toks, 1) && !SplitsAt(Expr, toks, 2);
  }

  /** The left operand of `a - b - c`: `a - b` at the expr level. */
  lemma LeftOperand(toks: seq<Token>, a: int, b: int, c: int)
    requires Chain(toks, a, b, c)
    ensures ParseOp(Expr, toks, 0, 3, NoErrors) ==
            Built(Ast.BinOp(Types.Substraction, Ast.IntLit(a), Ast.IntLit(b)), NoErrors)
  {
    ChainSplits(toks, a, b, c);
    SplitMakesBinOp(Expr, toks, 0, 3, NoErrors);
    LiteralAtEveryLevel(Expr, toks, 0, NoErrors);
    LiteralAtEveryLevel(Term, toks, 2, NoErrors);
  }

  /** The tokens of `a - - b`. */
  predicate DoubleMinus(toks: seq<Token>, a: int, b: int) {
    |toks| == 4 && toks[0] == Token.IntLit(a) && toks[1] == Minus &&
    toks[2] == Minus && toks[3] == Token.IntLit(b)
  }

  /** `a - - b` is `a - (-b)`: a '-' right after an operator is not a split
      of parse_expr, so parse_unary makes it a negation. */
  lemma MinusAfterOperatorNegates(toks: seq<Token>, a: int, b: int)
    requires DoubleMinus(toks, a, b)
    ensures ParseBool(toks, 0, 4, NoErrors) ==
            Built(Ast.BinOp(Types.Substraction, Ast.IntLit(a),
                            Ast.UnOp(Types.Negation, Ast.IntLit(b))), NoErrors)
  {
    DoubleMinusSplit(toks, a, b);
    MinusRangeReachesExpr(toks, 0, 4, NoErrors);
    WholeDoubleMinus(toks, a, b);
  }

  /** `a - - b` at the expr level. */
  lemma WholeDoubleMinus(toks: seq<Token>, a: int, b: int)
    requires DoubleMinus(toks, a, b)
    ensures ParseOp(Expr, toks, 0, 4, NoErrors) ==
            Built(Ast.BinOp(Types.Substraction, Ast.IntLit(a),
                            Ast.UnOp(Types.Negation, Ast.IntLit(b))), NoErrors)
  {
    DoubleMinusSplit(toks, a, b);
    SplitMakesBinOp(Expr, toks, 0, 4, NoErrors);
    LiteralAtEveryLevel(Expr, toks, 0, NoErrors);
    NegatedOperand(toks, a, b);
  }

  /** The only split of `a - - b` is the first '-', and its only operators
      are '-'. */
  lemma DoubleMinusSplit(toks: seq<Token>, a: int, b: int)
    requires DoubleMinus(toks, a, b)
    ensures FindOp(Expr, toks, 0, 4) == 1 && OnlyMinus(toks)
  {
    assert SplitsAt(Expr, toks, 1) && !SplitsAt(Expr, toks, 2) && !SplitsAt(Expr, toks, 3);
  }

  /** The right operand of `a - - b`: `- b` at the term level. */
  lemma NegatedOperand(toks: seq<Token>, a: int, b: int)
    requires DoubleMinus(toks, a, b)
    ensures ParseOp(Term, toks, 2, 4, NoErrors) ==
            Built(Ast.UnOp(Types.Negation, Ast.IntLit(b)), NoErrors)
  {
    NoSplitPassesDown(Term, toks, 2, 4, NoErrors);
    UnaryOperators(toks, 2, 4, NoErrors);
    assert ParseUnary(toks, 3, 4, NoErrors) == Built(Ast.IntLit(b), NoErrors);
  }
}
