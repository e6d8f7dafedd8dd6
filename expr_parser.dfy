/** The expression half of the recursive-descent parser (parser.h parse_op
    and find_op_not_in_parentheses; parser.cpp parse_bool ... parse_true_false,
    if_bool and find_bool_end). Every parse function takes a half-open token
    range [lo, hi) and the error state, and returns the tree it builds with
    the new error state: its only side effect in the source is on `err_ctr`
    and `errors`. */
module ExprParser {
  import Types
  import opened Tokens
  import opened Syntax

  /** The six binary precedence levels, loosest first. */
  datatype Level = Bool | Join | Equality | Rel | Expr | Term

  /** The operators a level splits at (if_or, if_and, if_equal_not_equal,
      if_less_greater, if_addition_substraction, if_multiplication_division). */
  function LevelOps(lv: Level): set<Types.BinOpKind> {
    match lv
    case Bool => {Types.Or}
    case Join => {Types.And}
    case Equality => {Types.Equal, Types.NotEqual}
    case Rel => {Types.Less, Types.LessOrEqual, Types.GreaterOrEqual, Types.Greater}
    case Expr => {Types.Addition, Types.Substraction}
    case Term => {Types.Multiplication, Types.Division}
  }

  /** The level of the right operand (and of the whole range when there is
      no split); Term hands over to parse_unary. */
  function Down(lv: Level): Level
    requires lv != Term
  {
    match lv
    case Bool => Join
    case Join => Equality
    case Equality => Rel
    case Rel => Expr
    case Expr => Term
  }

  /** The level of the left operand: the same level, except that the left
      side of a relational operator is an `expr`. */
  function LhsLevel(lv: Level): Level {
    if lv == Rel then Expr else lv
  }

  /** For the termination measure: every call goes to a shorter range, or to
      the same range at a smaller rank. */
  function Rank(lv: Level): nat {
    match lv
    case Bool => 8
    case Join => 7
    case Equality => 6
    case Rel => 5
    case Expr => 4
    case Term => 3
  }

  /** The predicate `if_smth` of a level at position i. The `expr` level
      also refuses a '+' or '-' right after another operator, which is then a
      unary minus. It is only ever asked at a position after the start of the
      range, so `prev(it)` exists. */
  predicate SplitsAt(lv: Level, toks: seq<Token>, i: nat)
    requires 0 < i < |toks|
  {
    toks[i].BinOp? && toks[i].bop in LevelOps(lv) &&
    (lv == Expr ==> toks[i - 1].Kind() != Types.UnaryOperation &&
                    toks[i - 1].Kind() != Types.BinaryOperation)
  }

  /** How a token moves the counter of find_op_not_in_parentheses. */
  function Delta(t: Token): int {
    if t.Kind() == Types.OpenParenthesis then -1
    else if t.Kind() == Types.CloseParenthesis then 1
    else 0
  }

  /** The number of ')' minus the number of '(' in toks[j..hi]. */
  function Balance(toks: seq<Token>, j: nat, hi: nat): int
    requires j <= hi <= |toks|
    decreases hi - j
  {
    if j == hi then 0 else Delta(toks[j]) + Balance(toks, j + 1, hi)
  }

  /** The backward scan of find_op_not_in_parentheses from position j, with
      `ctr` counting toks[j..hi]: it stops at lo, or at a position where the
      counter is 0 and the level splits. */
  function ScanBack(lv: Level, toks: seq<Token>, lo: nat, hi: nat, j: nat, ctr: int): (r: nat)
    requires lo <= j < hi <= |toks|
    ensures lo <= r <= j
    ensures r == lo || SplitsAt(lv, toks, r)
    decreases j
  {
    if j == lo || (ctr == 0 && SplitsAt(lv, toks, j)) then j
    else ScanBack(lv, toks, lo, hi, j - 1, ctr + Delta(toks[j - 1]))
  }

  /** When `ctr` is the balance of toks[j..hi], the scan stops at the
      right-most position at or below j and above lo that is outside every
      parenthesis and where the level splits, or at lo if there is none. */
  lemma {:induction false} ScanBackRightmost(lv: Level, toks: seq<Token>, lo: nat, hi: nat, j: nat, ctr: int)
    requires lo <= j < hi <= |toks|
    requires ctr == Balance(toks, j, hi)
    ensures var r := ScanBack(lv, toks, lo, hi, j, ctr);
            (lo < r ==> Balance(toks, r, hi) == 0) &&
            forall k :: r < k <= j ==> !(Balance(toks, k, hi) == 0 && SplitsAt(lv, toks, k))
    decreases j
  {
    if j == lo || (ctr == 0 && SplitsAt(lv, toks, j)) {
    } else {
      var c := ctr + Delta(toks[j - 1]);
      assert c == Balance(toks, j - 1, hi);
      assert ScanBack(lv, toks, lo, hi, j, ctr) == ScanBack(lv, toks, lo, hi, j - 1, c);
      ScanBackRightmost(lv, toks, lo, hi, j - 1, c);
      var r := ScanBack(lv, toks, lo, hi, j - 1, c);
      forall k | r < k <= j
        ensures !(Balance(toks, k, hi) == 0 && SplitsAt(lv, toks, k))
      {
        if k == j {
          assert !(ctr == 0 && SplitsAt(lv, toks, j));
        }
      }
    }
  }

  /** find_op_not_in_parentheses: `hi` on an empty range, otherwise a
      position of the range; a position after `lo` is a split of the level. */
  function FindOp(lv: Level, toks: seq<Token>, lo: nat, hi: nat): (r: nat)
    requires lo <= hi <= |toks|
    ensures lo == hi ==> r == hi
    ensures lo < hi ==> lo <= r < hi
    ensures lo < r ==> SplitsAt(lv, toks, r)
  {
    if lo == hi then hi else ScanBack(lv, toks, lo, hi, hi - 1, Delta(toks[hi - 1]))
  }

  /** The operator find_op_not_in_parentheses finds is the right-most one
      of the level outside parentheses: after it there is none, and before
      it the parentheses of the range's tail are balanced. */
  lemma FindOpRightmost(lv: Level, toks: seq<Token>, lo: nat, hi: nat)
    requires lo <= hi <= |toks|
    ensures var r := FindOp(lv, toks, lo, hi);
            (lo < r ==> Balance(toks, r, hi) == 0) &&
            forall k :: r < k < hi ==> !(Balance(toks, k, hi) == 0 && SplitsAt(lv, toks, k))
  {
    if lo < hi {
      ScanBackRightmost(lv, toks, lo, hi, hi - 1, Delta(toks[hi - 1]));
    }
  }

  /** The do-while loop of find_op_not_in_parentheses. */
  method FindOpNotInParentheses(lv: Level, toks: seq<Token>, lo: nat, hi: nat) returns (it: nat)
    requires lo <= hi <= |toks|
    ensures it == FindOp(lv, toks, lo, hi)
  {
    if lo == hi {
      return hi;
    }
    it := hi;
    var ctr := 0;
    it := it - 1;
    if toks[it].Kind() == Types.OpenParenthesis {
      ctr := ctr - 1;
    } else if toks[it].Kind() == Types.CloseParenthesis {
      ctr := ctr + 1;
    }
    assert ctr == Delta(toks[it]);
    while it != lo && !(ctr == 0 && SplitsAt(lv, toks, it))
      invariant lo <= it < hi
      invariant ScanBack(lv, toks, lo, hi, it, ctr) == FindOp(lv, toks, lo, hi)
      decreases it
    {
      ghost var before := ScanBack(lv, toks, lo, hi, it, ctr);
      ghost var next := ctr + Delta(toks[it - 1]);
      assert before == ScanBack(lv, toks, lo, hi, it - 1, next);
      it := it - 1;
      if toks[it].Kind() == Types.OpenParenthesis {
        ctr := ctr - 1;
      } else if toks[it].Kind() == Types.CloseParenthesis {
        ctr := ctr + 1;
      }
      assert ctr == next;
    }
  }

  /** An expression parser's result: the tree and the new error state. */
  datatype Built = Built(tree: Ast, err: ErrState)

  /** The result shape every expression parser promises: the error state only
      grows; a poisoned state comes back unchanged with a fresh Empty; a parse
      that ends without any error built a complete expression. */
  predicate ParseResult(e: ErrState, r: Built) {
    Extends(e, r.err) && IsPartialExpr(r.tree) &&
    (e.Poisoned() ==> r == Built(Empty, e)) &&
    (!r.err.Poisoned() ==> IsExpr(r.tree))
  }

  /** parse_op inside parse_bool, parse_join, parse_equality, parse_rel,
      parse_expr and parse_term (each of which first returns Empty when
      poisoned). */
  function ParseOp(lv: Level, toks: seq<Token>, lo: nat, hi: nat, e: ErrState): (r: Built)
    requires lo <= hi <= |toks|
    ensures !e.Poisoned() && lo == hi ==> r == Built(Empty, e.Add(MsgExpectedExpression))
    ensures ParseResult(e, r)
    decreases hi - lo, Rank(lv)
  {
    if e.Poisoned() then Built(Empty, e)
    else
      var it := FindOp(lv, toks, lo, hi);
      if lo == hi then Built(Empty, e.Add(MsgExpectedExpression))
      else if it != lo && SplitsAt(lv, toks, it) then
        var Built(lhs, e1) := ParseOp(LhsLevel(lv), toks, lo, it, e);
        var Built(rhs, e2) := if lv == Term then ParseUnary(toks, it + 1, hi, e1)
                         else ParseOp(Down(lv), toks, it + 1, hi, e1);
        Built(Ast.BinOp(toks[it].bop, lhs, rhs), e2)
      else if lv == Term then ParseUnary(toks, lo, hi, e)
      else ParseOp(Down(lv), toks, lo, hi, e)
  }

  /** parse_unary: a leading '!' is a logical negation and a leading '-' a
      negation of the rest of the range; any other leading operator is an
      unknown token. */
  function ParseUnary(toks: seq<Token>, lo: nat, hi: nat, e: ErrState): (r: Built)
    requires lo <= hi <= |toks|
    ensures !e.Poisoned() && lo == hi ==> r == Built(Empty, e.Add(MsgExpectedFactor))
    ensures ParseResult(e, r)
    decreases hi - lo, 2
  {
    if e.Poisoned() then Built(Empty, e)
    else if lo == hi then Built(Empty, e.Add(MsgExpectedFactor))
    else if toks[lo].Kind() == Types.UnaryOperation then
      if toks[lo].uop == Types.LogicalNegation then
        var Built(x, e1) := ParseUnary(toks, lo + 1, hi, e);
        Built(Ast.UnOp(Types.LogicalNegation, x), e1)
      else Built(Empty, e.Add(MsgUnknownToken))
    else if toks[lo].Kind() == Types.BinaryOperation then
      if toks[lo].bop == Types.Substraction then
        var Built(x, e1) := ParseUnary(toks, lo + 1, hi, e);
        Built(Ast.UnOp(Types.Negation, x), e1)
      else Built(Empty, e.Add(MsgUnknownToken))
    else ParseFactor(toks, lo, hi, e)
  }

  /** parse_factor: a parenthesised expression (the closing parenthesis is
      looked for at the end of the range), or a single leaf token. */
  function ParseFactor(toks: seq<Token>, lo: nat, hi: nat, e: ErrState): (r: Built)
    requires lo <= hi <= |toks|
    ensures !e.Poisoned() && lo == hi ==> r == Built(Empty, e.Add(MsgExpectedFactor))
    ensures ParseResult(e, r)
    decreases hi - lo, 1
  {
    if e.Poisoned() then Built(Empty, e)
    else if lo == hi then Built(Empty, e.Add(MsgExpectedFactor))
    else match toks[lo].Kind()
      case OpenParenthesis =>
        if toks[hi - 1].Kind() != Types.CloseParenthesis then
          var Built(x, e1) := ParseOp(Bool, toks, lo + 1, hi, e);
          Built(x, e1.Add(MsgExpectedCloseParen))
        else ParseOp(Bool, toks, lo + 1, hi - 1, e)
      case Identifier => ParseId(toks, lo, hi, e)
      case IntegerLiteral => ParseInt(toks, lo, hi, e)
      case Scan => ParseScan(toks, lo, hi, e)
      case BoolTrue => ParseTrueFalse(toks, lo, hi, e)
      case BoolFalse => ParseTrueFalse(toks, lo, hi, e)
      case _ => Built(Empty, e.Add(MsgUnknownToken))
  }

  /** The error a leaf parser records when the leaf is not the whole range. */
  function StrayCheck(lo: nat, hi: nat, e: ErrState): ErrState {
    if lo + 1 != hi then e.Add(MsgStray) else e
  }

  /** parse_id */
  function ParseId(toks: seq<Token>, lo: nat, hi: nat, e: ErrState): (r: Built)
    requires lo < hi <= |toks| && toks[lo].Id?
    ensures !e.Poisoned() ==> r.tree == Ast.Id(toks[lo].id)
    ensures !e.Poisoned() ==> (r.err == e <==> hi == lo + 1)
  {
    if e.Poisoned() then Built(Empty, e) else Built(Ast.Id(toks[lo].id), StrayCheck(lo, hi, e))
  }

  /** parse_int */
  function ParseInt(toks: seq<Token>, lo: nat, hi: nat, e: ErrState): (r: Built)
    requires lo < hi <= |toks| && toks[lo].IntLit?
    ensures !e.Poisoned() ==> r.tree == Ast.IntLit(toks[lo].value)
    ensures !e.Poisoned() ==> (r.err == e <==> hi == lo + 1)
  {
    if e.Poisoned() then Built(Empty, e) else Built(Ast.IntLit(toks[lo].value), StrayCheck(lo, hi, e))
  }

  /** parse_scan */
  function ParseScan(toks: seq<Token>, lo: nat, hi: nat, e: ErrState): (r: Built)
    requires lo < hi <= |toks|
    ensures !e.Poisoned() ==> r.tree == ScanExpr
    ensures !e.Poisoned() ==> (r.err == e <==> hi == lo + 1)
  {
    if e.Poisoned() then Built(Empty, e) else Built(ScanExpr, StrayCheck(lo, hi, e))
  }

  /** parse_true_false: the node keeps the tag of the token. */
  function ParseTrueFalse(toks: seq<Token>, lo: nat, hi: nat, e: ErrState): (r: Built)
    requires lo < hi <= |toks|
    requires toks[lo].Kind() == Types.BoolTrue || toks[lo].Kind() == Types.BoolFalse
    ensures !e.Poisoned() ==> r.tree == BoolLit(toks[lo].Kind() == Types.BoolTrue)
    ensures !e.Poisoned() ==> (r.err == e <==> hi == lo + 1)
  {
    if e.Poisoned() then Built(Empty, e)
    else Built(BoolLit(toks[lo].Kind() == Types.BoolTrue), StrayCheck(lo, hi, e))
  }

  /** parse_bool */
  function ParseBool(toks: seq<Token>, lo: nat, hi: nat, e: ErrState): (r: Built)
    requires lo <= hi <= |toks|
    ensures ParseResult(e, r)
    ensures !e.Poisoned() && lo == hi ==> r == Built(Empty, e.Add(MsgExpectedExpression))
  {
    ParseOp(Bool, toks, lo, hi, e)
  }

  /** if_bool: the tokens an embedded expression may consist of. It rejects
      exactly the unknown tokens, the braces, `;` and the keywords. */
  function IfBool(t: Token): (b: bool)
    ensures !b <==> t.Unknown? ||
                    (t.Plain? && t.kind in {Types.OpenBrace, Types.CloseBrace, Types.Semicolon,
                                            Types.Print, Types.If, Types.Else, Types.Do, Types.While})
  {
    t.Kind() in {Types.UnaryOperation, Types.BinaryOperation, Types.Identifier,
                 Types.IntegerLiteral, Types.Scan, Types.BoolTrue, Types.BoolFalse,
                 Types.OpenParenthesis, Types.CloseParenthesis}
  }

  /** The number of '(' minus the number of ')' in toks[lo..k]. */
  function Depth(toks: seq<Token>, lo: nat, k: nat): int
    requires lo <= k <= |toks|
    decreases k - lo
  {
    if k == lo then 0 else Depth(toks, lo, k - 1) - Delta(toks[k - 1])
  }

  /** The loop of find_bool_end from position j with `depth` parentheses
      open. */
  function BoolEndFrom(toks: seq<Token>, j: nat, hi: nat, depth: nat): (r: nat)
    requires j <= hi <= |toks|
    ensures j <= r <= hi
    decreases hi - j
  {
    if j == hi || !IfBool(toks[j]) then j
    else if toks[j].Kind() == Types.OpenParenthesis then BoolEndFrom(toks, j + 1, hi, depth + 1)
    else if toks[j].Kind() == Types.CloseParenthesis then
      if depth == 0 then j else BoolEndFrom(toks, j + 1, hi, depth - 1)
    else BoolEndFrom(toks, j + 1, hi, depth)
  }

  /** find_bool_end: the end of the longest prefix of [lo, hi) made of
      expression tokens in which no ')' closes more than was opened. */
  function BoolEnd(toks: seq<Token>, lo: nat, hi: nat): (r: nat)
    requires lo <= hi <= |toks|
    ensures lo <= r <= hi
  {
    BoolEndFrom(toks, lo, hi, 0)
  }

  /** The scan from j, with `depth` the depth at j and every earlier
      position admissible, ends where the whole scan from lo ends. */
  lemma {:induction false} BoolEndFromStops(toks: seq<Token>, lo: nat, j: nat, hi: nat, depth: nat)
    requires lo <= j <= hi <= |toks|
    requires depth == Depth(toks, lo, j)
    requires forall k :: lo <= k <= j ==> Depth(toks, lo, k) >= 0
    requires forall k :: lo <= k < j ==> IfBool(toks[k])
    ensures var r := BoolEndFrom(toks, j, hi, depth);
            (forall k :: lo <= k < r ==> IfBool(toks[k])) &&
            (forall k :: lo <= k <= r ==> Depth(toks, lo, k) >= 0) &&
            (r == hi || !IfBool(toks[r]) ||
             (toks[r].Kind() == Types.CloseParenthesis && Depth(toks, lo, r) == 0))
    decreases hi - j
  {
    if j == hi || !IfBool(toks[j]) {
    } else if toks[j].Kind() == Types.CloseParenthesis && depth == 0 {
    } else {
      var d := depth - Delta(toks[j]);
      assert d >= 0 && BoolEndFrom(toks, j, hi, depth) == BoolEndFrom(toks, j + 1, hi, d);
      BoolEndStep(toks, lo, j, depth);
      BoolEndFromStops(toks, lo, j + 1, hi, d);
    }
  }

  /** One admissible token more keeps the conditions of BoolEndFromStops. */
  lemma BoolEndStep(toks: seq<Token>, lo: nat, j: nat, depth: nat)
    requires lo <= j < |toks| && IfBool(toks[j])
    requires depth == Depth(toks, lo, j)
    requires forall k :: lo <= k <= j ==> Depth(toks, lo, k) >= 0
    requires forall k :: lo <= k < j ==> IfBool(toks[k])
    requires toks[j].Kind() != Types.CloseParenthesis || depth != 0
    ensures Depth(toks, lo, j + 1) == depth - Delta(toks[j]) >= 0
    ensures forall k :: lo <= k <= j + 1 ==> Depth(toks, lo, k) >= 0
    ensures forall k :: lo <= k < j + 1 ==> IfBool(toks[k])
  {
    assert Depth(toks, lo, j + 1) == depth - Delta(toks[j]);
  }

  /** Every token before find_bool_end's result is an expression token, no
      prefix up to it has more ')' than '(', and it stops at the end of the
      range, at a token that cannot be part of an expression, or at an
      unmatched ')'. */
  lemma BoolEndStops(toks: seq<Token>, lo: nat, hi: nat)
    requires lo <= hi <= |toks|
    ensures var r := BoolEnd(toks, lo, hi);
            (forall k :: lo <= k < r ==> IfBool(toks[k])) &&
            (forall k :: lo <= k <= r ==> Depth(toks, lo, k) >= 0) &&
            (r == hi || !IfBool(toks[r]) ||
             (toks[r].Kind() == Types.CloseParenthesis && Depth(toks, lo, r) == 0))
  {
    BoolEndFromStops(toks, lo, lo, hi, 0);
  }

  /** The for loop of find_bool_end. */
  method FindBoolEnd(toks: seq<Token>, lo: nat, hi: nat) returns (it: nat)
    requires lo <= hi <= |toks|
    ensures it == BoolEnd(toks, lo, hi)
  {
    var ctr := 0;
    it := lo;
    while it != hi && ctr >= 0 && IfBool(toks[it])
      invariant lo <= it <= hi && ctr >= 0
      invariant BoolEndFrom(toks, it, hi, ctr) == BoolEnd(toks, lo, hi)
      decreases hi - it
    {
      if toks[it].Kind() == Types.OpenParenthesis {
        ctr := ctr + 1;
      } else if toks[it].Kind() == Types.CloseParenthesis {
        ctr := ctr - 1;
        if ctr < 0 {
          break;
        }
      }
      it := it + 1;
    }
  }
}
