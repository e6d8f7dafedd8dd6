/** The syntax tree of parser.h (the node_ast class family, as one datatype
    without parent links or casts) and the parser's error state: the counter
    `err_ctr` and the message buffer `errors`. */
module Syntax {
  import Types

  datatype LoopKind = Do | While

  /** A binary operator the parser can put in a BinOp node: every one but `=`,
      which only ever appears as an assignment. */
  type ExprOp = op: Types.BinOpKind | op != Types.Assignment witness Types.Or

  datatype Ast =
    | Scope(stmts: seq<Ast>)                          // scope_ast
    | If(cond: Ast, thenBody: Ast, elseBody: Ast)     // if_ast
    | Loop(kind: LoopKind, cond: Ast, body: Ast)      // while_ast, tag DO or WHILE
    | Print(val: Ast)                                 // print_ast
    | Assign(target: nat, rhs: Ast)                   // binOp_ast ASSIGNMENT with an id_ast lhs
    | UnOp(uop: Types.UnOpKind, operand: Ast)         // unOp_ast
    | BinOp(bop: ExprOp, lhs: Ast, rhs: Ast)          // binOp_ast
    | Id(id: nat)                                     // id_ast
    | IntLit(lit: int)                                // intLit_ast
    | BoolLit(truth: bool)                            // node_ast BOOL_TRUE / BOOL_FALSE
    | ScanExpr                                        // node_ast SCAN
    | Empty                                           // empty_ast

  /** An expression tree with no placeholder in it. */
  predicate IsExpr(a: Ast) {
    match a
    case UnOp(_, x) => IsExpr(x)
    case BinOp(_, l, r) => IsExpr(l) && IsExpr(r)
    case Id(_) => true
    case IntLit(_) => true
    case BoolLit(_) => true
    case ScanExpr => true
    case _ => false
  }

  /** An expression tree that may have Empty in place of a subexpression:
      what an expression parser returns when it has recorded an error. */
  predicate IsPartialExpr(a: Ast) {
    match a
    case UnOp(_, x) => IsPartialExpr(x)
    case BinOp(_, l, r) => IsPartialExpr(l) && IsPartialExpr(r)
    case Empty => true
    case _ => IsExpr(a)
  }

  /** What `right` produces: an assignment of an expression, or an expression. */
  predicate IsRight(a: Ast) {
    (a.Assign? && IsExpr(a.rhs)) || IsExpr(a)
  }

  /** A statement tree: Empty appears only as an empty statement `;` or a
      missing else branch, never in place of an expression. */
  predicate IsStmt(a: Ast) {
    match a
    case Scope(ss) => forall i :: 0 <= i < |ss| ==> IsStmt(ss[i])
    case If(c, t, f) => IsExpr(c) && IsStmt(t) && IsStmt(f)
    case Loop(_, c, b) => IsExpr(c) && IsStmt(b)
    case Print(v) => IsRight(v)
    case Empty => true
    case _ => IsRight(a)
  }

  /** The diagnostics the parser and the evaluator record. */
  datatype Diag =
    | MsgStray | MsgExpectedExpression | MsgExpectedFactor | MsgUnknownToken
    | MsgExpectedOpenBrace | MsgExpectedCloseBrace | MsgExpectedOpenParen
    | MsgExpectedCloseParen | MsgExpectedSemicolon | MsgExpectedWhile
    | MsgExpectedPrimary | MsgElseWithoutIf | MsgExpectedPrint | MsgExpectedRight
    | MsgUndefined

  /** The text of each diagnostic, ending in a line break as in the source. */
  function Text(d: Diag): string {
    match d
    case MsgStray => "Stray token\n"
    case MsgExpectedExpression => "Expected expression, identifier or int constant\n"
    case MsgExpectedFactor => "Expected expression in parentheses, identifier or int constant\n"
    case MsgUnknownToken => "Unknown token\n"
    case MsgExpectedOpenBrace => "Expected {\n"
    case MsgExpectedCloseBrace => "Expected }\n"
    case MsgExpectedOpenParen => "Expected (\n"
    case MsgExpectedCloseParen => "Expected )\n"
    case MsgExpectedSemicolon => "Expected ;\n"
    case MsgExpectedWhile => "Expected while\n"
    case MsgExpectedPrimary => "Expected primary-expression\n"
    case MsgElseWithoutIf => "else without previous if\n"
    case MsgExpectedPrint => "Expected print, assignment, expression, identifier or int constant\n"
    case MsgExpectedRight => "Expected assignment, expression, identifier or int constant\n"
    case MsgUndefined => "Undefined identifier\n"
  }

  /** The `errors` string of the source: the texts of the recorded
      diagnostics, in the order they were recorded. */
  function Transcript(ds: seq<Diag>): string {
    if ds == [] then "" else Transcript(ds[..|ds| - 1]) + Text(ds[|ds| - 1])
  }

  /** err_ctr and the diagnostics behind `errors`. */
  datatype ErrState = ErrState(ctr: nat, diags: seq<Diag>) {
    /** `++err_ctr; errors += msg;` */
    function Add(d: Diag): ErrState {
      ErrState(ctr + 1, diags + [d])
    }
    predicate Poisoned() { ctr > 0 }
  }

  const NoErrors := ErrState(0, [])

  /** `e2` is `e1`, or `e1` with at least one more error and more
      diagnostics appended: errors are never erased, the counter never goes
      down. */
  predicate Extends(e1: ErrState, e2: ErrState) {
    e2 == e1 || (e1.ctr < e2.ctr && e1.diags < e2.diags)
  }

  lemma ExtendsTransitive(e1: ErrState, e2: ErrState, e3: ErrState)
    requires Extends(e1, e2) && Extends(e2, e3)
    ensures Extends(e1, e3)
  {
  }

  /** Appending a diagnostic appends its text to the transcript. */
  lemma TranscriptAdd(e: ErrState, d: Diag)
    ensures Transcript(e.Add(d).diags) == Transcript(e.diags) + Text(d)
  {
    assert (e.diags + [d])[..|e.diags|] == e.diags;
  }
}
