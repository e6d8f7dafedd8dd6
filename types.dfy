/** The tags of the interpreter: the kind of a token or syntax-tree node,
    the unary operators and the binary operators (types_decl.h). */
module Types {

  /** node_t: the tag carried by every token and every syntax-tree node. */
  datatype NodeKind =
    | Empty
    | Scope
    | Unknown
    | OpenBrace         // {
    | CloseBrace        // }
    | OpenParenthesis   // (
    | CloseParenthesis  // )
    | Semicolon         // ;
    | Scan              // ?
    | Print             // print
    | If                // if
    | Else              // else
    | Do                // do
    | While             // while
    | UnaryOperation
    | BinaryOperation
    | Identifier
    | IntegerLiteral
    | BoolTrue          // true
    | BoolFalse         // false

  /** unOp_t */
  datatype UnOpKind = LogicalNegation | Negation

  /** binOp_t */
  datatype BinOpKind =
    | Assignment        // =
    | Or                // ||
    | And               // &&
    | Equal             // ==
    | NotEqual          // !=
    | Less              // <
    | LessOrEqual       // <=
    | GreaterOrEqual    // >=
    | Greater           // >
    | Addition          // +
    | Substraction      // -
    | Multiplication    // *
    | Division          // /
}
