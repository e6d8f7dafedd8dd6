/** The tokens the tokenizer produces (the node/id/intLit/unOp/binOp/unKnw
    classes of lexer.h, implemented in lexer.cpp). */
module Tokens {
  import opened Types

  /** The tags a token without a payload carries: punctuation and keywords. */
  predicate IsPlainKind(k: NodeKind) {
    match k
    case OpenBrace | CloseBrace | OpenParenthesis | CloseParenthesis | Semicolon | Scan
       | Print | If | Else | Do | While | BoolTrue | BoolFalse => true
    case _ => false
  }

  type PlainKind = k: NodeKind | IsPlainKind(k) witness OpenBrace

  /** A token. The base class `node` built with a plain tag is `Plain`; the
      derived classes carry their constructor argument, which their accessor
      (get_id, get_int, get_op, get_str) returns unchanged. */
  datatype Token =
    | Plain(kind: PlainKind)
    | Id(id: nat)
    | IntLit(value: int)
    | UnOp(uop: UnOpKind)
    | BinOp(bop: BinOpKind)
    | Unknown(text: string)
  {
    /** get_type() and operator node_t(): one function, so they always agree. */
    function Kind(): NodeKind {
      match this
      case Plain(k) => k
      case Id(_) => Identifier
      case IntLit(_) => IntegerLiteral
      case UnOp(_) => UnaryOperation
      case BinOp(_) => BinaryOperation
      case Unknown(_) => Types.Unknown
    }
  }

  /** Each constructor sets its own tag, and the tag of a token determines
      which constructor built it (so a cast chosen by the tag is always safe). */
  lemma KindIdentifiesConstructor(t: Token)
    ensures t.Kind() == Identifier <==> t.Id?
    ensures t.Kind() == IntegerLiteral <==> t.IntLit?
    ensures t.Kind() == UnaryOperation <==> t.UnOp?
    ensures t.Kind() == BinaryOperation <==> t.BinOp?
    ensures t.Kind() == Types.Unknown <==> t.Unknown?
    ensures t.Plain? <==> IsPlainKind(t.Kind())
  {
  }

  /** isauxiliary: the six single-character punctuation tokens. */
  predicate IsAuxiliary(c: char) {
    c == '{' || c == '}' || c == '(' || c == ')' || c == ';' || c == '?'
  }

  lemma AuxiliaryCharacters(c: char)
    ensures IsAuxiliary(c) <==> c in "{}();?"
  {
  }
}
