/** The tokenizer of lexer.h: a left-to-right scanner over the program text.
    Each `Read...` method advances a cursor and is proved equal to a
    specification function; `Lexer.Tokenize` repeats them until the end of
    the text. The process-wide interning table `IDs` of the source is the
    field `ids` of a `Lexer` object. */
module Lexer {
  import opened Types
  import opened Tokens

  /** keyW_s */
  const KeyWords: map<string, PlainKind> :=
    map["print" := Print, "if" := If, "else" := Else, "do" := Do,
        "while" := While, "true" := BoolTrue, "false" := BoolFalse]

  /** unOp_s */
  const UnOps: map<string, UnOpKind> := map["!" := LogicalNegation]

  /** binOp_s; every '-' is read as SUBSTRACTION, the parser decides later
      whether it is a negation. */
  const BinOps: map<string, BinOpKind> :=
    map["=" := Assignment, "||" := Or, "&&" := And, "==" := Equal, "!=" := NotEqual,
        "<" := Less, "<=" := LessOrEqual, ">=" := GreaterOrEqual, ">" := Greater,
        "+" := Addition, "-" := Substraction, "*" := Multiplication, "/" := Division]

  // The character classes of <cctype> in the "C" locale.
  predicate IsSpace(c: char) { c == ' ' || '\t' <= c <= '\r' }
  predicate IsDigit(c: char) { '0' <= c <= '9' }
  predicate IsAlpha(c: char) { 'a' <= c <= 'z' || 'A' <= c <= 'Z' }
  predicate IsPunct(c: char) {
    '!' <= c <= '/' || ':' <= c <= '@' || '[' <= c <= '`' || '{' <= c <= '~'
  }

  /** The characters the scanner can make progress on; on any other
      character `tokenize` of the source loops forever. */
  predicate Lexable(c: char) { IsSpace(c) || IsDigit(c) || IsAlpha(c) || IsPunct(c) }

  predicate AllLexable(text: string) { forall k :: 0 <= k < |text| ==> Lexable(text[k]) }

  /** The runs the scanner consumes in one loop. */
  datatype CharClass = Spaces | Digits | Alnums | OpChars

  predicate InClass(c: char, cls: CharClass) {
    match cls
    case Spaces => IsSpace(c)
    case Digits => IsDigit(c)
    case Alnums => IsAlpha(c) || IsDigit(c)
    case OpChars => IsPunct(c) && !IsAuxiliary(c)
  }

  /** The end of the maximal run of `cls` characters starting at `i`. */
  function RunEnd(text: string, i: nat, cls: CharClass): (r: nat)
    requires i <= |text|
    ensures i <= r <= |text|
    ensures forall k :: i <= k < r ==> InClass(text[k], cls)
    ensures r == |text| || !InClass(text[r], cls)
    decreases |text| - i
  {
    if i == |text| || !InClass(text[i], cls) then i else RunEnd(text, i + 1, cls)
  }

  /** Any position satisfying the two conditions of a maximal run is RunEnd. */
  lemma {:induction false} RunEndUnique(text: string, i: nat, cls: CharClass, e: nat)
    requires i <= e <= |text|
    requires forall k :: i <= k < e ==> InClass(text[k], cls)
    requires e == |text| || !InClass(text[e], cls)
    ensures e == RunEnd(text, i, cls)
    decreases e - i
  {
    if i < e {
      assert InClass(text[i], cls);
      RunEndUnique(text, i + 1, cls, e);
    }
  }

  predicate AllDigits(s: string) { forall k :: 0 <= k < |s| ==> IsDigit(s[k]) }

  function DigitValue(c: char): (d: nat)
    requires IsDigit(c)
    ensures d < 10
  {
    (c as int) - ('0' as int)
  }

  function Pow10(n: nat): (p: nat)
    ensures p >= 1
  {
    if n == 0 then 1 else 10 * Pow10(n - 1)
  }

  /** stoi on a run of decimal digits (its 32-bit range check is not
      modelled): a numeral of k digits is below 10^k. */
  function DecimalValue(s: string): (v: nat)
    requires AllDigits(s)
    ensures v < Pow10(|s|)
  {
    if s == [] then 0 else 10 * DecimalValue(s[..|s| - 1]) + DigitValue(s[|s| - 1])
  }

  /** The tags read_auxiliary_token produces. */
  predicate IsAuxiliaryKind(k: NodeKind) {
    k == OpenBrace || k == CloseBrace || k == OpenParenthesis || k == CloseParenthesis ||
    k == Semicolon || k == Scan
  }

  /** The character each auxiliary tag stands for. */
  function AuxiliaryChar(k: NodeKind): (c: char)
    requires IsAuxiliaryKind(k)
    ensures IsAuxiliary(c)
  {
    match k
    case OpenBrace => '{'
    case CloseBrace => '}'
    case OpenParenthesis => '('
    case CloseParenthesis => ')'
    case Semicolon => ';'
    case Scan => '?'
  }

  /** read_auxiliary_token's choice of tag: a plain token whose tag stands
      for the character read. */
  function AuxiliaryToken(c: char): (t: Token)
    requires IsAuxiliary(c)
    ensures t.Plain? && IsAuxiliaryKind(t.kind) && AuxiliaryChar(t.kind) == c
  {
    if c == '{' then Plain(OpenBrace)
    else if c == '}' then Plain(CloseBrace)
    else if c == '(' then Plain(OpenParenthesis)
    else if c == ')' then Plain(CloseParenthesis)
    else if c == ';' then Plain(Semicolon)
    else Plain(Scan)
  }

  /** read_op_token: a two-character binary operator, else a one-character
      binary or unary operator, else the run of non-auxiliary punctuation as an
      unknown token. (The source also looks the two characters up among the unary
      operators; the only unary entry has one character, so that never matches.) */
  function OpToken(text: string, cur: nat): (r: (Token, nat))
    requires cur < |text|
    ensures cur < r.1 <= |text|
  {
    if cur + 1 < |text| && IsPunct(text[cur + 1]) && text[cur..cur + 2] in BinOps then
      (BinOp(BinOps[text[cur..cur + 2]]), cur + 2)
    else if [text[cur]] in BinOps then
      (BinOp(BinOps[[text[cur]]]), cur + 1)
    else if [text[cur]] in UnOps then
      (UnOp(UnOps[[text[cur]]]), cur + 1)
    else
      var e := RunEnd(text, cur + 1, OpChars);
      (Token.Unknown(text[cur..e]), e)
  }

  /** The interning table has ids 0 .. |ids|-1, each used once. */
  predicate Dense(ids: map<string, nat>) {
    (forall name :: name in ids ==> ids[name] < |ids|) &&
    (forall a, b :: a in ids && b in ids && a != b ==> ids[a] != ids[b])
  }

  /** `big` holds every entry of `small` unchanged. */
  predicate Grows(small: map<string, nat>, big: map<string, nat>) {
    forall name :: name in small ==> name in big && big[name] == small[name]
  }

  /** The lookup-or-insert of read_id_keyword_token: a known name keeps its id,
      a new name gets the next id IDs.size(), and the table only grows. */
  function Intern(ids: map<string, nat>, name: string): (r: (map<string, nat>, nat))
    ensures name in r.0 && r.0[name] == r.1
    ensures r.0.Keys == ids.Keys + {name}
    ensures Grows(ids, r.0)
    ensures name in ids ==> r.0 == ids
    ensures name !in ids ==> r.1 == |ids|
    ensures Dense(ids) ==> Dense(r.0)
  {
    if name in ids then (ids, ids[name]) else (ids[name := |ids|], |ids|)
  }

  /** The token for an alphanumeric run: a keyword, or an interned identifier. */
  function IdKeywordToken(ids: map<string, nat>, name: string): (r: (Token, map<string, nat>))
    ensures name in KeyWords ==> r.0.Plain? && r.0.kind == KeyWords[name] && r.1 == ids
    ensures name !in KeyWords ==> r.0.Id? && name in r.1 && r.1[name] == r.0.id && Grows(ids, r.1)
    ensures name !in KeyWords && name !in ids ==> r.0.id == |ids| && r.1.Keys == ids.Keys + {name}
    ensures name !in KeyWords && name in ids ==> r.1 == ids
  {
    if name in KeyWords then (Plain(KeyWords[name]), ids)
    else
      var (ids', n) := Intern(ids, name);
      (Id(n), ids')
  }

  /** One token read from the text: the token, the position after it and
      the interning table after it. */
  datatype Lexeme = Lexeme(tok: Token, next: nat, ids: map<string, nat>)

  /** The tokens read from a position on, and the final interning table. */
  datatype Lexed = Lexed(tokens: seq<Token>, ids: map<string, nat>)

  /** One token read at a position that holds a non-space lexable character. */
  function NextToken(text: string, cur: nat, ids: map<string, nat>): (r: Lexeme)
    requires cur < |text| && Lexable(text[cur]) && !IsSpace(text[cur])
    ensures cur < r.next <= |text|
  {
    if IsDigit(text[cur]) then
      var e := RunEnd(text, cur, Digits);
      assert AllDigits(text[cur..e]) by {
        forall k | 0 <= k < e - cur ensures IsDigit(text[cur..e][k]) {
          assert InClass(text[cur + k], Digits);
        }
      }
      Lexeme(IntLit(DecimalValue(text[cur..e])), e, ids)
    else if IsAlpha(text[cur]) then
      var e := RunEnd(text, cur, Alnums);
      var (t, ids') := IdKeywordToken(ids, text[cur..e]);
      Lexeme(t, e, ids')
    else if IsAuxiliary(text[cur]) then
      Lexeme(AuxiliaryToken(text[cur]), cur + 1, ids)
    else
      var (t, e) := OpToken(text, cur);
      Lexeme(t, e, ids)
  }

  /** tokenize from `cur`: the tokens in source order and the final table.
      Every token consumes at least one character, so there are never more
      tokens than characters left. */
  function TokenizeFrom(text: string, cur: nat, ids: map<string, nat>): (r: Lexed)
    requires cur <= |text| && AllLexable(text)
    ensures |r.tokens| <= |text| - cur
    decreases |text| - cur
  {
    if cur == |text| then Lexed([], ids)
    else
      var s := RunEnd(text, cur, Spaces);
      if s == |text| then Lexed([], ids)
      else
        var Lexeme(t, next, ids1) := NextToken(text, s, ids);
        var Lexed(rest, ids2) := TokenizeFrom(text, next, ids1);
        Lexed([t] + rest, ids2)
  }

  /** One round of the tokenize loop: skip spaces, then read one token. */
  lemma TokenizeFromStep(text: string, cur: nat, ids: map<string, nat>)
    requires cur < |text| && AllLexable(text)
    requires RunEnd(text, cur, Spaces) < |text|
    ensures var l := NextToken(text, RunEnd(text, cur, Spaces), ids);
            var rest := TokenizeFrom(text, l.next, l.ids);
            TokenizeFrom(text, cur, ids) == Lexed([l.tok] + rest.tokens, rest.ids)
  {
  }

  // ----- the scanning routines, as the source writes them -----

  /** skip_spaces */
  method SkipSpaces(text: string, cur: nat) returns (next: nat)
    requires cur <= |text|
    ensures next == RunEnd(text, cur, Spaces)
  {
    next := cur;
    while next != |text| && IsSpace(text[next])
      invariant cur <= next <= |text|
      invariant forall k :: cur <= k < next ==> IsSpace(text[k])
    {
      next := next + 1;
    }
    RunEndUnique(text, cur, Spaces, next);
  }

  /** read_digit_token: the maximal digit run at `cur` and its decimal value. */
  method ReadDigitToken(text: string, cur: nat) returns (tok: Token, next: nat)
    requires cur < |text| && IsDigit(text[cur])
    ensures next == RunEnd(text, cur, Digits)
    ensures tok == IntLit(DecimalValue(text[cur..next]))
  {
    var token: string := [];
    next := cur;
    while next != |text| && IsDigit(text[next])
      invariant cur <= next <= |text|
      invariant token == text[cur..next]
      invariant forall k :: cur <= k < next ==> IsDigit(text[k])
    {
      token := token + [text[next]];
      next := next + 1;
    }
    RunEndUnique(text, cur, Digits, next);
    tok := IntLit(DecimalValue(token));
  }

  /** read_auxiliary_token: exactly one of `{ } ( ) ; ?`. */
  method ReadAuxiliaryToken(text: string, cur: nat) returns (tok: Token, next: nat)
    requires cur < |text| && IsAuxiliary(text[cur])
    ensures tok == AuxiliaryToken(text[cur]) && next == cur + 1
  {
    var c := text[cur];
    next := cur + 1;
    if c == '{' {
      tok := Plain(OpenBrace);
    } else if c == '}' {
      tok := Plain(CloseBrace);
    } else if c == '(' {
      tok := Plain(OpenParenthesis);
    } else if c == ')' {
      tok := Plain(CloseParenthesis);
    } else if c == ';' {
      tok := Plain(Semicolon);
    } else {
      tok := Plain(Scan);
    }
  }

  /** read_op_token */
  method ReadOpToken(text: string, cur: nat) returns (tok: Token, next: nat)
    requires cur < |text|
    ensures (tok, next) == OpToken(text, cur)
  {
    var token: string := [text[cur]];
    next := cur + 1;
    if next != |text| && IsPunct(text[next]) {
      token := token + [text[next]];
      assert token == text[cur..cur + 2];
      if token in BinOps {
        return BinOp(BinOps[token]), next + 1;
      }
      token := token[..1];
    }
    assert token == [text[cur]];
    if token in BinOps {
      tok := BinOp(BinOps[token]);
    } else if token in UnOps {
      tok := UnOp(UnOps[token]);
    } else {
      while next != |text| && IsPunct(text[next]) && !IsAuxiliary(text[next])
        invariant cur + 1 <= next <= |text|
        invariant token == text[cur..next]
        invariant forall k :: cur + 1 <= k < next ==> InClass(text[k], OpChars)
      {
        token := token + [text[next]];
        next := next + 1;
      }
      RunEndUnique(text, cur + 1, OpChars, next);
      tok := Token.Unknown(token);
    }
  }

  /** read_op_auxiliary_token */
  method ReadOpAuxiliaryToken(text: string, cur: nat) returns (tok: Token, next: nat)
    requires cur < |text|
    ensures IsAuxiliary(text[cur]) ==> tok == AuxiliaryToken(text[cur]) && next == cur + 1
    ensures !IsAuxiliary(text[cur]) ==> (tok, next) == OpToken(text, cur)
  {
    if IsAuxiliary(text[cur]) {
      tok, next := ReadAuxiliaryToken(text, cur);
    } else {
      tok, next := ReadOpToken(text, cur);
    }
  }

  /** The tokenizer together with its interning table. */
  class Lexer {
    var ids: map<string, nat>

    constructor ()
      ensures ids == map[]
    {
      ids := map[];
    }

    /** read_id_keyword_token */
    method ReadIdKeywordToken(text: string, cur: nat) returns (tok: Token, next: nat)
      requires cur <= |text|
      modifies this
      ensures next == RunEnd(text, cur, Alnums)
      ensures (tok, ids) == IdKeywordToken(old(ids), text[cur..next])
    {
      var token: string := [];
      next := cur;
      while next != |text| && (IsAlpha(text[next]) || IsDigit(text[next]))
        invariant cur <= next <= |text|
        invariant token == text[cur..next]
        invariant forall k :: cur <= k < next ==> InClass(text[k], Alnums)
      {
        token := token + [text[next]];
        next := next + 1;
      }
      RunEndUnique(text, cur, Alnums, next);
      if token in KeyWords {
        tok := Plain(KeyWords[token]);
        return;
      }
      if token in ids {
        tok := Id(ids[token]);
      } else {
        var newId := |ids|;
        ids := ids[token := newId];
        tok := Id(newId);
      }
    }

    /** The branch of tokenize's loop body that reads one token at a
        non-space character. */
    method ReadToken(text: string, s: nat) returns (tok: Token, next: nat)
      requires s < |text| && Lexable(text[s]) && !IsSpace(text[s])
      modifies this
      ensures Lexeme(tok, next, ids) == NextToken(text, s, old(ids))
    {
      if IsDigit(text[s]) {
        tok, next := ReadDigitToken(text, s);
      } else if IsAlpha(text[s]) {
        tok, next := ReadIdKeywordToken(text, s);
      } else {
        tok, next := ReadOpAuxiliaryToken(text, s);
      }
    }

    /** tokenize: the tokens of `text` in source order. */
    method Tokenize(text: string) returns (tokens: seq<Token>)
      requires AllLexable(text)
      modifies this
      ensures Lexed(tokens, ids) == TokenizeFrom(text, 0, old(ids))
    {
      tokens := [];
      var cur: nat := 0;
      assert tokens + TokenizeFrom(text, cur, ids).tokens == TokenizeFrom(text, cur, ids).tokens;
      while cur != |text|
        invariant cur <= |text|
        invariant TokenizeFrom(text, 0, old(ids)) ==
                  Lexed(tokens + TokenizeFrom(text, cur, ids).tokens, TokenizeFrom(text, cur, ids).ids)
        decreases |text| - cur
      {
        var s := SkipSpaces(text, cur);
        if s == |text| {
          // the source dereferences the end here; no token is read
          assert TokenizeFrom(text, cur, ids) == Lexed([], ids) == TokenizeFrom(text, s, ids);
          cur := s;
          continue;
        }
        ghost var idsBefore := ids;
        var tok, next := ReadToken(text, s);
        TokenizeFromStep(text, cur, idsBefore);
        ghost var rest := TokenizeFrom(text, next, ids);
        assert tokens + ([tok] + rest.tokens) == (tokens + [tok]) + rest.tokens;
        tokens := tokens + [tok];
        cur := next;
      }
      assert tokens + TokenizeFrom(text, cur, ids).tokens == tokens;
    }
  }
}
