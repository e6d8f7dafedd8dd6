/** What the tokenizer promises, proved about the specification functions of
    Lexer (which the `Lexer.Lexer` methods are proved equal to). */
module LexerProps {
  import opened Types
  import opened Tokens
  import opened Lexer

  // ----- integer literals -----

  /** The digit character of a decimal digit. */
  function DigitChar(d: nat): (c: char)
    requires d < 10
    ensures IsDigit(c) && DigitValue(c) == d
  {
    (('0' as int) + d) as char
  }

  /** The decimal numeral of n: most significant digit first, no leading
      zeros, "0" for zero. It is what DecimalValue reads back. */
  function Numeral(n: nat): (s: string)
    ensures |s| >= 1 && AllDigits(s)
    decreases n
  {
    if n < 10 then [DigitChar(n)] else Numeral(n / 10) + [DigitChar(n % 10)]
  }

  /** stoi undoes the numeral: the value of the digits of n is n. */
  lemma {:induction false} NumeralValue(n: nat)
    ensures DecimalValue(Numeral(n)) == n
    decreases n
  {
    var s := Numeral(n);
    if n < 10 {
      assert s[..|s| - 1] == [];
    } else {
      assert s[..|s| - 1] == Numeral(n / 10);
      NumeralValue(n / 10);
    }
  }

  /** read_digit_token on a numeral followed by a non-digit reads back the
      number and consumes exactly the numeral. */
  lemma ReadsNumeral(text: string, cur: nat, n: nat, ids: map<string, nat>)
    requires cur + |Numeral(n)| <= |text| && text[cur..cur + |Numeral(n)|] == Numeral(n)
    requires cur + |Numeral(n)| == |text| || !IsDigit(text[cur + |Numeral(n)|])
    ensures NextToken(text, cur, ids) == Lexeme(IntLit(n), cur + |Numeral(n)|, ids)
  {
    var e := cur + |Numeral(n)|;
    forall k | cur <= k < e ensures InClass(text[k], Digits) {
      assert text[k] == Numeral(n)[k - cur];
    }
    RunEndUnique(text, cur, Digits, e);
    assert IsDigit(text[cur]) by {
      assert text[cur] == Numeral(n)[0];
    }
    NumeralValue(n);
  }

  /** stoi ignores leading zeros: `007` reads as 7. */
  lemma {:induction false} LeadingZerosIgnored(s: string)
    requires AllDigits(s)
    ensures AllDigits("0" + s) && DecimalValue("0" + s) == DecimalValue(s)
    decreases |s|
  {
    var t := "0" + s;
    assert AllDigits(t) by {
      forall k | 0 <= k < |t| ensures IsDigit(t[k]) {
        if k > 0 { assert t[k] == s[k - 1]; }
      }
    }
    if s == [] {
      assert t[..|t| - 1] == [];
    } else {
      var p := s[..|s| - 1];
      assert AllDigits(p) by {
        forall k | 0 <= k < |p| ensures IsDigit(p[k]) { assert p[k] == s[k]; }
      }
      assert t[..|t| - 1] == "0" + p;
      assert t[|t| - 1] == s[|s| - 1];
      LeadingZerosIgnored(p);
    }
  }

  // ----- character classes -----

  /** The four <cctype> classes tokenize dispatches on are disjoint, so at
      most one branch of its loop applies to a character, and a lexable
      character is in exactly one of them. */
  lemma CharClassesDisjoint(c: char)
    ensures !(IsSpace(c) && IsDigit(c)) && !(IsSpace(c) && IsAlpha(c)) && !(IsSpace(c) && IsPunct(c))
    ensures !(IsDigit(c) && IsAlpha(c)) && !(IsDigit(c) && IsPunct(c)) && !(IsAlpha(c) && IsPunct(c))
    ensures IsAuxiliary(c) ==> IsPunct(c)
  {
  }

  // The characters of each class, as the C standard lists them for the
  // "C" locale.
  const SpaceChars := " \t\n\U{000B}\U{000C}\r"
  const DigitChars := "0123456789"
  const LowerChars := "abcdefghijklmnopqrstuvwxyz"
  const UpperChars := "ABCDEFGHIJKLMNOPQRSTUVWXYZ"
  const PunctChars := "!\"#$%&'()*+,-./:;<=>?@[\\]^_`{|}~"

  /** isspace and isdigit hold for exactly the listed characters. */
  lemma SpaceAndDigitCharacters(c: char)
    ensures IsSpace(c) <==> c in SpaceChars
    ensures IsDigit(c) <==> c in DigitChars
  {
  }

  /** isalpha holds for exactly the 52 listed letters. */
  lemma LetterCharacters(c: char)
    ensures IsAlpha(c) <==> c in LowerChars || c in UpperChars
  {
  }

  /** ispunct holds for exactly the 32 listed characters. */
  lemma PunctuationCharacters(c: char)
    ensures IsPunct(c) <==> c in PunctChars
  {
  }

  // ----- whitespace -----

  /** Leading whitespace is skipped: tokenizing from `cur` is tokenizing
      from the first non-space character. */
  lemma SkipsLeadingSpaces(text: string, cur: nat, ids: map<string, nat>)
    requires cur <= |text| && AllLexable(text)
    ensures TokenizeFrom(text, cur, ids) == TokenizeFrom(text, RunEnd(text, cur, Spaces), ids)
  {
    var s := RunEnd(text, cur, Spaces);
    if s < |text| {
      RunEndUnique(text, s, Spaces, s);
    }
  }

  /** Text made only of whitespace gives no token and leaves the table
      alone. */
  lemma SpacesGiveNoTokens(text: string, cur: nat, ids: map<string, nat>)
    requires cur <= |text| && AllLexable(text)
    requires forall k :: cur <= k < |text| ==> IsSpace(text[k])
    ensures TokenizeFrom(text, cur, ids) == Lexed([], ids)
  {
    RunEndUnique(text, cur, Spaces, |text|);
  }

  // ----- the interning table -----

  lemma GrowsTransitive(a: map<string, nat>, b: map<string, nat>, c: map<string, nat>)
    requires Grows(a, b) && Grows(b, c)
    ensures Grows(a, c)
  {
  }

  /** One token keeps every entry of the table and keeps it dense. */
  lemma NextTokenTable(text: string, cur: nat, ids: map<string, nat>)
    requires cur < |text| && Lexable(text[cur]) && !IsSpace(text[cur])
    ensures var l := NextToken(text, cur, ids);
            Grows(ids, l.ids) && (Dense(ids) ==> Dense(l.ids))
  {
    if IsAlpha(text[cur]) {
      var name := text[cur..RunEnd(text, cur, Alnums)];
      if name !in KeyWords {
        var _ := Intern(ids, name);
      }
    }
  }

  /** tokenize keeps every entry of the table; a dense table stays dense,
      so identifiers are numbered 0, 1, 2, ... in order of first
      occurrence. */
  lemma {:induction false} TokenizeTable(text: string, cur: nat, ids: map<string, nat>)
    requires cur <= |text| && AllLexable(text)
    ensures var r := TokenizeFrom(text, cur, ids);
            Grows(ids, r.ids) && (Dense(ids) ==> Dense(r.ids))
    decreases |text| - cur
  {
    if cur < |text| {
      var s := RunEnd(text, cur, Spaces);
      if s < |text| {
        var l := NextToken(text, s, ids);
        NextTokenTable(text, s, ids);
        TokenizeTable(text, l.next, l.ids);
        GrowsTransitive(ids, l.ids, TokenizeFrom(text, l.next, l.ids).ids);
      }
    }
  }

  /** A keyword is a plain token and leaves the table unchanged. */
  lemma KeywordKeepsTable(text: string, cur: nat, ids: map<string, nat>)
    requires cur < |text| && IsAlpha(text[cur])
    requires text[cur..RunEnd(text, cur, Alnums)] in KeyWords
    ensures var l := NextToken(text, cur, ids);
            l.tok == Plain(KeyWords[text[cur..l.next]]) && l.next == RunEnd(text, cur, Alnums) &&
            l.ids == ids
  {
  }

  /** Any other alphanumeric run is an identifier: a known name keeps its
      id and the table, a new one gets the next id. */
  lemma IdentifierInterned(text: string, cur: nat, ids: map<string, nat>)
    requires cur < |text| && IsAlpha(text[cur])
    requires text[cur..RunEnd(text, cur, Alnums)] !in KeyWords
    ensures var name := text[cur..RunEnd(text, cur, Alnums)];
            var l := NextToken(text, cur, ids);
            l.tok.Id? && name in l.ids && l.ids[name] == l.tok.id &&
            (name in ids ==> l.ids == ids) &&
            (name !in ids ==> l.tok.id == |ids| && l.ids.Keys == ids.Keys + {name})
  {
  }

  // ----- auxiliary characters -----

  /** Reading the character of an auxiliary tag gives back that tag. */
  lemma AuxiliaryRoundTrip(k: NodeKind)
    requires IsAuxiliaryKind(k)
    ensures AuxiliaryToken(AuxiliaryChar(k)) == Plain(k)
  {
  }

  /** At an auxiliary character the tokenizer reads exactly that character
      as its tag: `{` OPEN_BRACE, `}` CLOSE_BRACE, `(` OPEN_PARENTHESIS,
      `)` CLOSE_PARENTHESIS, `;` SEMICOLON, `?` SCAN; the table is unchanged. */
  lemma AuxiliaryCharacterToken(text: string, cur: nat, ids: map<string, nat>)
    requires cur < |text| && IsAuxiliary(text[cur])
    ensures Lexable(text[cur]) && !IsSpace(text[cur])
    ensures var l := NextToken(text, cur, ids);
            l.next == cur + 1 && l.ids == ids && l.tok == AuxiliaryToken(text[cur]) &&
            (text[cur] == '{' <==> l.tok.Kind() == OpenBrace) &&
            (text[cur] == '}' <==> l.tok.Kind() == CloseBrace) &&
            (text[cur] == '(' <==> l.tok.Kind() == OpenParenthesis) &&
            (text[cur] == ')' <==> l.tok.Kind() == CloseParenthesis) &&
            (text[cur] == ';' <==> l.tok.Kind() == Semicolon) &&
            (text[cur] == '?' <==> l.tok.Kind() == Scan)
  {
  }

  // ----- operators -----

  /** Every binary operator of two characters is made of punctuation, so
      the two-character lookup of read_op_token is never cut short. */
  lemma LongestMatch(text: string, cur: nat)
    requires cur + 1 < |text| && text[cur..cur + 2] in BinOps
    ensures OpToken(text, cur) == (BinOp(BinOps[text[cur..cur + 2]]), cur + 2)
  {
    var two := text[cur..cur + 2];
    assert two[1] == text[cur + 1];
    assert two in {"||", "&&", "==", "!=", "<=", ">="} by {
      assert |two| == 2;
    }
  }

  /** A '-' is always read as SUBSTRACTION, one character long: no binary
      operator of two characters starts with '-'. */
  lemma MinusIsSubstraction(text: string, cur: nat)
    requires cur < |text| && text[cur] == '-'
    ensures OpToken(text, cur) == (BinOp(Substraction), cur + 1)
  {
    if cur + 1 < |text| {
      var two := text[cur..cur + 2];
      assert two[0] == '-';
      assert two !in BinOps;
    }
    assert [text[cur]] == "-";
  }

  /** `!` on its own is the unary LOGICAL_NEGATION; followed by `=` it is
      NOT_EQUAL. */
  lemma Exclamation(text: string, cur: nat)
    requires cur < |text| && text[cur] == '!'
    ensures cur + 1 < |text| && text[cur + 1] == '=' ==>
              OpToken(text, cur) == (BinOp(NotEqual), cur + 2)
    ensures (cur + 1 == |text| || text[cur + 1] != '=') ==>
              OpToken(text, cur) == (UnOp(LogicalNegation), cur + 1)
  {
    assert [text[cur]] == "!";
    if cur + 1 < |text| {
      var two := text[cur..cur + 2];
      assert two[0] == '!' && two[1] == text[cur + 1];
      if text[cur + 1] == '=' {
        assert two == "!=";
      } else {
        assert two != "!=";
      }
    }
  }

  /** The two characters at `cur` do not form a binary operator. */
  predicate NoTwoCharOperator(text: string, cur: nat)
    requires cur < |text|
  {
    !(cur + 1 < |text| && IsPunct(text[cur + 1]) && text[cur..cur + 2] in BinOps)
  }

  /** Without a two-character match, read_op_token falls back to the one
      character under the cursor: a binary operator first, then a unary
      one. */
  lemma OneCharOperator(text: string, cur: nat, ids: map<string, nat>)
    requires cur < |text| && IsPunct(text[cur]) && !IsAuxiliary(text[cur]) && NoTwoCharOperator(text, cur)
    ensures var l := NextToken(text, cur, ids);
            ([text[cur]] in BinOps ==> l == Lexeme(BinOp(BinOps[[text[cur]]]), cur + 1, ids)) &&
            ([text[cur]] !in BinOps && [text[cur]] in UnOps ==>
               l == Lexeme(UnOp(UnOps[[text[cur]]]), cur + 1, ids))
  {
    CharClassesDisjoint(text[cur]);
    var (t, e) := OpToken(text, cur);
    assert NextToken(text, cur, ids) == Lexeme(t, e, ids);
  }

  /** Punctuation that starts no operator is an unknown token over the
      whole run of non-auxiliary punctuation after it; an auxiliary
      character always ends that run. */
  lemma UnknownOperatorRun(text: string, cur: nat, ids: map<string, nat>)
    requires cur < |text| && IsPunct(text[cur]) && !IsAuxiliary(text[cur]) && NoTwoCharOperator(text, cur)
    requires [text[cur]] !in BinOps && [text[cur]] !in UnOps
    ensures var e := RunEnd(text, cur + 1, OpChars);
            NextToken(text, cur, ids) == Lexeme(Token.Unknown(text[cur..e]), e, ids) &&
            (forall k :: cur < k < e ==> IsPunct(text[k]) && !IsAuxiliary(text[k])) &&
            (e == |text| || !IsPunct(text[e]) || IsAuxiliary(text[e]))
  {
  }

  // ----- an example -----

  /** `12+3` is the tokens 12, ADDITION, 3. */
  lemma TwelvePlusThree(ids: map<string, nat>)
    ensures TokenizeFrom("12+3", 0, ids) == Lexed([IntLit(12), BinOp(Addition), IntLit(3)], ids)
  {
    var text := "12+3";
    assert AllLexable(text);
    ExampleLast(text, ids);
    ExampleMiddle(text, ids);
    ExampleFirst(text, ids);
  }

  lemma ExampleFirst(text: string, ids: map<string, nat>)
    requires text == "12+3" && AllLexable(text)
    ensures TokenizeFrom(text, 0, ids) ==
              Lexed([IntLit(12)] + TokenizeFrom(text, 2, ids).tokens, TokenizeFrom(text, 2, ids).ids)
  {
    RunEndUnique(text, 0, Spaces, 0);
    ExampleNumerals();
    assert text[0..2] == "12";
    ReadsNumeral(text, 0, 12, ids);
    TokenizeFromStep(text, 0, ids);
  }

  lemma ExampleLast(text: string, ids: map<string, nat>)
    requires text == "12+3" && AllLexable(text)
    ensures TokenizeFrom(text, 3, ids) == Lexed([IntLit(3)], ids)
  {
    RunEndUnique(text, 3, Spaces, 3);
    ExampleNumerals();
    ReadsNumeral(text, 3, 3, ids);
    TokenizeFromStep(text, 3, ids);
  }

  lemma ExampleMiddle(text: string, ids: map<string, nat>)
    requires text == "12+3" && AllLexable(text)
    ensures TokenizeFrom(text, 2, ids) ==
              Lexed([BinOp(Addition)] + TokenizeFrom(text, 3, ids).tokens, TokenizeFrom(text, 3, ids).ids)
  {
    RunEndUnique(text, 2, Spaces, 2);
    ExamplePlus(text);
    TokenizeFromStep(text, 2, ids);
  }

  lemma ExampleNumerals()
    ensures Numeral(12) == "12" && Numeral(3) == "3"
  {
    assert Numeral(1) == "1";
  }

  lemma ExamplePlus(text: string)
    requires text == "12+3"
    ensures OpToken(text, 2) == (BinOp(Addition), 3)
  {
    assert [text[2]] == "+";
    assert text[2..4] == "+3";
  }
}
