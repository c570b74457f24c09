/** Which tokens the lexer makes of which texts, told by the names in the token list. */
module Names {
  import opened TokenSets
  import opened Tokens
  import opened Scanning
  import opened Respelling

  /** The numbers from TKN_IDENT on are those of the token list, and there are no others. */
  lemma {:induction false} EveryTokenHasName(t: int)
    ensures TokenName(t) != "" <==> TKN_IDENT <= t < MAX_TOKENS
  {
    if t < TKN_ALIGNAS {
      hide KeywordName;
    } else {
      hide SymbolName;
    }
  }

  predicate IsSymbolToken(t: int) {
    TKN_ADD_OP <= t <= TKN_SEMICOLON
  }

  predicate IsKeywordToken(t: int) {
    TKN_ALIGNAS <= t <= TKN_YIELD
  }

  // -------------------------------------------------------------------------- symbols

  /** The text of a symbol: its name, but for the one that the token list names amiss. */
  function SymbolText(t: int): string {
    if t == TKN_EQ_OP then "==" else TokenName(t)
  }

  lemma {:induction false} OneCharacter(c: char)
    requires Symbol1(c) != TKN_INVALID
    ensures IsSymbolToken(Symbol1(c)) && TokenName(Symbol1(c)) == [c] && Symbol1(c) != TKN_EQ_OP
  {
  }

  lemma {:induction false} TwoCharacters(c: char, d: char)
    requires Symbol2(c, d) != TKN_INVALID
    ensures IsSymbolToken(Symbol2(c, d)) && SymbolText(Symbol2(c, d)) == [c, d]
  {
  }

  lemma {:induction false} ThreeCharacters(c: char, d: char, e: char)
    requires Symbol3(c, d, e) != TKN_INVALID
    ensures IsSymbolToken(Symbol3(c, d, e)) && TokenName(Symbol3(c, d, e)) == [c, d, e]
    ensures Symbol3(c, d, e) != TKN_EQ_OP
  {
  }

  lemma {:induction false} SymbolOfText(t: int)
    requires IsSymbolToken(t)
    ensures IsSymbol(Spelled(t, SymbolText(t)))
  {
  }

  lemma {:induction false} SymbolTextUnique(t: Spelled)
    ensures IsSymbol(t) <==> IsSymbolToken(t.id) && t.text == SymbolText(t.id)
  {
    if IsSymbol(t) {
      if |t.text| == 1 {
        OneCharacter(t.text[0]);
      } else if |t.text| == 2 {
        TwoCharacters(t.text[0], t.text[1]);
      } else {
        ThreeCharacters(t.text[0], t.text[1], t.text[2]);
      }
    } else if IsSymbolToken(t.id) {
      SymbolOfText(t.id);
    }
  }

  // ------------------------------------------------------------------------- keywords

  lemma {:induction false} EarlyKeyword(i: nat)
    requires i < 20
    ensures IsKeywordToken(Keyword(i).1) && KeywordName(Keyword(i).1) == Keyword(i).0
  {
  }

  lemma {:induction false} LateKeyword(i: nat)
    requires 20 <= i < KEYWORDS
    ensures IsKeywordToken(Keyword(i).1) && KeywordName(Keyword(i).1) == Keyword(i).0
  {
  }

  /** The lexer's keywords are names in the token list. */
  lemma {:induction false} KeywordNamed(i: nat)
    requires i < KEYWORDS
    ensures IsKeywordToken(Keyword(i).1) && KeywordName(Keyword(i).1) == Keyword(i).0
  {
    hide Keyword, KeywordName;
    if i < 20 {
      EarlyKeyword(i);
    } else {
      LateKeyword(i);
    }
  }

  /** Where the lexer tries the keyword of a token. */
  function PlaceOf(t: int): nat {
    match t
    case 54 => 0
    case 55 => 1
    case 56 => 2
    case 57 => 4
    case 58 => 5
    case 59 => 6
    case 60 => 7
    case 61 => 9
    case 62 => 10
    case 63 => 11
    case 64 => 12
    case 65 => 13
    case 66 => 15
    case 67 => 16
    case 68 => 17
    case 69 => 18
    case 70 => 19
    case 71 => 20
    case 72 => 23
    case 73 => 14
    case 74 => 22
    case 75 => 21
    case 76 => 3
    case 77 => 24
    case 78 => 8
    case 79 => 25
    case 80 => 26
    case 81 => 27
    case 82 => 28
    case 83 => 29
    case 84 => 30
    case 85 => 31
    case 86 => 32
    case 87 => 33
    case 88 => 34
    case 89 => 35
    case 90 => 36
    case 91 => 37
    case _ => 0
  }

  lemma {:induction false} KeywordListed(t: int)
    requires IsKeywordToken(t)
    ensures PlaceOf(t) < KEYWORDS && Keyword(PlaceOf(t)).1 == t
  {
  }

  /** Tells the names of keywords apart by their lengths and their first and last letters. */
  function Digest(s: string): int {
    if s == "" then 0 else 65536 * |s| + 256 * (s[0] as int) + (s[|s| - 1] as int)
  }

  function TokenOf(m: int): int {
    match m
    case 483699 => 54
    case 418147 => 55
    case 352875 => 56
    case 287589 => 57
    case 353140 => 58
    case 549733 => 59
    case 484468 => 60
    case 156783 => 61
    case 288101 => 62
    case 288109 => 63
    case 419182 => 64
    case 222834 => 65
    case 288355 => 66
    case 288623 => 67
    case 158054 => 68
    case 420212 => 69
    case 420197 => 70
    case 616805 => 71
    case 224887 => 72
    case 288357 => 73
    case 290149 => 74
    case 224366 => 75
    case 222064 => 76
    case 487525 => 77
    case 484453 => 78
    case 422510 => 79
    case 422758 => 80
    case 422755 => 81
    case 422772 => 82
    case 422760 => 83
    case 291941 => 84
    case 488550 => 85
    case 357742 => 86
    case 226930 => 87
    case 292452 => 88
    case 554597 => 89
    case 358245 => 90
    case 358756 => 91
    case _ => 0
  }

  lemma {:induction false} DigestOfEarly(t: int)
    requires TKN_ALIGNAS <= t <= TKN_INLINE
    ensures TokenOf(Digest(KeywordName(t))) == t
  {
  }

  lemma {:induction false} DigestOfMiddle(t: int)
    requires TKN_INLINE < t <= TKN_SIZEOF
    ensures TokenOf(Digest(KeywordName(t))) == t
  {
  }

  lemma {:induction false} DigestOfLate(t: int)
    requires TKN_SIZEOF < t <= TKN_YIELD
    ensures TokenOf(Digest(KeywordName(t))) == t
  {
  }

  lemma {:induction false} DigestOfName(t: int)
    requires IsKeywordToken(t)
    ensures TokenOf(Digest(KeywordName(t))) == t
  {
    hide TokenOf, Digest, KeywordName;
    if t <= TKN_INLINE {
      DigestOfEarly(t);
    } else if t <= TKN_SIZEOF {
      DigestOfMiddle(t);
    } else {
      DigestOfLate(t);
    }
  }

  lemma {:induction false} NamesOfKeywordsDiffer(t: int, u: int)
    requires IsKeywordToken(t) && IsKeywordToken(u) && KeywordName(t) == KeywordName(u)
    ensures t == u
  {
    hide *;
    DigestOfName(t);
    DigestOfName(u);
  }

  lemma {:induction false} AmongNamed(n: nat, w: string)
    requires n <= KEYWORDS
    ensures var t := KeywordAmong(n, w); t == TKN_IDENT || (IsKeywordToken(t) && KeywordName(t) == w)
    ensures forall i :: 0 <= i < n && Keyword(i).0 == w ==> KeywordAmong(n, w) != TKN_IDENT
  {
    hide Keyword, KeywordName;
    if n > 0 {
      KeywordNamed(n - 1);
      AmongNamed(n - 1, w);
    }
  }

  /** A word is the keyword with its name, if there is one, and else an identifier. */
  lemma {:induction false} WordMeans(w: string)
    ensures var t := WordToken(w); t == TKN_IDENT || (IsKeywordToken(t) && TokenName(t) == w)
    ensures forall t :: IsKeywordToken(t) && TokenName(t) == w ==> WordToken(w) == t
  {
    hide Keyword, KeywordName, KeywordAmong, PlaceOf;
    AmongNamed(KEYWORDS, w);
    forall t | IsKeywordToken(t) && KeywordName(t) == w
      ensures WordToken(w) == t
    {
      KeywordListed(t);
      KeywordNamed(PlaceOf(t));
      NamesOfKeywordsDiffer(t, WordToken(w));
    }
  }

  // ------------------------------------------------------------------- tokens in texts

  /** A token found is an inserted semicolon, or the token that stands at its base. */
  lemma {:induction false} FoundStands(b: string, end: nat, p: nat, last: int, base: nat)
    requires Terminated(b, end) && p <= end && NextToken(b, end, p, last, base).token != TKN_EOF
    ensures var f := NextToken(b, end, p, last, base);
      && p <= f.base < end
      && if IsWhitespace(b[f.base]) then b[f.base] == '\n' && f == Found(TKN_SEMICOLON, f.base, f.base + 1)
         else !StartsComment(b, end, f.base) && f == FoundAt(b, end, f.base)
    decreases end - p
  {
    if p < end {
      if IsWhitespace(b[p]) {
        if !(b[p] == '\n' && last in TERMINATORS) {
          FoundStands(b, end, p + 1, last, base);
        }
      } else if StartsComment(b, end, p) {
        FoundStands(b, end, CommentEnd(b, end, p), last, p);
      } else if IsGarbage(b[p]) && last != TKN_IDENT {
        FoundStands(b, end, p + 1, last, p);
      }
    }
  }

  /** A symbol found has the text of its token; the name in the token list is that text but
      for one token, whose text is == and whose name is that of the assignment. */
  lemma {:induction false} SymbolIsNamed(b: string, end: nat, p: nat, last: int, base: nat)
    requires Terminated(b, end) && p <= end && IsSymbolToken(NextToken(b, end, p, last, base).token)
    ensures var f := NextToken(b, end, p, last, base);
      && p <= f.base < f.ptr <= end
      && (b[f.base] == '\n' ==> f.token == TKN_SEMICOLON && f.ptr == f.base + 1)
      && (b[f.base] != '\n' ==> b[f.base..f.ptr] == SymbolText(f.token))
      && (b[f.base] != '\n' ==> (b[f.base..f.ptr] == TokenName(f.token) <==> f.token != TKN_EQ_OP))
  {
    FoundStands(b, end, p, last, base);
    var f := NextToken(b, end, p, last, base);
    if !IsWhitespace(b[f.base]) {
      SymbolStandsAt(b, end, f.base);
      EqualityIsMisnamed();
    }
  }

  lemma {:induction false} EqualityIsMisnamed()
    ensures TokenName(TKN_EQ_OP) == TokenName(TKN_ASSIGN) == "=" != SymbolText(TKN_EQ_OP)
  {
  }

  lemma {:induction false} SymbolStandsAt(b: string, end: nat, p: nat)
    requires Terminated(b, end) && p < end && IsSymbolToken(FoundAt(b, end, p).token)
    ensures var f := FoundAt(b, end, p); f.base == p < f.ptr <= end && b[p..f.ptr] == SymbolText(f.token)
  {
    var f := FoundAt(b, end, p);
    var n := SymbolLength(b, end, p);
    if IsGarbage(b[p]) {
    } else if n == 0 {
      hide KeywordName, SymbolName;
      if b[p] != '"' && !IsNumberStart(b[p]) {
        WordMeans(b[p..WordEnd(b, end, p + 1)]);
      }
    } else {
      SymbolAt(b, end, p, n);
    }
  }

  lemma {:induction false} SymbolAt(b: string, end: nat, p: nat, n: nat)
    requires p < end < |b| && n == SymbolLength(b, end, p) > 0
    ensures b[p..p + n] == SymbolText(SymbolToken(b, p, n))
  {
    var t := Spelled(SymbolToken(b, p, n), b[p..p + n]);
    assert forall i :: 0 <= i < n ==> t.text[i] == b[p + i];
    assert IsSymbol(t);
    SymbolTextUnique(t);
  }

  /** Every symbol with what does not continue it behind it is read as its token. */
  lemma {:induction false} SymbolIsRead(b: string, end: nat, p: nat, last: int, t: int)
    requires Terminated(b, end) && IsSymbolToken(t) && StandsAt(b, p, SymbolText(t)) && p + |SymbolText(t)| <= end
    ensures NextToken(b, end, p, last, 0) == Found(t, p, p + |SymbolText(t)|) <==>
      SymbolApart(SymbolText(t), b[p + |SymbolText(t)|..end])
  {
    hide SymbolText;
    var s := Spelled(t, SymbolText(t));
    SymbolTextUnique(s);
    ReadBackIffApart(b, end, p, last, s);
  }

  /** Nothing continues a symbol exactly when no longer symbol and no comment stands there. */
  lemma {:induction false} ApartByName(t: int, rest: string)
    requires IsSymbolToken(t)
    ensures var s := SymbolText(t) + rest;
      SymbolApart(SymbolText(t), rest) <==>
        && (forall u :: IsSymbolToken(u) && SymbolText(u) <= s ==> |SymbolText(u)| <= |SymbolText(t)|)
        && !("//" <= s) && !("/*" <= s)
  {
    var text, s := SymbolText(t), SymbolText(t) + rest;
    SymbolOfText(t);
    hide SymbolText, Symbol1, Symbol2, Symbol3;
    assert |text| >= 1;
    if SymbolApart(text, rest) {
      forall u | IsSymbolToken(u) && SymbolText(u) <= s
        ensures |SymbolText(u)| <= |text|
      {
        SymbolOfText(u);
      }
    } else {
      if |text| < 3 && |s| >= 3 && Symbol3(s[0], s[1], s[2]) != TKN_INVALID {
        ThreeCharacters(s[0], s[1], s[2]);
        NotMisnamed(Symbol3(s[0], s[1], s[2]));
        assert [s[0], s[1], s[2]] <= s;
      } else if |text| < 2 && |s| >= 2 && Symbol2(s[0], s[1]) != TKN_INVALID {
        TwoCharacters(s[0], s[1]);
        assert [s[0], s[1]] <= s;
      } else {
        assert [s[0], s[1]] <= s;
      }
    }
  }

  lemma {:induction false} NotMisnamed(t: int)
    requires t != TKN_EQ_OP
    ensures SymbolText(t) == TokenName(t)
  {
  }

  // ------------------------------------------------------- all tokens, by their texts

  predicate IsLetter(c: char) {
    'a' <= c <= 'z' || 'A' <= c <= 'Z'
  }

  predicate IsDigit(c: char) {
    '0' <= c <= '9'
  }

  /** Letters, digits and underscores, no digit first. */
  predicate IsWordText(s: string) {
    && s != "" && !IsDigit(s[0])
    && forall i :: 0 <= i < |s| ==> IsLetter(s[i]) || IsDigit(s[i]) || s[i] == '_'
  }

  /** A digit, then letters, digits, dots and separators. */
  predicate IsNumeral(s: string) {
    && s != "" && IsDigit(s[0])
    && forall i :: 0 <= i < |s| ==> IsLetter(s[i]) || IsDigit(s[i]) || s[i] == '.' || s[i] == '\''
  }

  ghost predicate IsKeywordName(s: string) {
    exists t :: IsKeywordToken(t) && TokenName(t) == s
  }

  /** The token of a text by the token list alone. */
  ghost predicate Named(t: Spelled) {
    || (IsSymbolToken(t.id) && t.text == SymbolText(t.id))
    || (IsWordText(t.text) && IsKeywordToken(t.id) && t.text == TokenName(t.id))
    || (IsWordText(t.text) && t.id == TKN_IDENT && !IsKeywordName(t.text))
    || (t.id == TKN_NUMBER_LITERAL && IsNumeral(t.text))
    || IsQuoted(t)
  }

  lemma {:induction false} WordTexts(s: string)
    ensures IsWordText(s) <==> s != "" && IsIdentStart(s[0]) && forall i :: 0 <= i < |s| ==> IsIdent(s[i])
  {
  }

  lemma {:induction false} Numerals(t: Spelled)
    ensures IsDigitLed(t) <==> t.id == TKN_NUMBER_LITERAL && IsNumeral(t.text)
  {
  }

  lemma {:induction false} WordIsNamed(t: Spelled)
    ensures IsWord(t) <==>
      IsWordText(t.text) &&
      ((IsKeywordToken(t.id) && t.text == TokenName(t.id)) || (t.id == TKN_IDENT && !IsKeywordName(t.text)))
  {
    WordMeans(t.text);
    WordTexts(t.text);
    hide WordToken, TokenName, IsWordText, IsIdent, IsIdentStart;
  }

  /** What the lexer's tables make of a text is what the token list says. */
  lemma {:induction false} WellSpelledIffNamed(t: Spelled)
    ensures WellSpelled(t) <==> Named(t)
  {
    SymbolTextUnique(t);
    WordIsNamed(t);
    Numerals(t);
    hide IsSymbol, SymbolText, TokenName, IsWord, IsWordText, IsNumeral, IsQuoted, IsDigitLed, IsKeywordName;
  }

  // ----------------------------------------------------------------- inserted semicolons

  /** The tokens that end a statement at the end of a line, by their texts. */
  predicate EndsStatement(t: Spelled) {
    || t.id == TKN_IDENT || t.id == TKN_NUMBER_LITERAL || t.id == TKN_STRING_LITERAL
    || t.text in ["break", "continue", "return", "void", "++", "--", ")", "]", "}"]
  }

  lemma {:induction false} SymbolsThatEnd(t: Spelled)
    requires IsSymbol(t)
    ensures t.id in TERMINATORS <==> EndsStatement(t)
  {
    SymbolTextUnique(t);
  }

  lemma {:induction false} KeywordsThatEnd(t: Spelled)
    requires IsKeywordToken(t.id) && t.text == KeywordName(t.id)
    ensures t.id in TERMINATORS <==> EndsStatement(t)
  {
  }

  lemma {:induction false} TerminatorsEnd(t: Spelled)
    requires WellSpelled(t)
    ensures t.id in TERMINATORS <==> EndsStatement(t)
  {
    if IsSymbol(t) {
      SymbolsThatEnd(t);
    } else if IsWord(t) {
      WordIsNamed(t);
      hide TokenName, IsKeywordName, IsWord, IsWordText, IsSymbol;
      if IsKeywordToken(t.id) {
        NameOfKeyword(t.id);
        KeywordsThatEnd(t);
      }
    }
  }

  lemma {:induction false} NameOfKeyword(t: int)
    requires IsKeywordToken(t)
    ensures TokenName(t) == KeywordName(t)
  {
  }

  lemma {:induction false} OneNewline(t: Spelled)
    requires WellSpelled(t)
    ensures GapsText([White('\n')]) == "\n" && GapsOk([White('\n')]) && Unstuck(t.id, [White('\n')])
    ensures Insertion(t.id, [White('\n')]) == if EndsStatement(t) then [INSERTED] else []
    ensures Apart(t, "\n" + "")
  {
    TerminatorsEnd(t);
    SpaceApart(t, "\n" + "");
    hide WellSpelled, EndsStatement, Apart;
  }

  lemma {:induction false} NothingElse()
    ensures GapsOk([]) && GapsText([]) == "" && PiecesOk([]) && PiecesText([]) == "" && Delivered([]) == []
  {
  }

  /** A token at the end of a line is read back, with a semicolon behind it if and only if it
      ends a statement. */
  lemma {:induction false} NewlineEnds(b: string, end: nat, t: Spelled)
    requires Terminated(b, end) && WellSpelled(t) && b[..end] == t.text + "\n"
    ensures Lexes(b, end, 0, TKN_SOF, if EndsStatement(t) then [t, INSERTED] else [t])
  {
    hide *;
    var newline := [White('\n')];
    OneNewline(t);
    NothingElse();
    ConsPiece(t, newline, []);
    var ps := [Piece(t, newline)] + [];
    assert "" + (t.text + ("\n" + "")) == t.text + "\n";
    assert [t] + ([INSERTED] + []) == [t, INSERTED] && [t] + ([] + []) == [t];
    ReadBackWithGaps(b, end, [], ps);
  }

  // ---------------------------------------------------- strings and comments left open

  /** From p on the string is closed within the text. */
  ghost predicate ClosedFrom(b: string, end: nat, p: nat)
    requires p <= end < |b|
  {
    exists q :: p <= q <= end && Closes(b[p..q])
  }

  lemma {:induction false} StringEndCloses(b: string, end: nat, p: nat)
    requires p <= end < |b| && StringEnd(b, end, p) <= end
    ensures Closes(b[p..StringEnd(b, end, p)])
    decreases end - p
  {
    var q := StringEnd(b, end, p);
    var s := b[p..q];
    assert s[0] == b[p];
    if b[p] == '\\' {
      StringEndCloses(b, end, p + 2);
      assert s[2..] == b[p + 2..q];
    } else if b[p] != '"' {
      StringEndCloses(b, end, p + 1);
      assert s[1..] == b[p + 1..q];
    }
  }

  lemma {:induction false} ClosedIff(b: string, end: nat, p: nat)
    requires p <= end < |b|
    ensures StringEnd(b, end, p) <= end <==> ClosedFrom(b, end, p)
  {
    if StringEnd(b, end, p) <= end {
      StringEndCloses(b, end, p);
    }
    if q :| p <= q <= end && Closes(b[p..q]) {
      assert StandsAt(b, p, b[p..q]);
      StringEndIs(b, end, p, b[p..q]);
    }
  }

  /** An error is found exactly where a quote opens a string that is not closed, and it
      leaves nothing of the text. */
  lemma {:induction false} InvalidIffOpen(b: string, end: nat, p: nat, last: int, base: nat)
    requires Terminated(b, end) && p <= end && NextToken(b, end, p, last, base).token != TKN_EOF
    ensures var f := NextToken(b, end, p, last, base);
      && f.base < end && (f.token == TKN_INVALID <==> b[f.base] == '"' && !ClosedFrom(b, end, f.base + 1))
      && (f.token == TKN_INVALID ==> f.ptr == end)
  {
    FoundStands(b, end, p, last, base);
    var f := NextToken(b, end, p, last, base);
    if !IsWhitespace(b[f.base]) {
      OpenAt(b, end, f.base);
    }
  }

  lemma {:induction false} OpenAt(b: string, end: nat, p: nat)
    requires Terminated(b, end) && p < end && !IsWhitespace(b[p])
    ensures FoundAt(b, end, p).token == TKN_INVALID <==> b[p] == '"' && !ClosedFrom(b, end, p + 1)
    ensures FoundAt(b, end, p).token == TKN_INVALID ==> FoundAt(b, end, p).ptr == end
  {
    var n := SymbolLength(b, end, p);
    ClosedIff(b, end, p + 1);
    hide ClosedFrom, SymbolText;
    if n > 0 {
      SymbolAt(b, end, p, n);
    } else if b[p] != '"' && !IsNumberStart(b[p]) {
      WordMeans(b[p..WordEnd(b, end, p + 1)]);
    }
  }

  /** A comment without its end reaches to the end of the text. */
  lemma {:induction false} OpenCommentEnds(b: string, end: nat, p: nat, last: int, base: nat)
    requires Terminated(b, end) && p + 2 <= end && b[p] == '/'
    requires
      || (b[p + 1] == '/' && forall i :: p + 2 <= i < end ==> b[i] != '\n')
      || (b[p + 1] == '*' && forall i :: p + 2 <= i < end - 1 ==> !(b[i] == '*' && b[i + 1] == '/'))
    ensures NextToken(b, end, p, last, base).token == TKN_EOF
  {
    if b[p + 1] == '/' {
      OpenLine(b, end, p + 2);
    } else {
      OpenBlock(b, end, p + 2);
    }
  }

  lemma {:induction false} OpenLine(b: string, end: nat, p: nat)
    requires p <= end < |b| && forall i :: p <= i < end ==> b[i] != '\n'
    ensures LineEnd(b, end, p) == end
    decreases end - p
  {
    if p < end {
      OpenLine(b, end, p + 1);
    }
  }

  lemma {:induction false} OpenBlock(b: string, end: nat, p: nat)
    requires p <= end < |b| && forall i :: p <= i < end - 1 ==> !(b[i] == '*' && b[i + 1] == '/')
    ensures BlockEnd(b, end, p) == end
    decreases end - p
  {
    if p < end {
      OpenBlock(b, end, p + 1);
    }
  }
}
