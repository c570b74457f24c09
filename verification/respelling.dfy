/** Spelling tokens and reading them back: the lexer delivers the spelled tokens, and a
    semicolon for a newline exactly where the token before it can end a statement. */
module Respelling {
  import opened TokenSets
  import opened Tokens
  import opened Scanning

  /** A token with its text. */
  datatype Spelled = Spelled(id: int, text: string)

  predicate IsSymbol(t: Spelled) {
    && t.id != TKN_INVALID
    && ((|t.text| == 1 && Symbol1(t.text[0]) == t.id)
        || (|t.text| == 2 && Symbol2(t.text[0], t.text[1]) == t.id)
        || (|t.text| == 3 && Symbol3(t.text[0], t.text[1], t.text[2]) == t.id))
  }

  /** An identifier, or a keyword with its own token. */
  predicate IsWord(t: Spelled) {
    && t.text != "" && IsIdentStart(t.text[0]) && t.id == WordToken(t.text)
    && forall i :: 0 <= i < |t.text| ==> IsIdent(t.text[i])
  }

  predicate IsDigitLed(t: Spelled) {
    && t.id == TKN_NUMBER_LITERAL && t.text != "" && '0' <= t.text[0] <= '9'
    && forall i :: 0 <= i < |t.text| ==> IsNumber(t.text[i])
  }

  /** The text ends with the only quote that no backslash escapes. */
  predicate Closes(s: string) {
    if s == "" then false
    else if s[0] == '"' then |s| == 1
    else if s[0] != '\\' then Closes(s[1..])
    else |s| > 1 && Closes(s[2..])
  }

  predicate IsQuoted(t: Spelled) {
    t.id == TKN_STRING_LITERAL && t.text != "" && t.text[0] == '"' && Closes(t.text[1..])
  }

  predicate WellSpelled(t: Spelled) {
    IsSymbol(t) || IsWord(t) || IsDigitLed(t) || IsQuoted(t)
  }

  /** What follows does not continue the symbol, nor make it a comment. */
  predicate SymbolApart(text: string, rest: string) {
    var s := text + rest;
    && (|text| < 3 && |s| >= 3 ==> Symbol3(s[0], s[1], s[2]) == TKN_INVALID)
    && (|text| < 2 && |s| >= 2 ==> Symbol2(s[0], s[1]) == TKN_INVALID)
    && (|s| >= 2 && s[0] == '/' ==> s[1] != '/' && s[1] != '*')
  }

  /** What follows does not continue the token. */
  predicate Apart(t: Spelled, rest: string) {
    if IsSymbol(t) then SymbolApart(t.text, rest)
    else if IsWord(t) then rest == "" || !IsIdent(rest[0])
    else if IsDigitLed(t) then rest == "" || !IsNumber(rest[0])
    else true
  }

  // ------------------------------------------------------------------------------- gaps

  /** What may stand between tokens. */
  datatype Gap = White(c: char) | Line(comment: string) | Block(comment: string) | Stray(c: char)

  predicate GapOk(g: Gap) {
    match g
    case White(c) => c <= ' '
    case Line(s) => '\n' !in s
    case Block(s) => forall i :: 0 <= i < |s| - 1 ==> !(s[i] == '*' && s[i + 1] == '/')
    case Stray(c) => IsGarbage(c)
  }

  function GapText(g: Gap): string {
    match g
    case White(c) => [c]
    case Line(s) => "//" + s + "\n"
    case Block(s) => "/*" + s + "*/"
    case Stray(c) => [c]
  }

  function GapsText(gs: seq<Gap>): string {
    if gs == [] then "" else GapText(gs[0]) + GapsText(gs[1..])
  }

  predicate GapsOk(gs: seq<Gap>) {
    forall g :: g in gs ==> GapOk(g)
  }

  /** A newline in whitespace position; the one that ends a line comment is not. */
  predicate HasNewline(gs: seq<Gap>) {
    White('\n') in gs
  }

  /** After an identifier, no character that begins nothing comes before a newline. */
  predicate Unstuck(last: int, gs: seq<Gap>) {
    last == TKN_IDENT ==> forall i :: 0 <= i < |gs| && gs[i].Stray? ==> White('\n') in gs[..i]
  }

  /** A token and what stands between it and the next one. */
  datatype Piece = Piece(token: Spelled, gaps: seq<Gap>)

  predicate PiecesOk(ps: seq<Piece>) {
    ps != [] ==>
      && WellSpelled(ps[0].token) && GapsOk(ps[0].gaps) && PiecesOk(ps[1..])
      && Apart(ps[0].token, GapsText(ps[0].gaps) + PiecesText(ps[1..])) && Unstuck(ps[0].token.id, ps[0].gaps)
  }

  function PiecesText(ps: seq<Piece>): string {
    if ps == [] then "" else ps[0].token.text + (GapsText(ps[0].gaps) + PiecesText(ps[1..]))
  }

  // ----------------------------------------------------------------------------- lexing

  /** From position p on, after token `last`, the lexer delivers exactly these tokens. */
  predicate Lexes(b: string, end: nat, p: nat, last: int, ts: seq<Spelled>)
    requires Terminated(b, end) && p <= end
    decreases |ts|
  {
    var f := NextToken(b, end, p, last, 0);
    if ts == [] then f.token == TKN_EOF && f.ptr == end
    else
      && f.token == ts[0].id && ts[0].id != TKN_INVALID && ts[0].id != TKN_EOF
      && f.base <= f.ptr && b[f.base..f.ptr] == ts[0].text
      && Lexes(b, end, f.ptr, f.token, ts[1..])
  }

  const INSERTED: Spelled := Spelled(TKN_SEMICOLON, "\n")

  /** The semicolon inserted in the gaps after token `last`. */
  function Insertion(last: int, gs: seq<Gap>): seq<Spelled> {
    if last in TERMINATORS && HasNewline(gs) then [INSERTED] else []
  }

  /** The tokens of the pieces, with the inserted semicolons. */
  function Delivered(ps: seq<Piece>): seq<Spelled> {
    if ps == [] then [] else [ps[0].token] + (Insertion(ps[0].token.id, ps[0].gaps) + Delivered(ps[1..]))
  }

  /** Only at the end does it matter where the lexer last began a token. */
  lemma {:induction false} BaseAtEnd(b: string, end: nat, p: nat, last: int, base: nat, base': nat)
    requires Terminated(b, end) && p <= end
    ensures var f, f' := NextToken(b, end, p, last, base), NextToken(b, end, p, last, base');
      f.token == f'.token && f.ptr == f'.ptr && (f == f' || (f.token == TKN_EOF && f.ptr == end))
    decreases end - p
  {
    if p < end && IsWhitespace(b[p]) {
      BaseAtEnd(b, end, p + 1, last, base, base');
    }
  }

  /** Where the next token is the same, so is everything that follows. */
  lemma {:induction false} LexesFrom(b: string, end: nat, p: nat, q: nat, last: int, base: nat, ts: seq<Spelled>)
    requires Terminated(b, end) && p <= q <= end && Lexes(b, end, q, last, ts)
    requires NextToken(b, end, p, last, 0) == NextToken(b, end, q, last, base)
    ensures Lexes(b, end, p, last, ts)
  {
    BaseAtEnd(b, end, q, last, base, 0);
  }

  // -------------------------------------------------------------------------- over gaps

  predicate StandsAt(b: string, p: nat, s: string) {
    p + |s| <= |b| && b[p..p + |s|] == s
  }

  lemma {:induction false} StandsParts(b: string, p: nat, s: string, t: string)
    requires StandsAt(b, p, s + t)
    ensures StandsAt(b, p, s) && StandsAt(b, p + |s|, t)
  {
    assert (s + t)[..|s|] == s && (s + t)[|s|..] == t;
    assert b[p..p + |s|] == b[p..p + |s + t|][..|s|];
    assert b[p + |s|..p + |s + t|] == b[p..p + |s + t|][|s|..];
  }

  lemma {:induction false} CharAt(b: string, p: nat, s: string, i: nat)
    requires StandsAt(b, p, s) && i < |s|
    ensures b[p + i] == s[i]
  {
    assert b[p..p + |s|][i] == s[i];
  }

  lemma {:induction false} LineEndIs(b: string, end: nat, p: nat, q: nat)
    requires p <= q < end < |b| && b[q] == '\n' && forall i :: p <= i < q ==> b[i] != '\n'
    ensures LineEnd(b, end, p) == q + 1
    decreases q - p
  {
    if p < q {
      LineEndIs(b, end, p + 1, q);
    }
  }

  lemma {:induction false} BlockEndIs(b: string, end: nat, p: nat, q: nat)
    requires p <= q && q + 1 < end < |b| && b[q] == '*' && b[q + 1] == '/'
    requires forall i :: p <= i < q ==> !(b[i] == '*' && b[i + 1] == '/')
    ensures BlockEnd(b, end, p) == q + 2
    decreases q - p
  {
    if p < q {
      BlockEndIs(b, end, p + 1, q);
    }
  }

  /** A line comment is skipped together with its newline, which inserts nothing. */
  lemma {:induction false} LineSkipped(b: string, end: nat, p: nat, s: string, last: int)
    requires Terminated(b, end) && StandsAt(b, p, "//" + s + "\n") && p + |s| + 3 <= end && '\n' !in s
    ensures NextToken(b, end, p, last, 0) == NextToken(b, end, p + |s| + 3, last, p)
  {
    var t := "//" + s + "\n";
    CharAt(b, p, t, 0);
    CharAt(b, p, t, 1);
    CharAt(b, p, t, |s| + 2);
    forall i | p + 2 <= i < p + 2 + |s|
      ensures b[i] != '\n'
    {
      CharAt(b, p, t, i - p);
      assert t[i - p] == s[i - p - 2];
    }
    LineEndIs(b, end, p + 2, p + 2 + |s|);
  }

  lemma {:induction false} BlockSkipped(b: string, end: nat, p: nat, s: string, last: int)
    requires Terminated(b, end) && StandsAt(b, p, "/*" + s + "*/") && p + |s| + 4 <= end && GapOk(Block(s))
    ensures NextToken(b, end, p, last, 0) == NextToken(b, end, p + |s| + 4, last, p)
  {
    var t := "/*" + s + "*/";
    CharAt(b, p, t, 0);
    CharAt(b, p, t, 1);
    CharAt(b, p, t, |s| + 2);
    CharAt(b, p, t, |s| + 3);
    forall i | p + 2 <= i < p + 2 + |s|
      ensures !(b[i] == '*' && b[i + 1] == '/')
    {
      CharAt(b, p, t, i - p);
      CharAt(b, p, t, i - p + 1);
      assert t[i - p] == s[i - p - 2];
      assert i + 1 < p + 2 + |s| ==> t[i - p + 1] == s[i - p - 1];
      assert i + 1 == p + 2 + |s| ==> t[i - p + 1] == '*';
    }
    BlockEndIs(b, end, p + 2, p + 2 + |s|);
  }

  lemma {:induction false} LexesCons(b: string, end: nat, p: nat, last: int, base: nat, q: nat, t: Spelled,
          ts: seq<Spelled>)
    requires Terminated(b, end) && p <= end && base <= q <= end && NextToken(b, end, p, last, 0) == Found(t.id, base, q)
    requires b[base..q] == t.text && t.id != TKN_INVALID && t.id != TKN_EOF && Lexes(b, end, q, t.id, ts)
    ensures Lexes(b, end, p, last, [t] + ts)
  {
    assert ([t] + ts)[1..] == ts;
  }

  lemma {:induction false} NewlineInserts(b: string, end: nat, p: nat, last: int, ts: seq<Spelled>)
    requires Terminated(b, end) && p < end && b[p] == '\n' && last in TERMINATORS
    requires Lexes(b, end, p + 1, TKN_SEMICOLON, ts)
    ensures Lexes(b, end, p, last, [INSERTED] + ts)
  {
    hide Lexes;
    LexesCons(b, end, p, last, p, p + 1, INSERTED, ts);
  }

  lemma {:induction false} InsertionOfRest(last: int, gs: seq<Gap>)
    requires gs != []
    ensures gs[0] == White('\n') && last in TERMINATORS ==> Insertion(last, gs) == [INSERTED]
    ensures !(gs[0] == White('\n') && last in TERMINATORS) ==> Insertion(last, gs) == Insertion(last, gs[1..])
    ensures Insertion(TKN_SEMICOLON, gs[1..]) == []
  {
    assert gs == [gs[0]] + gs[1..];
  }

  /** Gaps deliver nothing but the semicolon they insert. */
  lemma {:induction false} GapsLexed(b: string, end: nat, p: nat, last: int, gs: seq<Gap>, ts: seq<Spelled>)
    requires Terminated(b, end) && GapsOk(gs) && StandsAt(b, p, GapsText(gs)) && p + |GapsText(gs)| <= end
    requires Unstuck(last, gs)
    requires Lexes(b, end, p + |GapsText(gs)|, if Insertion(last, gs) == [] then last else TKN_SEMICOLON, ts)
    ensures Lexes(b, end, p, last, Insertion(last, gs) + ts)
    decreases |gs|
  {
    hide *;
    NothingInserted(last, ts);
    if gs != [] {
      GapParts(b, p, gs);
      InsertionOfRest(last, gs);
      UnstuckRest(last, gs);
      var g, rest := gs[0], gs[1..];
      var q := p + |GapText(g)|;
      if g == White('\n') && last in TERMINATORS {
        NewlineStands(b, p);
        GapsLexed(b, end, q, TKN_SEMICOLON, rest, ts);
        NewlineInserts(b, end, p, last, ts);
      } else {
        GapsLexed(b, end, q, last, rest, ts);
        GapSkipped(b, end, p, last, g);
        LexesFrom(b, end, p, q, last, if g.White? then 0 else p, Insertion(last, gs) + ts);
      }
    }
  }

  lemma {:induction false} UnstuckRest(last: int, gs: seq<Gap>)
    requires gs != [] && Unstuck(last, gs)
    ensures Unstuck(TKN_SEMICOLON, gs[1..])
    ensures !(gs[0] == White('\n') && last in TERMINATORS) ==> Unstuck(last, gs[1..])
    ensures gs[0].Stray? ==> last != TKN_IDENT
  {
    if last == TKN_IDENT {
      forall i | 0 <= i < |gs[1..]| && gs[1..][i].Stray? && gs[0] != White('\n')
        ensures White('\n') in gs[1..][..i]
      {
        assert gs[i + 1].Stray? && gs[..i + 1] == [gs[0]] + gs[1..][..i];
      }
    }
  }

  lemma {:induction false} NothingInserted(last: int, ts: seq<Spelled>)
    ensures GapsText([]) == "" && Insertion(last, []) == [] && [] + ts == ts
  {
  }

  lemma {:induction false} NewlineStands(b: string, p: nat)
    ensures GapText(White('\n')) == "\n" && (StandsAt(b, p, "\n") ==> p < |b| && b[p] == '\n')
  {
    if StandsAt(b, p, "\n") {
      CharAt(b, p, "\n", 0);
    }
  }

  lemma {:induction false} GapParts(b: string, p: nat, gs: seq<Gap>)
    requires gs != [] && StandsAt(b, p, GapsText(gs)) && GapsOk(gs)
    ensures GapOk(gs[0]) && GapsOk(gs[1..]) && |GapText(gs[0])| > 0
    ensures StandsAt(b, p, GapText(gs[0])) && StandsAt(b, p + |GapText(gs[0])|, GapsText(gs[1..]))
    ensures |GapsText(gs)| == |GapText(gs[0])| + |GapsText(gs[1..])|
  {
    assert GapText(gs[0]) != "";
    StandsParts(b, p, GapText(gs[0]), GapsText(gs[1..]));
    hide StandsAt, GapText;
  }

  lemma {:induction false} GapSkipped(b: string, end: nat, p: nat, last: int, g: Gap)
    requires Terminated(b, end) && GapOk(g) && StandsAt(b, p, GapText(g)) && p + |GapText(g)| <= end
    requires !(g == White('\n') && last in TERMINATORS) && (g.Stray? ==> last != TKN_IDENT)
    ensures NextToken(b, end, p, last, 0) == NextToken(b, end, p + |GapText(g)|, last, if g.White? then 0 else p)
  {
    match g {
      case White(c) => CharAt(b, p, GapText(g), 0);
      case Line(s) => LineSkipped(b, end, p, s, last);
      case Block(s) => BlockSkipped(b, end, p, s, last);
      case Stray(c) => CharAt(b, p, GapText(g), 0);
    }
  }

  // ------------------------------------------------------------------------ over tokens

  lemma {:induction false} WordEndIs(b: string, end: nat, p: nat, q: nat)
    requires Terminated(b, end) && p <= q <= end && !IsIdent(b[q]) && forall i :: p <= i < q ==> IsIdent(b[i])
    ensures WordEnd(b, end, p) == q
    decreases q - p
  {
    if p < q {
      WordEndIs(b, end, p + 1, q);
    }
  }

  lemma {:induction false} NumberEndIs(b: string, end: nat, p: nat, q: nat)
    requires Terminated(b, end) && p <= q <= end && !IsNumber(b[q]) && forall i :: p <= i < q ==> IsNumber(b[i])
    ensures NumberEnd(b, end, p) == q
    decreases q - p
  {
    if p < q {
      NumberEndIs(b, end, p + 1, q);
    }
  }

  lemma {:induction false} StringEndIs(b: string, end: nat, p: nat, s: string)
    requires end < |b| && StandsAt(b, p, s) && p + |s| <= end && Closes(s)
    ensures StringEnd(b, end, p) == p + |s|
    decreases |s|
  {
    CharAt(b, p, s, 0);
    if s[0] == '\\' {
      StandsParts(b, p, s[..2], s[2..]);
      StringEndIs(b, end, p + 2, s[2..]);
    } else if s[0] != '"' {
      StandsParts(b, p, s[..1], s[1..]);
      StringEndIs(b, end, p + 1, s[1..]);
    }
  }

  /** The text of the token stands at p, and what follows does not continue it. */
  predicate Ends(b: string, end: nat, p: nat, t: Spelled) {
    StandsAt(b, p, t.text) && p + |t.text| <= end < |b| && Apart(t, b[p + |t.text|..end])
  }

  lemma {:induction false} SymbolLexed(b: string, end: nat, p: nat, last: int, t: Spelled)
    requires Terminated(b, end) && IsSymbol(t) && Ends(b, end, p, t)
    ensures NextToken(b, end, p, last, 0) == Found(t.id, p, p + |t.text|)
  {
    SymbolStands(b, end, p, t);
    SymbolBegins(t);
    hide Symbol1, Symbol2, Symbol3, SymbolLength;
  }

  /** The symbol is the longest one, and no comment begins. */
  lemma {:induction false} SymbolStands(b: string, end: nat, p: nat, t: Spelled)
    requires IsSymbol(t) && Ends(b, end, p, t)
    ensures p < end && b[p] == t.text[0]
    ensures SymbolLength(b, end, p) == |t.text| && SymbolToken(b, p, |t.text|) == t.id && !StartsComment(b, end, p)
  {
    var q := p + |t.text|;
    var s := t.text + b[q..end];
    assert s == b[p..end] by {
      assert b[p..end] == b[p..q] + b[q..end];
    }
    assert forall i :: 0 <= i < |s| ==> s[i] == b[p + i];
    assert forall i :: 0 <= i < |t.text| ==> t.text[i] == s[i];
  }

  lemma {:induction false} SymbolBegins(t: Spelled)
    requires IsSymbol(t)
    ensures !IsWhitespace(t.text[0]) && !IsGarbage(t.text[0])
    ensures t.text[0] == '/' && |t.text| > 1 ==> t.text[1] == '='
  {
  }

  /** No symbol, string or number begins like a word. */
  lemma {:induction false} WordBegins(b: string, end: nat, p: nat)
    requires p < end < |b| && IsIdentStart(b[p])
    ensures SymbolLength(b, end, p) == 0 && !IsNumberStart(b[p]) && b[p] != '"' && !IsGarbage(b[p])
    ensures !IsWhitespace(b[p]) && !StartsComment(b, end, p)
  {
  }

  lemma {:induction false} DigitBegins(b: string, end: nat, p: nat)
    requires p < end < |b| && '0' <= b[p] <= '9'
    ensures SymbolLength(b, end, p) == 0 && IsNumberStart(b[p]) && b[p] != '"' && !IsGarbage(b[p])
    ensures !IsWhitespace(b[p]) && !StartsComment(b, end, p)
  {
  }

  lemma {:induction false} NotASymbol(t: Spelled)
    requires IsWord(t) || IsDigitLed(t) || IsQuoted(t)
    ensures !IsSymbol(t) && (IsDigitLed(t) ==> !IsWord(t)) && (IsQuoted(t) ==> !IsWord(t) && !IsDigitLed(t))
  {
  }

  lemma {:induction false} WordLexed(b: string, end: nat, p: nat, last: int, t: Spelled)
    requires Terminated(b, end) && IsWord(t) && Ends(b, end, p, t)
    ensures NextToken(b, end, p, last, 0) == Found(t.id, p, p + |t.text|)
  {
    var q := p + |t.text|;
    NotASymbol(t);
    assert q < end ==> b[q..end][0] == b[q];
    forall i | p <= i < q
      ensures IsIdent(b[i])
    {
      CharAt(b, p, t.text, i - p);
    }
    CharAt(b, p, t.text, 0);
    WordBegins(b, end, p);
    hide WordToken, SymbolLength, Symbol1, IsGarbage;
    WordEndIs(b, end, p + 1, q);
  }

  lemma {:induction false} NumberLexed(b: string, end: nat, p: nat, last: int, t: Spelled)
    requires Terminated(b, end) && IsDigitLed(t) && Ends(b, end, p, t)
    ensures NextToken(b, end, p, last, 0) == Found(t.id, p, p + |t.text|)
  {
    var q := p + |t.text|;
    NotASymbol(t);
    assert q < end ==> b[q..end][0] == b[q];
    forall i | p <= i < q
      ensures IsNumber(b[i])
    {
      CharAt(b, p, t.text, i - p);
    }
    CharAt(b, p, t.text, 0);
    DigitBegins(b, end, p);
    hide SymbolLength, Symbol1, IsGarbage;
    NumberEndIs(b, end, p + 1, q);
  }

  lemma {:induction false} QuotedLexed(b: string, end: nat, p: nat, last: int, t: Spelled)
    requires Terminated(b, end) && IsQuoted(t) && Ends(b, end, p, t)
    ensures NextToken(b, end, p, last, 0) == Found(t.id, p, p + |t.text|)
  {
    CharAt(b, p, t.text, 0);
    assert SymbolLength(b, end, p) == 0;
    assert t.text == t.text[..1] + t.text[1..];
    StandsParts(b, p, t.text[..1], t.text[1..]);
    StringEndIs(b, end, p + 1, t.text[1..]);
  }

  lemma {:induction false} TokenLexed(b: string, end: nat, p: nat, last: int, t: Spelled)
    requires Terminated(b, end) && WellSpelled(t) && Ends(b, end, p, t)
    ensures NextToken(b, end, p, last, 0) == Found(t.id, p, p + |t.text|)
  {
    if IsSymbol(t) {
      SymbolLexed(b, end, p, last, t);
    } else if IsWord(t) {
      WordLexed(b, end, p, last, t);
    } else if IsDigitLed(t) {
      NumberLexed(b, end, p, last, t);
    } else {
      QuotedLexed(b, end, p, last, t);
    }
  }

  /** A comment is never a token. */
  lemma {:induction false} CommentIsNoToken(b: string, end: nat, p: nat, last: int, t: Spelled)
    requires Terminated(b, end) && p < end && StartsComment(b, end, p) && WellSpelled(t)
    ensures NextToken(b, end, p, last, 0) != Found(t.id, p, p + |t.text|)
  {
    SpelledIsToken(t);
    var q := CommentEnd(b, end, p);
    if NextToken(b, end, q, last, p).token != TKN_EOF {
      EmptyIffStale(b, end, q, last, p);
    }
    CommentBegins(b, end, p);
    hide CommentEnd, StartsComment;
  }

  lemma {:induction false} CommentBegins(b: string, end: nat, p: nat)
    requires Terminated(b, end) && p < end && StartsComment(b, end, p)
    ensures forall last, base :: NextToken(b, end, p, last, base) == NextToken(b, end, CommentEnd(b, end, p), last, p)
  {
  }

  lemma {:induction false} LongerSymbol(b: string, end: nat, p: nat, last: int, t: Spelled)
    requires Terminated(b, end) && IsSymbol(t) && StandsAt(b, p, t.text) && p + |t.text| <= end
    requires !SymbolApart(t.text, b[p + |t.text|..end])
    ensures NextToken(b, end, p, last, 0) != Found(t.id, p, p + |t.text|)
  {
    var q := p + |t.text|;
    var s := t.text + b[q..end];
    assert s == b[p..end] by {
      assert b[p..end] == b[p..q] + b[q..end];
    }
    assert forall i :: 0 <= i < |s| ==> s[i] == b[p + i];
    assert s[0] == t.text[0];
    SymbolBegins(t);
    if StartsComment(b, end, p) {
      CommentIsNoToken(b, end, p, last, t);
    } else {
      assert SymbolLength(b, end, p) > |t.text|;
      hide Symbol1, Symbol2, Symbol3, SymbolLength;
    }
  }

  /** A token is read back where it stands if and only if what follows does not continue it. */
  lemma {:induction false} ReadBackIffApart(b: string, end: nat, p: nat, last: int, t: Spelled)
    requires Terminated(b, end) && WellSpelled(t) && StandsAt(b, p, t.text) && p + |t.text| <= end
    ensures NextToken(b, end, p, last, 0) == Found(t.id, p, p + |t.text|) <==> Apart(t, b[p + |t.text|..end])
  {
    var q := p + |t.text|;
    if Apart(t, b[q..end]) {
      TokenLexed(b, end, p, last, t);
    } else if IsSymbol(t) {
      LongerSymbol(b, end, p, last, t);
    } else {
      assert b[q..end][0] == b[q];
      CharAt(b, p, t.text, 0);
      hide SymbolLength, Symbol1, IsGarbage, WordToken;
      if IsWord(t) {
        WordBegins(b, end, p);
      } else {
        NotASymbol(t);
        DigitBegins(b, end, p);
      }
    }
  }

  lemma {:induction false} KeywordIsToken(n: nat, word: string)
    requires n <= KEYWORDS
    ensures KeywordAmong(n, word) > TKN_EOF
  {
    if n > 0 {
      assert Keyword(n - 1).1 > TKN_EOF;
      KeywordIsToken(n - 1, word);
    }
  }

  lemma {:induction false} SpelledIsToken(t: Spelled)
    requires WellSpelled(t)
    ensures t.id != TKN_INVALID && t.id != TKN_EOF
  {
    if IsWord(t) {
      KeywordIsToken(KEYWORDS, t.text);
    }
  }

  // ------------------------------------------------------------------------- round trip

  lemma {:induction false} PiecesTextParts(ps: seq<Piece>)
    requires ps != []
    ensures PiecesText(ps) == ps[0].token.text + (GapsText(ps[0].gaps) + PiecesText(ps[1..]))
  {
  }

  lemma {:induction false} PieceParts(b: string, p: nat, ps: seq<Piece>)
    requires ps != [] && StandsAt(b, p, PiecesText(ps))
    ensures var t, gs := ps[0].token.text, ps[0].gaps;
      && StandsAt(b, p, t) && StandsAt(b, p + |t|, GapsText(gs))
      && StandsAt(b, p + |t| + |GapsText(gs)|, PiecesText(ps[1..]))
      && |PiecesText(ps)| == |t| + |GapsText(gs)| + |PiecesText(ps[1..])|
  {
    hide *;
    var t, gs := ps[0].token.text, ps[0].gaps;
    PiecesTextParts(ps);
    StandsParts(b, p, t, GapsText(gs) + PiecesText(ps[1..]));
    StandsParts(b, p + |t|, GapsText(gs), PiecesText(ps[1..]));
  }

  lemma {:induction false} PieceEnds(b: string, end: nat, p: nat, ps: seq<Piece>)
    requires ps != [] && PiecesOk(ps) && StandsAt(b, p, PiecesText(ps)) && p + |PiecesText(ps)| == end < |b|
    ensures Ends(b, end, p, ps[0].token)
  {
    var t, rest := ps[0].token, GapsText(ps[0].gaps) + PiecesText(ps[1..]);
    StandsParts(b, p, t.text, rest);
    assert b[p + |t.text|..end] == rest;
  }

  lemma {:induction false} PiecesLexed(b: string, end: nat, p: nat, last: int, ps: seq<Piece>)
    requires Terminated(b, end) && PiecesOk(ps) && StandsAt(b, p, PiecesText(ps)) && p + |PiecesText(ps)| == end
    ensures Lexes(b, end, p, last, Delivered(ps))
    decreases |ps|
  {
    hide *;
    if ps == [] {
      NoPieces(b, end, last);
    } else {
      var t, gs, rest := ps[0].token, ps[0].gaps, ps[1..];
      var q := p + |t.text|;
      PieceParts(b, p, ps);
      PieceFacts(ps);
      TextAt(b, p, t.text);
      EndInside(b, end);
      PieceEnds(b, end, p, ps);
      TokenLexed(b, end, p, last, t);
      PiecesLexed(b, end, q + |GapsText(gs)|, if Insertion(t.id, gs) == [] then t.id else TKN_SEMICOLON, rest);
      GapsLexed(b, end, q, t.id, gs, Delivered(rest));
      LexesCons(b, end, p, last, p, q, t, Insertion(t.id, gs) + Delivered(rest));
    }
  }

  lemma {:induction false} EndInside(b: string, end: nat)
    requires Terminated(b, end)
    ensures end < |b|
  {
  }

  lemma {:induction false} NoPieces(b: string, end: nat, last: int)
    requires Terminated(b, end)
    ensures PiecesText([]) == "" && Delivered([]) == [] && Lexes(b, end, end, last, [])
  {
  }

  lemma {:induction false} PieceFacts(ps: seq<Piece>)
    requires ps != [] && PiecesOk(ps)
    ensures WellSpelled(ps[0].token) && ps[0].token.id != TKN_INVALID && ps[0].token.id != TKN_EOF
    ensures GapsOk(ps[0].gaps) && Unstuck(ps[0].token.id, ps[0].gaps) && PiecesOk(ps[1..])
    ensures Delivered(ps) == [ps[0].token] + (Insertion(ps[0].token.id, ps[0].gaps) + Delivered(ps[1..]))
  {
    SpelledIsToken(ps[0].token);
  }

  lemma {:induction false} TextAt(b: string, p: nat, s: string)
    requires StandsAt(b, p, s)
    ensures p + |s| <= |b| && b[p..p + |s|] == s
  {
  }

  /** Spelling any tokens with any whitespace and comments between them, and before the
      first, and reading the text to its end delivers the same tokens, and a semicolon
      after each that can end a statement and has a newline in the whitespace behind it:
      one semicolon, however many newlines there are. Characters that begin nothing are
      skipped, but for those behind an identifier. */
  lemma {:induction false} ReadBackWithGaps(b: string, end: nat, lead: seq<Gap>, ps: seq<Piece>)
    requires Terminated(b, end) && GapsOk(lead) && PiecesOk(ps) && b[..end] == GapsText(lead) + PiecesText(ps)
    ensures Lexes(b, end, 0, TKN_SOF, Delivered(ps))
  {
    hide *;
    EndInside(b, end);
    StandsWhole(b, end, GapsText(lead) + PiecesText(ps));
    StandsParts(b, 0, GapsText(lead), PiecesText(ps));
    StartInserts(lead, Delivered(ps));
    PiecesLexed(b, end, |GapsText(lead)|, TKN_SOF, ps);
    GapsLexed(b, end, 0, TKN_SOF, lead, Delivered(ps));
  }

  lemma {:induction false} StartInserts(lead: seq<Gap>, ts: seq<Spelled>)
    ensures Insertion(TKN_SOF, lead) == [] && [] + ts == ts && Unstuck(TKN_SOF, lead)
  {
  }

  lemma {:induction false} StandsWhole(b: string, end: nat, s: string)
    requires end <= |b| && b[..end] == s
    ensures StandsAt(b, 0, s) && |s| == end
  {
    assert b[0..0 + end] == b[..end];
  }

  /** Tokens with single spaces between them. */
  function Spaced(ts: seq<Spelled>): seq<Piece> {
    if ts == [] then []
    else [Piece(ts[0], if |ts| == 1 then [] else [White(' ')])] + Spaced(ts[1..])
  }

  function SpacedText(ts: seq<Spelled>): string {
    if ts == [] then "" else if |ts| == 1 then ts[0].text else ts[0].text + " " + SpacedText(ts[1..])
  }

  lemma {:induction false} SpaceApart(t: Spelled, rest: string)
    requires WellSpelled(t) && (rest == "" || IsWhitespace(rest[0]))
    ensures Apart(t, rest)
  {
    if IsSymbol(t) {
      SymbolBegins(t);
      var s := t.text + rest;
      assert |s| > |t.text| ==> s[|t.text|] == rest[0];
      assert forall i :: 0 <= i < |t.text| ==> s[i] == t.text[i];
    }
  }

  lemma {:induction false} ConsPiece(t: Spelled, gs: seq<Gap>, rest: seq<Piece>)
    requires WellSpelled(t) && GapsOk(gs) && Unstuck(t.id, gs) && PiecesOk(rest)
    requires Apart(t, GapsText(gs) + PiecesText(rest))
    ensures var ps := [Piece(t, gs)] + rest;
      && PiecesOk(ps) && PiecesText(ps) == t.text + (GapsText(gs) + PiecesText(rest))
      && Delivered(ps) == [t] + (Insertion(t.id, gs) + Delivered(rest))
  {
    hide Apart, WellSpelled, GapsOk, Unstuck, GapsText, Insertion;
    var ps := [Piece(t, gs)] + rest;
    assert ps[1..] == rest && ps[0] == Piece(t, gs);
  }

  lemma {:induction false} OneBlank(t: Spelled)
    ensures GapsText([White(' ')]) == " " && GapsOk([White(' ')]) && Unstuck(t.id, [White(' ')])
    ensures Insertion(t.id, [White(' ')]) == []
  {
  }

  lemma {:induction false} OneSpace(t: Spelled, rest: seq<Piece>)
    requires WellSpelled(t) && PiecesOk(rest)
    ensures var ps := [Piece(t, [White(' ')])] + rest;
      PiecesOk(ps) && PiecesText(ps) == t.text + " " + PiecesText(rest) && Delivered(ps) == [t] + Delivered(rest)
  {
    hide *;
    OneBlank(t);
    BlankIsWhite(PiecesText(rest));
    SpaceApart(t, " " + PiecesText(rest));
    ConsPiece(t, [White(' ')], rest);
    assert t.text + (" " + PiecesText(rest)) == t.text + " " + PiecesText(rest);
    assert [] + Delivered(rest) == Delivered(rest);
  }

  lemma {:induction false} BlankIsWhite(s: string)
    ensures (" " + s)[0] == ' ' && IsWhitespace(' ')
  {
  }

  lemma {:induction false} NoSpace(t: Spelled)
    requires WellSpelled(t)
    ensures var ps := [Piece(t, [])]; PiecesOk(ps) && PiecesText(ps) == t.text && Delivered(ps) == [t]
  {
    var ps := [Piece(t, [])];
    assert ps[1..] == [];
    assert GapsText([]) + PiecesText([]) == "";
    SpaceApart(t, "");
  }

  lemma {:induction false} SpacedPieces(ts: seq<Spelled>)
    requires forall t :: t in ts ==> WellSpelled(t)
    ensures PiecesOk(Spaced(ts)) && PiecesText(Spaced(ts)) == SpacedText(ts) && Delivered(Spaced(ts)) == ts
  {
    hide PiecesOk, PiecesText, Delivered, WellSpelled;
    if ts == [] {
      EmptyPieces();
    } else if |ts| == 1 {
      NoSpace(ts[0]);
      assert Spaced(ts) == [Piece(ts[0], [])] && ts == [ts[0]];
    } else {
      SpacedPieces(ts[1..]);
      OneSpace(ts[0], Spaced(ts[1..]));
      assert ts == [ts[0]] + ts[1..];
    }
  }

  lemma {:induction false} EmptyPieces()
    ensures PiecesOk([]) && PiecesText([]) == "" && Delivered([]) == []
  {
  }

  /** Spelling tokens with single spaces and reading them back returns them. */
  lemma {:induction false} ReadBack(b: string, end: nat, ts: seq<Spelled>)
    requires Terminated(b, end) && b[..end] == SpacedText(ts) && forall t :: t in ts ==> WellSpelled(t)
    ensures Lexes(b, end, 0, TKN_SOF, ts)
  {
    SpacedPieces(ts);
    assert GapsText([]) + PiecesText(Spaced(ts)) == b[..end];
    ReadBackWithGaps(b, end, [], Spaced(ts));
  }

  // ------------------------------------------------------------ what any token looks like

  /** Nothing but whitespace without newlines and comments comes before garbage. */
  predicate GarbageNext(b: string, end: nat, p: nat)
    requires Terminated(b, end) && p <= end
    decreases end - p
  {
    p < end &&
    if IsWhitespace(b[p]) then b[p] != '\n' && GarbageNext(b, end, p + 1)
    else if StartsComment(b, end, p) then GarbageNext(b, end, CommentEnd(b, end, p))
    else IsGarbage(b[p])
  }

  /** A token is empty, so that the lexer makes no progress, exactly where an identifier
      was delivered last and garbage follows. */
  lemma {:induction false} EmptyIffStale(b: string, end: nat, p: nat, last: int, base: nat)
    requires Terminated(b, end) && p <= end && NextToken(b, end, p, last, base).token != TKN_EOF
    ensures var f := NextToken(b, end, p, last, base);
      && p <= f.base < end && (f.ptr == f.base <==> last == TKN_IDENT && IsGarbage(b[f.base]))
      && (f.ptr == f.base <==> last == TKN_IDENT && GarbageNext(b, end, p))
    decreases end - p
  {
    if p < end {
      if IsWhitespace(b[p]) {
        if !(b[p] == '\n' && last in TERMINATORS) {
          EmptyIffStale(b, end, p + 1, last, base);
        }
      } else if StartsComment(b, end, p) {
        EmptyIffStale(b, end, CommentEnd(b, end, p), last, p);
      } else if IsGarbage(b[p]) && last != TKN_IDENT {
        EmptyIffStale(b, end, p + 1, last, p);
      }
    }
  }

  /** Symbols are taken at their longest. */
  lemma {:induction false} LongestSymbol(b: string, end: nat, p: nat, t: Spelled)
    requires p < end < |b| && IsSymbol(t) && StandsAt(b, p, t.text) && p + |t.text| <= end
    ensures |t.text| <= SymbolLength(b, end, p)
    ensures var n := SymbolLength(b, end, p); IsSymbol(Spelled(SymbolToken(b, p, n), b[p..p + n]))
  {
    CharAt(b, p, t.text, 0);
    if |t.text| > 1 {
      CharAt(b, p, t.text, 1);
    }
    if |t.text| > 2 {
      CharAt(b, p, t.text, 2);
    }
    SymbolBegins(t);
    var n := SymbolLength(b, end, p);
    assert n > 0 && |b[p..p + n]| == n && b[p..p + n][0] == b[p];
  }

  /** In any run of whitespace, a newline becomes a semicolon exactly when the last token
      can end a statement, the first newline of the run does, and no other one after it. */
  lemma {:induction false} NewlineRun(b: string, end: nat, p: nat, q: nat, last: int, base: nat)
    requires Terminated(b, end) && p <= q <= end && forall i :: p <= i < q ==> IsWhitespace(b[i])
    ensures var f := NextToken(b, end, p, last, base);
      if last in TERMINATORS && '\n' in b[p..q]
      then
        f.token == TKN_SEMICOLON && p <= f.base < q && b[f.base] == '\n' && f.ptr == f.base + 1 && '\n' !in b[p..f.base]
      else
        f == NextToken(b, end, q, last, base)
    ensures NextToken(b, end, p, TKN_SEMICOLON, base) == NextToken(b, end, q, TKN_SEMICOLON, base)
    decreases q - p
  {
    if p < q {
      NewlineRun(b, end, p + 1, q, last, base);
      NextInRun(b, end, p, last, base);
      NextInRun(b, end, p, TKN_SEMICOLON, base);
      NewlineInSlice(b, p, q);
      var f := NextToken(b, end, p + 1, last, base);
      if b[p] != '\n' && last in TERMINATORS && '\n' in b[p + 1..q] {
        NewlineInSlice(b, p, f.base);
      }
      hide NextToken;
    }
  }

  lemma {:induction false} NextInRun(b: string, end: nat, p: nat, last: int, base: nat)
    requires Terminated(b, end) && p < end && IsWhitespace(b[p])
    ensures NextToken(b, end, p, last, base) ==
      if b[p] == '\n' && last in TERMINATORS then Found(TKN_SEMICOLON, p, p + 1)
      else NextToken(b, end, p + 1, last, base)
    ensures TKN_SEMICOLON !in TERMINATORS
  {
  }

  lemma {:induction false} NewlineInSlice(b: string, p: nat, q: nat)
    requires p < q <= |b|
    ensures '\n' in b[p..q] <==> b[p] == '\n' || '\n' in b[p + 1..q]
  {
    assert b[p..q] == [b[p]] + b[p + 1..q];
  }

  // --------------------------------------------------------------- reading a whole text

  /** What the lexer stands at after n calls. */
  function Calls(b: string, end: nat, n: nat): (f: Found)
    requires Terminated(b, end)
    ensures f.ptr <= end
  {
    if n == 0 then Found(TKN_SOF, 0, 0)
    else
      var f := Calls(b, end, n - 1);
      if IsLast(f) then f else NextToken(b, end, f.ptr, f.token, f.base)
  }

  /** The end of the text, or an error: no later call changes anything. */
  predicate IsLast(f: Found) {
    f.token == TKN_EOF || f.token == TKN_INVALID
  }

  /** An identifier with garbage behind it. */
  predicate Stuck(b: string, end: nat, f: Found)
    requires Terminated(b, end) && f.ptr <= end
  {
    f.token == TKN_IDENT && GarbageNext(b, end, f.ptr)
  }

  /** An identifier with garbage behind it is followed by empty identifiers forever. */
  lemma {:induction false} StuckStays(b: string, end: nat, n: nat, m: nat)
    requires Terminated(b, end) && Stuck(b, end, Calls(b, end, n)) && n <= m
    ensures Stuck(b, end, Calls(b, end, m)) && !IsLast(Calls(b, end, m))
    ensures n < m ==> Calls(b, end, m).base == Calls(b, end, m).ptr
    decreases m - n
  {
    if n < m {
      StuckStays(b, end, n, m - 1);
      StuckAgain(b, end, Calls(b, end, m - 1));
    }
  }

  lemma {:induction false} StuckAgain(b: string, end: nat, f: Found)
    requires Terminated(b, end) && f.ptr <= end && Stuck(b, end, f)
    ensures var f' := NextToken(b, end, f.ptr, f.token, f.base);
      Stuck(b, end, f') && !IsLast(f') && f'.base == f'.ptr
  {
    GarbageFound(b, end, f.ptr, f.base);
  }

  lemma {:induction false} GarbageFound(b: string, end: nat, p: nat, base: nat)
    requires Terminated(b, end) && p <= end && GarbageNext(b, end, p)
    ensures var f := NextToken(b, end, p, TKN_IDENT, base);
      f.token == TKN_IDENT && f.base == f.ptr && GarbageNext(b, end, f.ptr)
    decreases end - p
  {
    if IsWhitespace(b[p]) {
      GarbageFound(b, end, p + 1, base);
    } else if StartsComment(b, end, p) {
      GarbageFound(b, end, CommentEnd(b, end, p), p);
    }
  }

  /** As long as it is not stuck, every call moves the cursor on. */
  lemma {:induction false} CallsMoveOn(b: string, end: nat, n: nat)
    requires Terminated(b, end) && forall k :: 0 <= k < n ==> !Stuck(b, end, Calls(b, end, k))
    ensures IsLast(Calls(b, end, n)) || n <= Calls(b, end, n).ptr
  {
    if n > 0 {
      CallsMoveOn(b, end, n - 1);
      var f := Calls(b, end, n - 1);
      if !IsLast(f) && NextToken(b, end, f.ptr, f.token, f.base).token != TKN_EOF {
        EmptyIffStale(b, end, f.ptr, f.token, f.base);
      }
    }
  }

  lemma {:induction false} UnstuckEnds(b: string, end: nat)
    requires Terminated(b, end) && forall n :: !Stuck(b, end, Calls(b, end, n))
    ensures IsLast(Calls(b, end, end + 1))
  {
    CallsMoveOn(b, end, end + 1);
  }

  lemma {:induction false} StuckNeverEnds(b: string, end: nat, n: nat, m: nat)
    requires Terminated(b, end) && Stuck(b, end, Calls(b, end, n))
    ensures !IsLast(Calls(b, end, m))
  {
    hide *;
    StuckStays(b, end, n, n + m);
    LastStays(b, end, m, n + m);
  }

  /** Repeated calls come to the end of the text or to an error exactly when no identifier
      is ever followed by garbage, with only blanks and comments between. */
  lemma {:induction false} ReachesEndIff(b: string, end: nat)
    requires Terminated(b, end)
    ensures (exists n :: IsLast(Calls(b, end, n))) <==> forall n :: !Stuck(b, end, Calls(b, end, n))
    ensures (exists n :: IsLast(Calls(b, end, n))) <==> IsLast(Calls(b, end, end + 1))
  {
    hide Stuck, IsLast, NextToken, Terminated;
    if n: nat :| Stuck(b, end, Calls(b, end, n)) {
      StuckNeverEnds(b, end, n, end + 1);
      forall m: nat
        ensures !IsLast(Calls(b, end, m))
      {
        StuckNeverEnds(b, end, n, m);
      }
    } else {
      UnstuckEnds(b, end);
      assert IsLast(Calls(b, end, end + 1));
    }
  }

  lemma {:induction false} LastStays(b: string, end: nat, m: nat, n: nat)
    requires Terminated(b, end) && m <= n
    ensures IsLast(Calls(b, end, m)) ==> Calls(b, end, n) == Calls(b, end, m)
    decreases n
  {
    if m < n {
      LastStays(b, end, m, n - 1);
    }
  }

  /** On "a $" the end is never reached. */
  lemma {:induction false} DollarIsStuck(n: nat)
    ensures Terminated("a $;", 3) && !IsLast(Calls("a $;", 3, n))
    ensures n >= 2 ==> Calls("a $;", 3, n) == Found(TKN_IDENT, 2, 2)
  {
    EmptyDollar();
    hide NextToken, Terminated;
    if n > 2 {
      DollarIsStuck(n - 1);
    }
  }

  lemma {:induction false} EmptyDollar()
    ensures Terminated("a $;", 3)
    ensures Calls("a $;", 3, 1) == Found(TKN_IDENT, 0, 1) && Calls("a $;", 3, 2) == Found(TKN_IDENT, 2, 2)
    ensures NextToken("a $;", 3, 2, TKN_IDENT, 2) == Found(TKN_IDENT, 2, 2)
  {
    var b := "a $;";
    assert b[0..1] == "a";
    KeywordLetter(KEYWORDS);
    assert WordEnd(b, 3, 1) == 1;
    assert NextToken(b, 3, 0, TKN_SOF, 0) == Found(TKN_IDENT, 0, 1);
    assert NextToken(b, 3, 1, TKN_IDENT, 0) == NextToken(b, 3, 2, TKN_IDENT, 0) == Found(TKN_IDENT, 2, 2);
  }

  lemma {:induction false} KeywordLetter(n: nat)
    requires n <= KEYWORDS
    ensures KeywordAmong(n, "a") == TKN_IDENT
  {
    if n > 0 {
      assert |Keyword(n - 1).0| > 1;
      KeywordLetter(n - 1);
    }
  }
}
