/** The lexer: a cursor over a text that finds one token at a time and keeps track of
    lines and columns. */
module Lexing {
  import opened TokenSets
  import opened Tokens
  import opened Scanning
  import opened Names

  // -------------------------------------------------------------------------- positions

  /** The number of newlines before p. */
  function Newlines(b: string, p: nat): nat
    requires p <= |b|
  {
    if p == 0 then 0 else Newlines(b, p - 1) + if b[p - 1] == '\n' then 1 else 0
  }

  /** Where the line of position p begins. */
  function LineStart(b: string, p: nat): (q: nat)
    requires p <= |b|
    ensures q <= p
    ensures (q > 0 ==> b[q - 1] == '\n') && forall i :: q <= i < p ==> b[i] != '\n'
  {
    if p == 0 then 0 else if b[p - 1] == '\n' then p else LineStart(b, p - 1)
  }

  /** The column kept for a token from `base` to p: that of its first character, but 0
      once the token has run over the end of its line. */
  function Column(b: string, base: nat, p: nat): nat
    requires base <= p <= |b|
  {
    if '\n' in b[base..p] then 0 else base - LineStart(b, base)
  }

  lemma {:induction false} ColumnStep(b: string, base: nat, p: nat)
    requires base <= p < |b|
    ensures Column(b, base, p + 1) == if b[p] == '\n' then 0 else Column(b, base, p)
  {
    assert b[base..p + 1] == b[base..p] + [b[p]];
  }

  lemma {:induction false} NoNewlineSkipped(b: string, p: nat)
    requires p < |b| && b[p] != '\n'
    ensures Newlines(b, p + 1) == Newlines(b, p) && LineStart(b, p + 1) == LineStart(b, p)
  {
  }

  // -------------------------------------------------------------------------- the cursor

  class Lexer {
    const text: string
    const end: nat
    var base: nat
    var ptr: nat
    var token: int
    var line: nat
    var col: nat
    var lineBase: nat

    ghost predicate Valid()
      reads this
    {
      && Terminated(text, end) && base <= ptr <= end
      && line == Newlines(text, ptr) && lineBase == LineStart(text, ptr) && col == Column(text, base, ptr)
    }

    constructor (text: string, end: nat)
      requires Terminated(text, end)
      ensures Valid() && this.text == text && this.end == end && ptr == 0 && token == TKN_SOF
    {
      this.text, this.end := text, end;
      base, ptr, token := 0, 0, TKN_SOF;
      line, col, lineBase := 0, 0, 0;
    }

    method Step()
      requires Valid() && ptr < end
      modifies this`ptr, this`line, this`col, this`lineBase
      ensures Valid() && ptr == old(ptr) + 1
    {
      ColumnStep(text, base, ptr);
      if text[ptr] == '\n' {
        line := line + 1;
        col := 0;
        lineBase := ptr + 1;
      }
      ptr := ptr + 1;
    }

    method Steps(steps: nat)
      requires Valid() && ptr + steps <= end
      modifies this`ptr, this`line, this`col, this`lineBase
      ensures Valid() && ptr == old(ptr) + steps
    {
      for i := 0 to steps
        invariant Valid() && ptr == old(ptr) + i
      {
        Step();
      }
    }

    method ConsumeOnelineComment()
      requires Valid()
      modifies this`ptr, this`line, this`col, this`lineBase
      ensures Valid() && ptr == LineEnd(text, end, old(ptr))
    {
      while ptr != end
        invariant Valid() && LineEnd(text, end, ptr) == LineEnd(text, end, old(ptr))
        decreases end - ptr
      {
        if text[ptr] == '\n' {
          Step();
          return;
        } else {
          Step();
        }
      }
    }

    method ConsumeMultilineComment()
      requires Valid()
      modifies this`ptr, this`line, this`col, this`lineBase
      ensures Valid() && ptr == BlockEnd(text, end, old(ptr))
    {
      while ptr != end
        invariant Valid() && BlockEnd(text, end, ptr) == BlockEnd(text, end, old(ptr))
        decreases end - ptr
      {
        if text[ptr] == '*' {
          Step();
          if ptr != end && text[ptr] == '/' {
            Step();
            return;
          }
        } else {
          Step();
        }
      }
    }

    /** Skips the two characters that open a comment, neither of them a newline. */
    method SkipMark()
      requires Valid() && ptr + 2 <= end && text[ptr] != '\n' && text[ptr + 1] != '\n'
      modifies this`ptr
      ensures Valid() && ptr == old(ptr) + 2
    {
      NoNewlineSkipped(text, ptr);
      NoNewlineSkipped(text, ptr + 1);
      ptr := ptr + 2;
    }

    /** Compares the text from base with a keyword. */
    method MatchKeyword(keyword: string) returns (matches: bool)
      requires Valid()
      ensures matches == (text[base..ptr] == keyword)
    {
      var k, p := 0, base;
      while p < ptr && k < |keyword| && keyword[k] == text[p]
        invariant k <= |keyword| && base <= p == base + k <= ptr && text[base..p] == keyword[..k]
      {
        assert text[base..p + 1] == text[base..p] + [text[p]];
        assert keyword[..k + 1] == keyword[..k] + [keyword[k]];
        k, p := k + 1, p + 1;
      }
      matches := k == |keyword| && p == ptr;
      if p < ptr {
        assert k < |keyword| ==> text[base..ptr][k] != keyword[k];
        assert |text[base..ptr]| > k;
      } else {
        assert text[base..p] == text[base..ptr];
        assert |text[base..ptr]| == k;
      }
    }

    method IsTerminator(id: int) returns (found: bool)
      ensures found == (id in TERMINATORS)
    {
      for i := 0 to |TERMINATORS|
        invariant id !in TERMINATORS[..i]
      {
        if id == TERMINATORS[i] {
          return true;
        }
        assert TERMINATORS[..i + 1] == TERMINATORS[..i] + [TERMINATORS[i]];
      }
      assert TERMINATORS[..|TERMINATORS|] == TERMINATORS;
      found := false;
    }

    /** The rest of a string literal, behind its opening quote. */
    method ConsumeString()
      requires Valid()
      modifies this`ptr, this`line, this`col, this`lineBase, this`token
      ensures Valid()
      ensures var q := StringEnd(text, end, old(ptr));
        ptr == (if q <= end then q else end) && token == (if q <= end then TKN_STRING_LITERAL else TKN_INVALID)
    {
      hide Newlines, LineStart, Column;
      token := TKN_STRING_LITERAL;
      while ptr != end
        invariant Valid() && token == TKN_STRING_LITERAL
        invariant StringEnd(text, end, ptr) == StringEnd(text, end, old(ptr))
        decreases end - ptr
      {
        if text[ptr] == '"' {
          Step();
          return;
        } else if text[ptr] == '\\' {
          Step();
          if ptr == end {
            token := TKN_INVALID;
            return;
          }
          Step();
        } else {
          Step();
        }
      }
      token := TKN_INVALID;
    }

    /** The rest of a number; the loop relies on the end of the buffer. */
    method ConsumeNumber()
      requires Valid()
      modifies this`ptr, this`line, this`col, this`lineBase
      ensures Valid() && ptr == NumberEnd(text, end, old(ptr))
    {
      while IsNumber(text[ptr])
        invariant Valid() && NumberEnd(text, end, ptr) == NumberEnd(text, end, old(ptr))
        decreases end - ptr
      {
        Step();
      }
    }

    method ConsumeWord()
      requires Valid()
      modifies this`ptr, this`line, this`col, this`lineBase
      ensures Valid() && ptr == WordEnd(text, end, old(ptr))
    {
      while IsIdent(text[ptr])
        invariant Valid() && WordEnd(text, end, ptr) == WordEnd(text, end, old(ptr))
        decreases end - ptr
      {
        Step();
      }
    }

    /** Replaces the token by that of the keyword the text from base spells, if any. */
    method CheckKeywords()
      requires Valid() && token == TKN_IDENT
      modifies this`token
      ensures token == WordToken(text[base..ptr])
      ensures token != TKN_IDENT ==> IsKeywordToken(token) && TokenName(token) == text[base..ptr]
      ensures token == TKN_IDENT ==> !IsKeywordName(text[base..ptr])
    {
      hide Newlines, LineStart, Column, TokenName, Keyword;
      WordMeans(text[base..ptr]);
      for i := 0 to KEYWORDS
        invariant token == KeywordAmong(i, text[base..ptr])
      {
        var matches := MatchKeyword(Keyword(i).0);
        if matches {
          token := Keyword(i).1;
        }
      }
    }

    /** Skips whitespace at the cursor, or makes a newline after a token that can end a
        statement a semicolon. */
    method SkipWhitespace() returns (semicolon: bool)
      requires Valid() && ptr < end && IsWhitespace(text[ptr])
      modifies this
      ensures Valid() && ptr == old(ptr) + 1
      ensures semicolon == (text[old(ptr)] == '\n' && old(token) in TERMINATORS)
      ensures semicolon ==> token == TKN_SEMICOLON && base == old(ptr)
      ensures !semicolon ==> token == old(token) && base == old(base)
    {
      semicolon := false;
      if text[ptr] == '\n' {
        semicolon := IsTerminator(token);
        if semicolon {
          token := TKN_SEMICOLON;
          base := ptr;
          col := base - lineBase;
        }
      }
      Step();
    }

    /** Takes the longest symbol at the cursor, if there is one. */
    method TakeSymbol() returns (taken: bool)
      requires Valid() && ptr < end && base == ptr
      modifies this`ptr, this`line, this`col, this`lineBase, this`token
      ensures Valid() && ptr == old(ptr) + SymbolLength(text, end, old(ptr))
      ensures taken == (SymbolLength(text, end, old(ptr)) > 0)
      ensures token == if taken then SymbolToken(text, old(ptr), SymbolLength(text, end, old(ptr))) else old(token)
      ensures taken ==> text[old(ptr)..ptr] == SymbolText(token)
    {
      hide SymbolText;
      if SymbolLength(text, end, ptr) > 0 {
        SymbolAt(text, end, ptr, SymbolLength(text, end, ptr));
      }
      var rem := end - ptr;
      if rem >= 3 {
        var t := Symbol3(text[ptr], text[ptr + 1], text[ptr + 2]);
        if t != TKN_INVALID {
          Steps(3);
          token := t;
          return true;
        }
      }
      if rem >= 2 {
        var t := Symbol2(text[ptr], text[ptr + 1]);
        if t != TKN_INVALID {
          Steps(2);
          token := t;
          return true;
        }
      }
      var t := Symbol1(text[ptr]);
      if t != TKN_INVALID {
        Steps(1);
        token := t;
        return true;
      }
      taken := false;
    }

    /** Takes a string or number at the cursor, if one begins there. */
    method TakeLiteral() returns (taken: bool)
      requires Valid() && ptr < end && base == ptr
      modifies this`ptr, this`line, this`col, this`lineBase, this`token
      ensures Valid()
      ensures taken == (text[base] == '"' || IsNumberStart(text[base]))
      ensures !taken ==> ptr == old(ptr) && token == old(token)
      ensures taken && SymbolLength(text, end, base) == 0 ==> Found(token, base, ptr) == TokenAt(text, end, base)
    {
      hide Newlines, LineStart, Column, SymbolLength;
      taken := true;
      if text[ptr] == '"' {
        Step();
        ConsumeString();
      } else if IsNumberStart(text[ptr]) {
        Step();
        ConsumeNumber();
        token := TKN_NUMBER_LITERAL;
      } else {
        taken := false;
      }
    }

    /** Takes a word or keyword at the cursor, or nothing but an empty identifier when
        the last token was an identifier. */
    method TakeWord() returns (taken: bool)
      requires Valid() && ptr < end && base == ptr
      modifies this`ptr, this`line, this`col, this`lineBase, this`token
      ensures Valid()
      ensures taken == (IsIdentStart(text[base]) || old(token) == TKN_IDENT)
      ensures !taken ==> ptr == old(ptr) && token == old(token)
      ensures taken && IsIdentStart(text[base]) ==>
        ptr == WordEnd(text, end, base + 1) && token == WordToken(text[base..ptr])
      ensures taken && !IsIdentStart(text[base]) ==> ptr == base && token == TKN_IDENT
    {
      hide Newlines, LineStart, Column, WordToken, KeywordAmong;
      if IsIdentStart(text[ptr]) {
        Step();
        ConsumeWord();
        token := TKN_IDENT;
      }
      taken := token == TKN_IDENT;
      if taken {
        WordOfNothing();
        assert ptr == base ==> text[base..ptr] == "";
        CheckKeywords();
      }
    }

    /** Takes the token at the cursor, where neither whitespace nor a comment begins;
        garbage is skipped, unless the last token was an identifier. */
    method TakeToken() returns (taken: bool)
      requires Valid() && ptr < end && base == ptr && !IsWhitespace(text[ptr])
      modifies this`ptr, this`line, this`col, this`lineBase, this`token
      ensures Valid()
      ensures taken == (!IsGarbage(text[base]) || old(token) == TKN_IDENT)
      ensures !taken ==> ptr == old(ptr) + 1 && token == old(token)
      ensures taken ==> Found(token, base, ptr) == FoundAt(text, end, base)
    {
      hide Newlines, LineStart, Column, WordToken, Symbol1, Symbol2, Symbol3, SymbolLength;
      SymbolIffNone(text, end, ptr);
      taken := TakeSymbol();
      if !taken {
        taken := TakeLiteral();
        if !taken {
          taken := TakeWord();
          if !taken {
            Step();
          }
        }
      }
    }

    /** Skips the comment at the cursor. */
    method SkipComment()
      requires Valid() && ptr < end && StartsComment(text, end, ptr)
      modifies this`ptr, this`line, this`col, this`lineBase
      ensures Valid() && ptr == CommentEnd(text, end, old(ptr))
    {
      var oneline := text[ptr + 1] == '/';
      SkipMark();
      if oneline {
        ConsumeOnelineComment();
      } else {
        ConsumeMultilineComment();
      }
    }

    /** Takes the cursor for the beginning of a token. */
    method BeginToken()
      requires Valid()
      modifies this`base, this`col
      ensures Valid() && base == ptr
    {
      base := ptr;
      col := base - lineBase;
    }

    /** One round: finds a token, or skips what is none. */
    method Round() returns (found: bool)
      requires Valid() && ptr < end
      modifies this
      ensures Valid() && ptr >= old(ptr)
      ensures found ==> Found(token, base, ptr) == NextToken(text, end, old(ptr), old(token), old(base))
      ensures !found ==> ptr > old(ptr) && token == old(token)
      ensures !found ==> NextToken(text, end, ptr, token, base) == NextToken(text, end, old(ptr), token, old(base))
    {
      hide Newlines, LineStart, Column, NextToken, TokenAt, FoundAt, StartsComment, CommentEnd, IsGarbage, IsWhitespace;
      hide Terminated;
      NextHere(text, end, ptr, token, base);
      if IsWhitespace(text[ptr]) {
        found := SkipWhitespace();
        return;
      }
      BeginToken();
      if StartsComment(text, end, ptr) {
        SkipComment();
        return false;
      }
      found := TakeToken();
    }

    /** Finds the next token; once the end or an error was met, nothing changes. */
    method Next()
      requires Valid()
      modifies this
      ensures Valid()
      ensures old(token) == TKN_INVALID || old(token) == TKN_EOF ==> unchanged(this)
      ensures old(token) != TKN_INVALID && old(token) != TKN_EOF ==>
        Found(token, base, ptr) == NextToken(text, end, old(ptr), old(token), old(base))
    {
      if token == TKN_INVALID || token == TKN_EOF {
        return;
      }
      hide Newlines, LineStart, Column, NextToken, Terminated;
      while ptr != end
        invariant Valid() && token == old(token)
        invariant NextToken(text, end, ptr, token, base) == NextToken(text, end, old(ptr), old(token), old(base))
        decreases end - ptr
      {
        var found := Round();
        if found {
          return;
        }
      }
      NextAtEnd(text, end, token, base);
      token := TKN_EOF;
    }
  }

  /** What is found next, by what stands at the cursor. */
  lemma {:induction false} NextHere(b: string, end: nat, p: nat, last: int, base: nat)
    requires Terminated(b, end) && p < end
    ensures end < |b|
    ensures var f := NextToken(b, end, p, last, base);
      if IsWhitespace(b[p]) then
        f == if b[p] == '\n' && last in TERMINATORS then Found(TKN_SEMICOLON, p, p + 1)
             else NextToken(b, end, p + 1, last, base)
      else if StartsComment(b, end, p) then f == NextToken(b, end, CommentEnd(b, end, p), last, p)
      else f == if IsGarbage(b[p]) && last != TKN_IDENT then NextToken(b, end, p + 1, last, p) else FoundAt(b, end, p)
  {
  }

  lemma {:induction false} NextAtEnd(b: string, end: nat, last: int, base: nat)
    requires Terminated(b, end)
    ensures NextToken(b, end, end, last, base) == Found(TKN_EOF, base, end)
  {
  }

  lemma {:induction false} EmptyIsNoKeyword(n: nat)
    requires n <= KEYWORDS
    ensures KeywordAmong(n, "") == TKN_IDENT
  {
    if n > 0 {
      assert |Keyword(n - 1).0| > 0;
      EmptyIsNoKeyword(n - 1);
    }
  }

  lemma {:induction false} WordOfNothing()
    ensures WordToken("") == TKN_IDENT
  {
    EmptyIsNoKeyword(KEYWORDS);
  }

  /** A symbol is found exactly where its first character is one. */
  lemma {:induction false} SymbolIffNone(b: string, end: nat, p: nat)
    requires p < end < |b|
    ensures SymbolLength(b, end, p) == 0 <==> Symbol1(b[p]) == TKN_INVALID
  {
  }
}
