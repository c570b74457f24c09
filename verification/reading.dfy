/** From a text to a tree: the lexer's tokens, the generated parser and the reducers in a row. */
module Reading {
  import opened Options
  import opened TokenSets
  import opened Grammars
  import opened Safety
  import opened Scanning
  import opened Respelling
  import opened Lexing
  import opened Ladder
  import opened Binding
  import opened LadderTables

  /** The lexemes are the tokens, each over its own text. */
  predicate Spells(text: string, w: seq<Lexeme>, ts: seq<Spelled>) {
    |w| == |ts| && forall i :: 0 <= i < |w| ==> SpellsOne(text, w[i], ts[i])
  }

  predicate SpellsOne(text: string, l: Lexeme, t: Spelled) {
    l.id == t.id && l.first <= l.last <= |text| && text[l.first..l.last] == t.text
  }

  lemma {:induction false} LexesNext(b: string, end: nat, f: Found, p: nat, last: int, base: nat, ts: seq<Spelled>)
    requires Terminated(b, end) && p <= end && Lexes(b, end, p, last, ts) && f == NextToken(b, end, p, last, base)
    ensures f.ptr <= end < |b| && f.token != TKN_INVALID && (f.token == TKN_EOF <==> ts == [])
    ensures ts != [] ==> SpellsOne(b, Lexeme(f.token, f.base, f.ptr), ts[0]) && Lexes(b, end, f.ptr, f.token, ts[1..])
  {
    BaseAtEnd(b, end, p, last, base, 0);
  }

  lemma {:induction false} SpellsMore(text: string, w: seq<Lexeme>, ts: seq<Spelled>, l: Lexeme, n: nat)
    requires n < |ts| && Spells(text, w, ts[..n]) && SpellsOne(text, l, ts[n]) && InputOk(w) && l.id != TKN_EOF
    ensures Spells(text, w + [l], ts[..n + 1]) && InputOk(w + [l])
  {
    assert ts[..n + 1] == ts[..n] + [ts[n]];
  }

  /** Calls the lexer until it finds no more. */
  method ReadTokens(text: string, end: nat, ghost ts: seq<Spelled>) returns (w: seq<Lexeme>)
    requires Terminated(text, end) && Lexes(text, end, 0, TKN_SOF, ts)
    ensures Spells(text, w, ts) && InputOk(w)
  {
    hide Lexes, NextToken, Terminated, InputOk, Spells, SpellsOne, Newlines, LineStart, Column;
    var lexer := new Lexer(text, end);
    w := [];
    NothingSpelled(text);
    var more := true;
    while more
      invariant fresh(lexer) && lexer.Valid() && lexer.text == text && lexer.end == end && Terminated(text, end)
      invariant |w| <= |ts| && Spells(text, w, ts[..|w|]) && InputOk(w)
      invariant lexer.ptr <= end
      invariant more ==> lexer.token != TKN_EOF && lexer.token != TKN_INVALID
      invariant more ==> Lexes(text, end, lexer.ptr, lexer.token, ts[|w|..])
      invariant !more ==> |w| == |ts|
      decreases |ts| - |w|, more
    {
      ghost var p, last, base := lexer.ptr, lexer.token, lexer.base;
      lexer.Next();
      LexesNext(text, end, Found(lexer.token, lexer.base, lexer.ptr), p, last, base, ts[|w|..]);
      if lexer.token == TKN_EOF {
        more := false;
      } else {
        var l := Lexeme(lexer.token, lexer.base, lexer.ptr);
        SpellsMore(text, w, ts, l, |w|);
        w := w + [l];
      }
    }
    assert ts[..|w|] == ts;
  }

  lemma {:induction false} NothingSpelled(text: string)
    ensures Spells(text, [], []) && InputOk([])
  {
  }

  /** Reads an expression from a text of any tokens with gaps around them: the lexer delivers the
      tokens, and the parser and the reducers find the tree that they print, if there is one. */
  method ReadText(text: string, end: nat, ghost lead: seq<Gap>, ghost ps: seq<Piece>)
    returns (w: seq<Lexeme>, e: Option<Expr>)
    requires Terminated(text, end) && GapsOk(lead) && PiecesOk(ps) && text[..end] == GapsText(lead) + PiecesText(ps)
    ensures Spells(text, w, Delivered(ps))
    ensures e.Some? <==> exists t :: Derives(LADDER, N(EXPR), t) && Yield(t) == w
    ensures forall x :: Prints(w, x) ==> e == Some(x)
  {
    ReadBackWithGaps(text, end, lead, ps);
    w := ReadTokens(text, end, Delivered(ps));
    e := ReadExpression(w);
  }
}
