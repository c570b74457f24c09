/** The ladder is LR(1), and the generator accepts it: what stands before and behind a rule
    reference in any sentential form leaves the parser one step only. */
module LadderTables {
  import opened Options
  import opened TokenSets
  import opened Tokens
  import opened Grammars
  import opened Items
  import opened Tables
  import opened Machine
  import opened Safety
  import opened Soundness
  import opened Validity
  import opened Deciding
  import opened Ladder
  import opened Precedence
  import opened Printing
  import opened Binding

  // ---------------------------------------------------------------------- the variants

  /** An operator between its operands. */
  predicate IsBinary(r: nat, rhs: seq<Symbol>) {
    && |rhs| == 3 && IsLevel(r) && rhs[0] == N(r) && rhs[2] == N(r - 1)
    && rhs[1].T? && LevelOf(rhs[1].tok) == r
  }

  /** The shapes of the variants. */
  predicate Shaped(r: nat, v: nat, rhs: seq<Symbol>) {
    || (r == PRIMARY && v == 0 && rhs == [T(TKN_IDENT)])
    || (r == PRIMARY && v == 1 && rhs == [T(TKN_LPAREN), N(EXPR), T(TKN_RPAREN)])
    || (r == UNARY && v == 1 && rhs == [N(UNARY_OP), N(CAST)])
    || (r == UNARY_OP && v < |UNARY_OPS| && rhs == [T(UNARY_OPS[v])])
    || (0 < v <= |Ops(r)| && IsBinary(r, rhs) && rhs[1].tok == Ops(r)[v - 1])
    || (r != PRIMARY && r != UNARY_OP && r <= ROOT && v == 0 && rhs == [N(Below(r))])
  }

  lemma {:induction false} VariantShape(r: nat, v: nat)
    requires IsVariant(LADDER, r, v)
    ensures Shaped(r, v, Rhs(LADDER, r, v)) && r <= ROOT
  {
    assert LADDER.rules[r] == Variants(r);
    if IsLevel(r) && v > 0 {
      assert Variants(r)[v] == LevelVariant(r, v - 1);
      LevelOfOps(r, Ops(r)[v - 1]);
    }
  }

  // ------------------------------------------------------------- before a reference

  /** A binary operator behind its left operand. */
  predicate AfterOperator(pre: seq<Symbol>) {
    && |pre| >= 2 && pre[|pre| - 1].T? && pre[|pre| - 2].N?
    && IsLevel(pre[|pre| - 2].rule) && LevelOf(pre[|pre| - 1].tok) == pre[|pre| - 2].rule
  }

  /** The highest rule that may be referenced behind pre, if any may. */
  function Highest(pre: seq<Symbol>): Option<nat> {
    if pre == [] then Some(ROOT)
    else if pre[|pre| - 1] == T(TKN_LPAREN) then Some(EXPR)
    else if pre[|pre| - 1] == N(UNARY_OP) then Some(CAST)
    else if AfterOperator(pre) then Some(pre[|pre| - 2].rule - 1)
    else None
  }

  // ------------------------------------------------------------- behind a reference

  /** A token that may follow rule c, or the end of file: a closing parenthesis, or an
      operator of its level or one above. */
  predicate MayFollow(c: nat, look: int) {
    look == TKN_EOF || look == TKN_RPAREN || (IsLevel(LevelOf(look)) && c <= LevelOf(look))
  }

  predicate Followed(c: nat, rest: seq<Symbol>) {
    c == UNARY_OP || rest == [] || (rest[0].T? && MayFollow(c, rest[0].tok))
  }

  ghost predicate RightAt(f: seq<Symbol>, i: nat)
    requires i < |f|
  {
    f[i].N? ==>
      && Highest(f[..i]).Some? && f[i].rule <= Highest(f[..i]).value
      && Followed(f[i].rule, f[i + 1..])
  }

  /** Every reference stands where it may. */
  ghost predicate Right(f: seq<Symbol>) {
    forall i :: 0 <= i < |f| ==> RightAt(f, i)
  }

  lemma {:induction false} RootRight()
    ensures Right([N(ROOT)])
  {
  }

  /** References before the rewritten one keep their places. */
  lemma {:induction false} RightBefore(x: seq<Symbol>, c: nat, rhs: seq<Symbol>, y: seq<Symbol>, i: nat)
    requires Right(x + [N(c)] + y) && i < |x|
    ensures RightAt(x + rhs + y, i)
  {
    var f, f' := x + [N(c)] + y, x + rhs + y;
    assert RightAt(f, i) && f[i] == f'[i] == x[i] && f[..i] == f'[..i] == x[..i];
    if i + 1 < |x| {
      assert f[i + 1..][0] == f'[i + 1..][0] == x[i + 1];
    } else {
      assert f[i + 1..][0] == N(c);
    }
  }

  lemma {:induction false} RightBehind(x: seq<Symbol>, rhs: seq<Symbol>, y: seq<Symbol>, i: nat)
    requires |x| + |rhs| <= i < |x + rhs + y| && AllTerminal(y)
    ensures RightAt(x + rhs + y, i)
  {
    assert (x + rhs + y)[i] == y[i - |x| - |rhs|];
    assert y[i - |x| - |rhs|] in y;
  }

  /** What may follow a rule may follow those below it. */
  lemma {:induction false} FollowedBelow(c: nat, d: nat, rest: seq<Symbol>)
    requires Followed(c, rest) && c != UNARY_OP && (d <= c || d <= CAST)
    ensures Followed(d, rest)
  {
  }

  lemma {:induction false} HighestIsHigh(pre: seq<Symbol>)
    requires Highest(pre).Some?
    ensures Highest(pre).value >= CAST
  {
  }

  lemma {:induction false} HighestBehind(x: seq<Symbol>, a: Symbol)
    ensures a == T(TKN_LPAREN) ==> Highest(x + [a]) == Some(EXPR)
    ensures a == N(UNARY_OP) ==> Highest(x + [a]) == Some(CAST)
  {
  }

  lemma {:induction false} HighestBehindOperator(x: seq<Symbol>, k: nat, op: Token)
    requires IsLevel(k) && LevelOf(op) == k
    ensures Highest(x + [N(k), T(op)]) == Some(k - 1)
  {
    var pre := x + [N(k), T(op)];
    assert pre[|pre| - 1] == T(op) && pre[|pre| - 2] == N(k);
  }

  /** The references of a variant stand where they may when the rule does. */
  lemma {:induction false} RightInside(x: seq<Symbol>, c: nat, v: nat, rhs: seq<Symbol>, y: seq<Symbol>, k: nat)
    requires Highest(x).Some? && c <= Highest(x).value && Followed(c, y) && Shaped(c, v, rhs) && k < |rhs|
    ensures RightAt(x + rhs + y, |x| + k)
  {
    var f := x + rhs + y;
    assert f[|x| + k] == rhs[k] && f[..|x| + k] == x + rhs[..k] && f[|x| + k + 1..] == rhs[k + 1..] + y;
    hide Highest, LevelOf, MayFollow, Ops;
    HighestIsHigh(x);
    assert k == 0 ==> x + rhs[..k] == x;
    assert k + 1 == |rhs| ==> rhs[k + 1..] + y == y;
    if rhs[k].N? {
      InsideCases(x, c, v, rhs, y, k);
    }
  }

  lemma {:induction false} InsideCases(x: seq<Symbol>, c: nat, v: nat, rhs: seq<Symbol>, y: seq<Symbol>, k: nat)
    requires Highest(x).Some? && c <= Highest(x).value && Highest(x).value >= CAST && Followed(c, y)
    requires Shaped(c, v, rhs) && k < |rhs| && rhs[k].N?
    ensures Highest(x + rhs[..k]).Some? && rhs[k].rule <= Highest(x + rhs[..k]).value
    ensures Followed(rhs[k].rule, rhs[k + 1..] + y)
  {
    hide Highest, Ops;
    assert k == 0 ==> x + rhs[..k] == x;
    assert k + 1 == |rhs| ==> rhs[k + 1..] + y == y;
    if |rhs| == 1 {
      FollowedBelow(c, Below(c), y);
    } else if |rhs| == 2 {
      if k == 1 {
        assert rhs[..1] == [N(UNARY_OP)];
        HighestBehind(x, N(UNARY_OP));
        FollowedBelow(c, CAST, y);
      }
    } else if c == PRIMARY {
      assert rhs[..1] == [T(TKN_LPAREN)] && (rhs[2..] + y)[0] == T(TKN_RPAREN);
      HighestBehind(x, T(TKN_LPAREN));
    } else if k == 0 {
      assert (rhs[1..] + y)[0] == rhs[1];
    } else {
      assert rhs[..2] == [N(c), rhs[1]];
      HighestBehindOperator(x, c, rhs[1].tok);
      FollowedBelow(c, c - 1, y);
    }
  }

  /** Rewriting keeps every reference where it may stand. */
  lemma {:induction false} RewritingKeepsRight(f: seq<Symbol>, f': seq<Symbol>)
    requires Right(f) && Rewrites(LADDER, f, f')
    ensures Right(f')
  {
    var x, c, v, y :| RewritesAt(LADDER, f, f', x, c, v, y);
    var rhs := Rhs(LADDER, c, v);
    VariantShape(c, v);
    assert RightAt(f, |x|) && f[..|x|] == x && f[|x| + 1..] == y;
    hide Highest, Shaped, Followed, LADDER;
    forall i | 0 <= i < |f'|
      ensures RightAt(f', i)
    {
      if i < |x| {
        RightBefore(x, c, rhs, y, i);
      } else if i < |x| + |rhs| {
        RightInside(x, c, v, rhs, y, i - |x|);
      } else {
        RightBehind(x, rhs, y, i);
      }
    }
  }

  lemma {:induction false} DerivedIsRight(f: seq<Symbol>, n: nat)
    requires DerivesIn(LADDER, [N(ROOT)], f, n)
    ensures Right(f)
    decreases n
  {
    hide Right, Rewrites, LADDER;
    if n == 0 {
      RootRight();
    } else {
      var m :| DerivesIn(LADDER, [N(ROOT)], m, n - 1) && Rewrites(LADDER, m, f);
      DerivedIsRight(m, n - 1);
      RewritingKeepsRight(m, f);
    }
  }

  // -------------------------------------------------------------------- valid items

  /** What is known of an item valid for phi: what stands before its variant allows its rule,
      and its lookahead may follow it. */
  ghost predicate Fits(phi: seq<Symbol>, it: Item, pre: seq<Symbol>) {
    && ItemOk(LADDER, it) && phi == pre + Rhs(LADDER, it.rule, it.variant)[..it.pos]
    && Shaped(it.rule, it.variant, Rhs(LADDER, it.rule, it.variant))
    && Highest(pre).Some? && it.rule <= Highest(pre).value
    && (it.rule == UNARY_OP || MayFollow(it.rule, it.look))
  }

  lemma {:induction false} ValidFits(phi: seq<Symbol>, it: Item) returns (pre: seq<Symbol>)
    requires Valid(LADDER, phi, it)
    ensures Fits(phi, it, pre)
  {
    var w: seq<Symbol>;
    pre, w :| ValidBy(LADDER, phi, it, pre, w);
    var f := pre + [N(it.rule)] + w;
    var n: nat :| DerivesIn(LADDER, [N(LADDER.root)], f, n);
    DerivedIsRight(f, n);
    VariantShape(it.rule, it.variant);
    assert RightAt(f, |pre|) && f[|pre|] == N(it.rule) && f[..|pre|] == pre && f[|pre| + 1..] == w;
  }

  lemma {:induction false} OneVariantOfShape(r: nat, v: nat, r': nat, v': nat, rhs: seq<Symbol>)
    requires Shaped(r, v, rhs) && Shaped(r', v', rhs)
    ensures r == r' && v == v'
  {
    if |rhs| == 3 && rhs[0].N? {
      OpsDistinct(r, v - 1);
      OpsDistinct(r', v' - 1);
    } else if |rhs| == 1 && rhs[0].T? && r == UNARY_OP {
      UnaryOpsDistinct(v);
      if r' == UNARY_OP {
        UnaryOpsDistinct(v');
      }
    }
  }

  /** Equal strings with tails of equal length, or one tail inside the other. */
  lemma {:induction false} TailsOf(a: seq<Symbol>, b: seq<Symbol>, c: seq<Symbol>, d: seq<Symbol>)
    requires a + b == c + d && |b| <= |d|
    ensures b == d[|d| - |b|..] && a == c + d[..|d| - |b|]
  {
    var f := a + b;
    assert b == f[|f| - |b|..] && a == f[..|f| - |b|];
    assert d[|d| - |b|..] == (c + d)[|f| - |b|..] && c + d[..|d| - |b|] == (c + d)[..|f| - |b|];
  }

  /** A variant that ends like a longer one may not stand behind that one's beginning. */
  lemma {:induction false} ShorterEndsNot(r: nat, v: nat, rhs: seq<Symbol>, r': nat, v': nat, rhs': seq<Symbol>,
          pre: seq<Symbol>, pre': seq<Symbol>)
    requires Shaped(r, v, rhs) && Shaped(r', v', rhs') && |rhs| < |rhs'|
    requires rhs == rhs'[|rhs'| - |rhs|..] && pre == pre' + rhs'[..|rhs'| - |rhs|]
    ensures Highest(pre).Some? ==> r > Highest(pre).value
  {
    hide Highest, LevelOf, Ops;
    var n := |rhs'| - |rhs|;
    assert rhs[0] == rhs'[n];
    if |rhs'| == 2 {
      assert rhs'[..n] == [N(UNARY_OP)];
      HighestBehind(pre', N(UNARY_OP));
    } else if |rhs| == 1 && r' != PRIMARY {
      assert rhs'[..n] == [N(r'), rhs'[1]];
      HighestBehindOperator(pre', r', rhs'[1].tok);
    }
  }

  lemma {:induction false} OneCompleteFits(phi: seq<Symbol>, it: Item, pre: seq<Symbol>, p: Item, pre': seq<Symbol>)
    requires Fits(phi, it, pre) && Fits(phi, p, pre') && Complete(LADDER, it) && Complete(LADDER, p)
    requires |Rhs(LADDER, it.rule, it.variant)| <= |Rhs(LADDER, p.rule, p.variant)|
    ensures it.rule == p.rule && it.variant == p.variant
  {
    var rhs, rhs' := Rhs(LADDER, it.rule, it.variant), Rhs(LADDER, p.rule, p.variant);
    assert rhs[..it.pos] == rhs && rhs'[..p.pos] == rhs';
    hide Highest, Shaped, MayFollow, LADDER;
    TailsOf(pre, rhs, pre', rhs');
    if |rhs| < |rhs'| {
      ShorterEndsNot(it.rule, it.variant, rhs, p.rule, p.variant, rhs', pre, pre');
    } else {
      assert rhs == rhs';
      OneVariantOfShape(it.rule, it.variant, p.rule, p.variant, rhs);
    }
  }

  /** No two variants of the ladder are complete together. */
  lemma {:induction false} LadderIsAccepted()
    ensures !TwoComplete(LADDER)
  {
    if phi, it, p :| TwoCompleteAt(LADDER, phi, it, p) {
      hide Valid, LADDER, Fits;
      var pre := ValidFits(phi, it);
      var pre' := ValidFits(phi, p);
      WhicheverIsShorter(phi, it, pre, p, pre');
    }
  }

  lemma {:induction false} WhicheverIsShorter(phi: seq<Symbol>, it: Item, pre: seq<Symbol>, p: Item, pre': seq<Symbol>)
    requires Fits(phi, it, pre) && Fits(phi, p, pre') && Complete(LADDER, it) && Complete(LADDER, p)
    ensures it.rule == p.rule && it.variant == p.variant
  {
    if |Rhs(LADDER, it.rule, it.variant)| <= |Rhs(LADDER, p.rule, p.variant)| {
      OneCompleteFits(phi, it, pre, p, pre');
    } else {
      OneCompleteFits(phi, p, pre', it, pre);
    }
  }

  // ------------------------------------------------------- shifts against reductions

  /** The last symbol of a variant and what precedes the variant. */
  lemma {:induction false} NothingBehindVariant(r: nat, v: nat, rhs: seq<Symbol>, pre: seq<Symbol>)
    requires Shaped(r, v, rhs) && Highest(pre).Some?
    ensures Highest(pre + rhs).None?
  {
    hide Ops;
    var phi := pre + rhs;
    assert phi[|phi| - 1] == rhs[|rhs| - 1];
    assert |rhs| > 1 ==> phi[|phi| - 2] == rhs[|rhs| - 2];
    assert |rhs| == 1 && |pre| > 0 ==> phi[|phi| - 2] == pre[|pre| - 1];
  }

  /** An item whose next symbol is a token stands at the start of its variant, before the
      operator of a level, or before a closing parenthesis. */
  lemma {:induction false} NextTokenCases(p: Item, t: int, rhs: seq<Symbol>)
    requires Shaped(p.rule, p.variant, rhs) && p.pos < |rhs| && rhs[p.pos].T? && rhs[p.pos].tok == t
    ensures
      || p.pos == 0
      || (p.pos == 1 && IsLevel(p.rule) && rhs[..1] == [N(p.rule)] && LevelOf(t) == p.rule)
      || (p.pos == 2 && rhs[..2] == [T(TKN_LPAREN), N(EXPR)] && t == TKN_RPAREN)
  {
  }

  /** A complete variant that ends with the reference to level k belongs to a higher rule. */
  lemma {:induction false} CompleteAbove(r: nat, v: nat, rhs: seq<Symbol>, k: nat)
    requires Shaped(r, v, rhs) && rhs[|rhs| - 1] == N(k)
    ensures IsLevel(k) ==> r == k + 1
    ensures k == EXPR ==> r == ROOT && rhs == [N(EXPR)]
  {
  }

  lemma {:induction false} NotAfterHigher(r: nat, look: int, k: nat)
    requires MayFollow(r, look) && r > k && IsLevel(k)
    ensures LevelOf(look) != k
  {
  }

  /** A valid complete item and a valid item before a token do not ask for the same token. */
  lemma {:induction false} NoClashFits(phi: seq<Symbol>, it: Item, pre: seq<Symbol>, p: Item, pre': seq<Symbol>)
    requires Fits(phi, it, pre) && Fits(phi, p, pre') && Complete(LADDER, it)
    ensures Next(LADDER, p).Some? && Next(LADDER, p).value.T? ==> Next(LADDER, p).value.tok != it.look
  {
    var rhs, rhs' := Rhs(LADDER, it.rule, it.variant), Rhs(LADDER, p.rule, p.variant);
    assert rhs[..it.pos] == rhs && pre' + rhs'[..0] == pre';
    if p.pos < |rhs'| && rhs'[p.pos].T? && rhs'[p.pos].tok == it.look {
      hide Highest, Shaped, MayFollow, LADDER, LevelOf;
      NextTokenCases(p, it.look, rhs');
      NothingBehindVariant(it.rule, it.variant, rhs, pre);
      ShapedNotEmpty(it.rule, it.variant, rhs);
      if p.pos > 0 {
        var n := p.pos;
        assert phi[|phi| - 1] == rhs[|rhs| - 1] == rhs'[..n][n - 1];
        if n == 1 {
          CompleteAbove(it.rule, it.variant, rhs, p.rule);
          NotAfterHigher(it.rule, it.look, p.rule);
        } else {
          CompleteAbove(it.rule, it.variant, rhs, EXPR);
          RootBehindParenthesis(pre, pre', phi);
        }
      }
    }
  }

  lemma {:induction false} ShapedNotEmpty(r: nat, v: nat, rhs: seq<Symbol>)
    requires Shaped(r, v, rhs)
    ensures rhs != []
  {
  }

  lemma {:induction false} RootBehindParenthesis(pre: seq<Symbol>, pre': seq<Symbol>, phi: seq<Symbol>)
    requires phi == pre + [N(EXPR)] == pre' + [T(TKN_LPAREN), N(EXPR)]
    ensures Highest(pre) == Some(EXPR)
  {
    assert pre == phi[..|phi| - 1] == pre' + [T(TKN_LPAREN)];
    HighestBehind(pre', T(TKN_LPAREN));
  }

  /** The ladder never asks for a reduction and a shift on the same token. */
  lemma {:induction false} LadderIsConflictFree()
    ensures !ShiftReduce(LADDER)
  {
    if phi, it, p :| ShiftReduceAt(LADDER, phi, it, p) {
      hide Valid, LADDER, Fits, Next, Complete;
      var pre := ValidFits(phi, it);
      var pre' := ValidFits(phi, p);
      NoClashFits(phi, it, pre, p, pre');
    }
  }

  // ----------------------------------------------------------- the ladder in operation

  lemma {:induction false} RuleProduces(r: nat) returns (t: Tree)
    requires r <= ROOT
    ensures Derives(LADDER, N(r), t)
  {
    if r == UNARY_OP {
      t := Node(UNARY_OP, 0, [Leaf(Lexeme(UNARY_OPS[0], 0, 0))]);
    } else if r == ROOT {
      var u := RuleProduces(EXPR);
      t := Node(ROOT, 0, [u]);
      LadderIsProper();
    } else {
      t := ShowBuilds(Ident(0, 0), r);
    }
  }

  lemma {:induction false} LadderIsProductive()
    ensures Productive(LADDER)
  {
    assert |LADDER.rules| == ROOT + 1;
    hide Derives, LADDER;
    forall r: nat | r < |LADDER.rules|
      ensures Produces(LADDER, r)
    {
      var t := RuleProduces(r);
    }
  }

  /** Reads an expression of the ladder: generates the tables, parses, and reduces. It finds a
      tree exactly for the token strings that have a derivation, and any printed tree comes
      back. */
  method ReadExpression(w: seq<Lexeme>) returns (e: Option<Expr>)
    requires InputOk(w)
    ensures e.Some? <==> exists t :: Derives(LADDER, N(EXPR), t) && Yield(t) == w
    ensures forall x :: Prints(w, x) ==> e == Some(x)
  {
    LadderIsProper();
    LadderIsProductive();
    LadderIsAccepted();
    LadderIsConflictFree();
    hide *;
    var ok, table, outcome := GenerateAndParse(LADDER, w);
    AnswerOf(table, w, outcome);
    match outcome {
      case Accepted(tree) => e := Reduce(tree);
      case _ => e := None;
    }
    forall x | Prints(w, x)
      ensures e == Some(x)
    {
      var t := PrintedTree(w, x);
    }
  }

  lemma {:induction false} AnswerOf(table: seq<ParserState>, w: seq<Lexeme>, o: Outcome)
    requires Rooted(LADDER) && Body(LADDER) == N(EXPR) && Decided(LADDER, table, w, o)
    ensures o.Accepted? ==> Derives(LADDER, N(EXPR), o.tree) && Yield(o.tree) == w && Reduce(o.tree).Some?
    ensures !o.Accepted? ==> forall t :: Derives(LADDER, N(EXPR), t) ==> Yield(t) != w
  {
    if o.Accepted? {
      ReducersNeverAbort(EXPR, o.tree);
    }
  }
}
