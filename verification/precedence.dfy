/** Every derivation of the operator ladder is read back from its tokens by recursive
    descent; so a token string has at most one. */
module Precedence {
  import opened Options
  import opened Tokens
  import opened Grammars
  import opened Ladder

  // ------------------------------------------------------------------------- uniqueness

  /** A derivation read off the front of a token string, and what is left of it. */
  datatype Read = Read(tree: Tree, rest: seq<Lexeme>)

  /** The level of a binary operator, or 0. */
  function LevelOf(id: int): nat {
    if id in Ops(5) then 5 else if id in Ops(6) then 6 else if id in Ops(7) then 7 else if id in Ops(8) then 8
    else if id in Ops(9) then 9 else if id in Ops(10) then 10 else if id in Ops(11) then 11
    else if id in Ops(12) then 12 else if id in Ops(13) then 13 else if id in Ops(14) then 14 else 0
  }

  lemma {:induction false} LevelOfOps(k: nat, id: int)
    requires IsLevel(k)
    ensures id in Ops(k) <==> LevelOf(id) == k
  {
  }

  /** Reads a derivation of rule r by recursive descent, the left recursion of a level
      turned into repetition. Any derivation is read back by it, so there is only one. */
  function ReadRule(r: nat, ts: seq<Lexeme>): (d: Option<Read>)
    ensures d.Some? ==> |d.value.rest| < |ts|
    decreases |ts|, r, 1
  {
    if r == PRIMARY then ReadPrimary(ts)
    else if r == UNARY && ts != [] && ts[0].id in UNARY_OPS then
      var c :- ReadRule(CAST, ts[1..]);
      Some(Read(Node(UNARY, 1, [Node(UNARY_OP, IndexIn(UNARY_OPS, ts[0].id), [Leaf(ts[0])]), c.tree]), c.rest))
    else if Below(r) >= r then None
    else
      var c :- ReadRule(Below(r), ts);
      var unit := Node(r, 0, [c.tree]);
      if IsLevel(r) then ReadMore(r, unit, c.rest) else Some(Read(unit, c.rest))
  }

  function ReadPrimary(ts: seq<Lexeme>): (d: Option<Read>)
    ensures d.Some? ==> |d.value.rest| < |ts|
    decreases |ts|, 0, 0
  {
    if ts == [] then None
    else if ts[0].id == TKN_IDENT then Some(Read(Node(PRIMARY, 0, [Leaf(ts[0])]), ts[1..]))
    else if ts[0].id != TKN_LPAREN then None
    else
      var e :- ReadRule(EXPR, ts[1..]);
      if e.rest == [] || e.rest[0].id != TKN_RPAREN then None
      else Some(Read(Node(PRIMARY, 1, [Leaf(ts[0]), e.tree, Leaf(e.rest[0])]), e.rest[1..]))
  }

  /** Goes on with the operators of level k after the operand `left`. */
  function ReadMore(k: nat, left: Tree, ts: seq<Lexeme>): (d: Option<Read>)
    ensures d.Some? ==> |d.value.rest| <= |ts|
    decreases |ts|, k, 0
  {
    if ts == [] || ts[0].id !in Ops(k) then Some(Read(left, ts))
    else
      var c :- ReadRule(Below(k), ts[1..]);
      ReadMore(k, Node(k, 1 + IndexIn(Ops(k), ts[0].id), [left, Leaf(ts[0]), c.tree]), c.rest)
  }

  /** What follows does not continue a phrase below rule r. */
  predicate Stops(r: nat, rest: seq<Lexeme>) {
    rest != [] ==> var k := LevelOf(rest[0].id); k < PRODUCT || k >= r
  }

  /** Reading a derivation of rule r with `rest` behind it. */
  function ReadBack(r: nat, t: Tree, rest: seq<Lexeme>): Option<Read> {
    if IsLevel(r) then ReadMore(r, t, rest) else Some(Read(t, rest))
  }

  lemma {:induction false} YieldOfKids(t: Tree)
    requires t.Node?
    ensures |t.kids| == 1 ==> Yield(t) == Yield(t.kids[0])
    ensures |t.kids| == 2 ==> Yield(t) == Yield(t.kids[0]) + Yield(t.kids[1])
    ensures |t.kids| == 3 ==> Yield(t) == Yield(t.kids[0]) + Yield(t.kids[1]) + Yield(t.kids[2])
  {
    if |t.kids| > 0 {
      YieldAllSplit(t.kids);
      if |t.kids| > 1 {
        YieldAllSplit(t.kids[1..]);
        if |t.kids| > 2 {
          YieldAllSplit(t.kids[1..][1..]);
        }
      }
    }
  }

  /** A phrase of a rule on the chain begins with an identifier, a parenthesis or a unary
      operator; below unary expressions, not with an operator. */
  lemma {:induction false} PostfixBegins(r: nat, t: Tree)
    requires (r == POSTFIX || r == PRIMARY) && Derives(LADDER, N(r), t)
    ensures Yield(t) != [] && Yield(t)[0].id !in UNARY_OPS
  {
    if r == POSTFIX {
      UnitKid(r, t);
      YieldOfKids(t);
      PostfixBegins(PRIMARY, t.kids[0]);
    } else if t.variant == 0 {
      IdentKid(t);
      YieldOfKids(t);
      assert Yield(t.kids[0]) == [t.kids[0].lexeme];
    } else {
      ParenKids(t);
      YieldOfKids(t);
      assert Yield(t.kids[0]) == [t.kids[0].lexeme];
    }
  }

  lemma {:induction false} ReadsDerivation(r: nat, t: Tree, rest: seq<Lexeme>)
    requires Derives(LADDER, N(r), t) && r <= EXPR && r != UNARY_OP && Stops(r, rest)
    ensures ReadRule(r, Yield(t) + rest) == ReadBack(r, t, rest)
    decreases t, 1
  {
    VariantOf(r, t);
    if r == PRIMARY {
      ReadsPrimary(t, rest);
    } else if t.variant == 0 {
      ReadsUnit(r, t, rest);
    } else if r == UNARY {
      ReadsUnary(t, rest);
    } else {
      ReadsBinary(r, t, rest);
    }
  }

  lemma {:induction false} ReadsPrimary(t: Tree, rest: seq<Lexeme>)
    requires Derives(LADDER, N(PRIMARY), t)
    ensures ReadRule(PRIMARY, Yield(t) + rest) == Some(Read(t, rest))
    decreases t, 0
  {
    YieldOfKids(t);
    if t.variant == 0 {
      IdentKid(t);
      assert Yield(t) + rest == [t.kids[0].lexeme] + rest;
    } else {
      ParenKids(t);
      var l, e, p := t.kids[0].lexeme, t.kids[1], t.kids[2].lexeme;
      assert Yield(t) + rest == [l] + (Yield(e) + ([p] + rest));
      ReadsDerivation(EXPR, e, [p] + rest);
    }
  }

  lemma {:induction false} ReadsUnit(r: nat, t: Tree, rest: seq<Lexeme>)
    requires Derives(LADDER, N(r), t) && t.variant == 0 && r <= EXPR && r != UNARY_OP && r != PRIMARY && Stops(r, rest)
    ensures ReadRule(r, Yield(t) + rest) == ReadBack(r, t, rest)
    decreases t, 0
  {
    UnitKid(r, t);
    YieldOfKids(t);
    var c := t.kids[0];
    if r == UNARY {
      PostfixBegins(POSTFIX, c);
    }
    StopsOperand(r, c, rest);
    ReadsDerivation(Below(r), c, rest);
    assert ReadRule(Below(r), Yield(t) + rest) == Some(Read(c, rest));
  }

  lemma {:induction false} UnaryStep(op: Lexeme, c: Tree, after: seq<Lexeme>, rest: seq<Lexeme>)
    requires op.id in UNARY_OPS && ReadRule(CAST, after) == Some(Read(c, rest))
    ensures ReadRule(UNARY, [op] + after)
      == Some(Read(Node(UNARY, 1, [Node(UNARY_OP, IndexIn(UNARY_OPS, op.id), [Leaf(op)]), c]), rest))
  {
    assert ([op] + after)[1..] == after;
  }

  lemma {:induction false} ReadsUnary(t: Tree, rest: seq<Lexeme>)
    requires Derives(LADDER, N(UNARY), t) && t.variant != 0 && Stops(UNARY, rest)
    ensures ReadRule(UNARY, Yield(t) + rest) == Some(Read(t, rest))
    decreases t, 0
  {
    UnaryKids(t);
    OperatorKid(t.kids[0]);
    YieldOfKids(t);
    YieldOfKids(t.kids[0]);
    var op, c := t.kids[0].kids[0].lexeme, t.kids[1];
    assert Yield(t.kids[0].kids[0]) == [op];
    assert Stops(CAST, rest);
    hide Derives, DerivesAll, Yield, LevelOf, Ops, ReadRule, Stops;
    ReadsDerivation(CAST, c, rest);
    JoinUnary(t, op, c, rest);
  }

  lemma {:induction false} JoinUnary(t: Tree, op: Lexeme, c: Tree, rest: seq<Lexeme>)
    requires op.id in UNARY_OPS && ReadRule(CAST, Yield(c) + rest) == Some(Read(c, rest))
    requires t == Node(UNARY, 1, [Node(UNARY_OP, IndexIn(UNARY_OPS, op.id), [Leaf(op)]), c])
    requires Yield(t) == [op] + Yield(c)
    ensures ReadRule(UNARY, Yield(t) + rest) == Some(Read(t, rest))
  {
    UnaryStep(op, c, Yield(c) + rest, rest);
    hide Yield, ReadRule;
    assert Yield(t) + rest == [op] + (Yield(c) + rest);
  }

  lemma {:induction false} MoreStep(k: nat, left: Tree, op: Lexeme, c: Tree, after: seq<Lexeme>, rest: seq<Lexeme>)
    requires op.id in Ops(k) && ReadRule(Below(k), after) == Some(Read(c, rest))
    ensures ReadMore(k, left, [op] + after) ==
      ReadMore(k, Node(k, 1 + IndexIn(Ops(k), op.id), [left, Leaf(op), c]), rest)
  {
    assert ([op] + after)[1..] == after;
  }

  /** What stops a level also stops the operand of its operators. */
  lemma {:induction false} StopsOperand(r: nat, c: Tree, rest: seq<Lexeme>)
    requires Stops(r, rest) && r <= EXPR
    ensures Stops(Below(r), rest) && (Below(r) < r ==> ReadBack(Below(r), c, rest) == Some(Read(c, rest)))
  {
    if rest != [] && IsLevel(Below(r)) {
      LevelOfOps(Below(r), rest[0].id);
    }
  }

  lemma {:induction false} StopsAtOperator(k: nat, op: Lexeme, after: seq<Lexeme>)
    requires IsLevel(k) && op.id in Ops(k)
    ensures Stops(k, [op] + after)
  {
    LevelOfOps(k, op.id);
  }

  lemma {:induction false} ReadsBinary(k: nat, t: Tree, rest: seq<Lexeme>)
    requires IsLevel(k) && Derives(LADDER, N(k), t) && t.variant != 0 && Stops(k, rest)
    ensures ReadRule(k, Yield(t) + rest) == ReadMore(k, t, rest)
    decreases t, 0
  {
    BinaryKids(k, t);
    YieldOfKids(t);
    var l, op, c := t.kids[0], t.kids[1].lexeme, t.kids[2];
    assert Yield(t.kids[1]) == [op];
    StopsOperand(k, c, rest);
    StopsAtOperator(k, op, Yield(c) + rest);
    hide Derives, DerivesAll, Yield, LevelOf, Ops, ReadRule, ReadMore, Stops;
    ReadsDerivation(Below(k), c, rest);
    ReadsDerivation(k, l, [op] + (Yield(c) + rest));
    JoinBinary(k, t, l, op, c, rest);
  }

  lemma {:induction false} JoinBinary(k: nat, t: Tree, l: Tree, op: Lexeme, c: Tree, rest: seq<Lexeme>)
    requires op.id in Ops(k) && t == Node(k, 1 + IndexIn(Ops(k), op.id), [l, Leaf(op), c])
    requires Yield(t) == Yield(l) + [op] + Yield(c)
    requires ReadRule(Below(k), Yield(c) + rest) == Some(Read(c, rest))
    requires ReadRule(k, Yield(l) + ([op] + (Yield(c) + rest))) == ReadMore(k, l, [op] + (Yield(c) + rest))
    ensures ReadRule(k, Yield(t) + rest) == ReadMore(k, t, rest)
  {
    hide *;
    MoreStep(k, l, op, c, Yield(c) + rest, rest);
    Regroup(Yield(l), [op], Yield(c), rest);
  }

  lemma {:induction false} Regroup(a: seq<Lexeme>, b: seq<Lexeme>, c: seq<Lexeme>, d: seq<Lexeme>)
    ensures a + b + c + d == a + (b + (c + d))
  {
  }

  /** A token string has at most one derivation from a rule of the ladder. */
  lemma {:induction false} UniqueDerivation(r: nat, t: Tree, u: Tree)
    requires Derives(LADDER, N(r), t) && Derives(LADDER, N(r), u) && Yield(t) == Yield(u)
    requires r <= EXPR && r != UNARY_OP
    ensures t == u
  {
    assert Yield(t) + [] == Yield(t);
    ReadsDerivation(r, t, []);
    ReadsDerivation(r, u, []);
  }
}
