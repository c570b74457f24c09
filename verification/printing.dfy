/** Printing trees of operators with the parentheses the ladder requires, and reading
    them back through derivations and reducers. */
module Printing {
  import opened Options
  import opened TokenSets
  import opened Tokens
  import opened Grammars
  import Items
  import opened Tables
  import opened Machine
  import opened Soundness
  import opened Completeness
  import opened Errors
  import opened Ladder
  import opened Precedence

  // --------------------------------------------------------------------------- printing

  function BinaryToken(op: BinaryOp): Token {
    match op
    case Mul => TKN_MUL_OP
    case Div => TKN_DIV_OP
    case Mod => TKN_MOD_OP
    case Add => TKN_ADD_OP
    case Sub => TKN_SUB_OP
    case ShiftLeft => TKN_LEFT_OP
    case ShiftRight => TKN_RIGHT_OP
    case Less => TKN_LT_OP
    case Greater => TKN_GT_OP
    case AtMost => TKN_LE_OP
    case AtLeast => TKN_GE_OP
    case Equal => TKN_EQ_OP
    case Unequal => TKN_NE_OP
    case BitAnd => TKN_BITWISE_AND
    case BitXor => TKN_BITWISE_XOR
    case BitOr => TKN_BITWISE_OR
    case And => TKN_AND_OP
    case Or => TKN_OR_OP
  }

  function UnaryToken(op: UnaryOp): Token {
    match op
    case Address => TKN_BITWISE_AND
    case Deref => TKN_MUL_OP
    case Positive => TKN_ADD_OP
    case Negative => TKN_SUB_OP
    case BitNot => TKN_BITWISE_NOT
    case Not => TKN_NOT_OP
  }

  /** A token whose text does not matter. */
  function Mark(id: int): Lexeme {
    Lexeme(id, 0, 0)
  }

  /** The lowest rule that derives the tree without parentheses around it. */
  function RuleOf(e: Expr): nat {
    match e
    case Ident(_, _) => PRIMARY
    case Unary(_, _) => UNARY
    case Binary(op, _, _) => LevelOf(BinaryToken(op))
  }

  lemma {:induction false} BinaryTokenLevel(op: BinaryOp)
    ensures IsLevel(LevelOf(BinaryToken(op))) && BinaryToken(op) in Ops(LevelOf(BinaryToken(op)))
    ensures BinaryOpOf(BinaryToken(op)) == Some(op)
  {
  }

  lemma {:induction false} UnaryTokenIsOp(op: UnaryOp)
    ensures UnaryToken(op) in UNARY_OPS && UnaryOpOf(UnaryToken(op)) == Some(op)
  {
  }

  lemma {:induction false} RuleOfOnChain(e: Expr)
    ensures RuleOf(e) == PRIMARY || RuleOf(e) == UNARY || IsLevel(RuleOf(e))
    ensures RuleOf(e) <= OR < EXPR
  {
    if e.Binary? {
      BinaryTokenLevel(e.binaryOp);
    }
  }

  /** The tokens of the tree where the grammar wants rule r: in parentheses only if that
      rule does not derive it otherwise. A level is left-associative: its left operand is
      printed for the same level, its right operand for the one below. */
  function Show(e: Expr, r: nat): seq<Lexeme>
    decreases e, if RuleOf(e) > r then 1 else 0
  {
    if RuleOf(e) > r then [Mark(TKN_LPAREN)] + Show(e, EXPR) + [Mark(TKN_RPAREN)]
    else
      match e
      case Ident(first, last) => [Lexeme(TKN_IDENT, first, last)]
      case Unary(op, x) => [Mark(UnaryToken(op))] + Show(x, CAST)
      case Binary(op, x, y) => Show(x, RuleOf(e)) + [Mark(BinaryToken(op))] + Show(y, Below(RuleOf(e)))
  }

  // ------------------------------------------------------------------------ derivations

  /** Derivation t of rule `from`, taken up to rule r through rules of one reference. */
  function Lift(from: nat, r: nat, t: Tree): Tree
    decreases r
  {
    if from == r || Below(r) >= r then t else Node(r, 0, [Lift(from, Below(r), t)])
  }

  predicate OnChain(r: nat) {
    r <= EXPR && r != UNARY_OP
  }

  lemma {:induction false} BelowOnChain(r: nat, from: nat)
    requires OnChain(r) && OnChain(from) && from < r
    ensures from <= Below(r) < r && OnChain(Below(r)) && r != PRIMARY
  {
  }

  lemma {:induction false} UnitDerives(r: nat, t: Tree)
    requires OnChain(r) && r != PRIMARY && Derives(LADDER, N(Below(r)), t)
    ensures Derives(LADDER, N(r), Node(r, 0, [t]))
  {
    assert Rhs(LADDER, r, 0) == [N(Below(r))];
    assert DerivesAll(LADDER, [N(Below(r))], [t]);
  }

  /** A derivation that spells w and that the reducers turn into e. */
  ghost predicate Builds(r: nat, t: Tree, w: seq<Lexeme>, e: Expr) {
    Derives(LADDER, N(r), t) && Yield(t) == w && Reduce(t) == Some(e)
  }

  lemma {:induction false} LiftBuilds(from: nat, r: nat, t: Tree, w: seq<Lexeme>, e: Expr)
    requires OnChain(from) && OnChain(r) && from <= r && Builds(from, t, w, e)
    ensures Builds(r, Lift(from, r, t), w, e)
    decreases r
  {
    if from < r {
      BelowOnChain(r, from);
      LiftBuilds(from, Below(r), t, w, e);
      var u := Lift(from, Below(r), t);
      UnitDerives(r, u);
      YieldOfKids(Node(r, 0, [u]));
    }
  }

  lemma {:induction false} ParenBuilds(t: Tree, w: seq<Lexeme>, e: Expr, l: Lexeme, p: Lexeme)
    requires Builds(EXPR, t, w, e) && l.id == TKN_LPAREN && p.id == TKN_RPAREN
    ensures Builds(PRIMARY, Node(PRIMARY, 1, [Leaf(l), t, Leaf(p)]), [l] + w + [p], e)
  {
    var n := Node(PRIMARY, 1, [Leaf(l), t, Leaf(p)]);
    assert Rhs(LADDER, PRIMARY, 1) == [T(TKN_LPAREN), N(EXPR), T(TKN_RPAREN)];
    assert DerivesAll(LADDER, Rhs(LADDER, PRIMARY, 1), n.kids);
    YieldOfKids(n);
  }

  lemma {:induction false} UnaryBuilds(op: UnaryOp, l: Lexeme, t: Tree, w: seq<Lexeme>, x: Expr) returns (n: Tree)
    requires Builds(CAST, t, w, x) && l.id == UnaryToken(op)
    ensures Builds(UNARY, n, [l] + w, Unary(op, x)) && n.Node? && n.variant > 0
  {
    UnaryTokenIsOp(op);
    var i := IndexIn(UNARY_OPS, l.id);
    var o := Node(UNARY_OP, i, [Leaf(l)]);
    assert Rhs(LADDER, UNARY_OP, i) == [T(UNARY_OPS[i])];
    assert DerivesAll(LADDER, Rhs(LADDER, UNARY_OP, i), o.kids);
    n := Node(UNARY, 1, [o, t]);
    assert Rhs(LADDER, UNARY, 1) == [N(UNARY_OP), N(CAST)];
    assert DerivesAll(LADDER, Rhs(LADDER, UNARY, 1), n.kids);
    YieldOfKids(o);
    YieldOfKids(n);
  }

  lemma {:induction false} BinaryBuilds(op: BinaryOp, k: nat, l: Lexeme, t: Tree, v: seq<Lexeme>, x: Expr, u: Tree,
          w: seq<Lexeme>, y: Expr)
    returns (n: Tree)
    requires k == LevelOf(BinaryToken(op)) && l.id == BinaryToken(op)
    requires Builds(k, t, v, x) && Builds(Below(k), u, w, y)
    ensures Builds(k, n, v + [l] + w, Binary(op, x, y)) && n.Node? && n.variant > 0
  {
    BinaryTokenLevel(op);
    var i := IndexIn(Ops(k), l.id);
    n := Node(k, 1 + i, [t, Leaf(l), u]);
    assert Rhs(LADDER, k, 1 + i) == LevelVariant(k, i);
    assert DerivesAll(LADDER, LevelVariant(k, i), n.kids);
    YieldOfKids(n);
    assert Yield(Leaf(l)) == [l];
  }

  /** The printed tokens have a derivation that reduces to the tree. */
  lemma {:induction false} ShowBuilds(e: Expr, r: nat) returns (t: Tree)
    requires OnChain(r)
    ensures Builds(r, t, Show(e, r), e)
    decreases e, if RuleOf(e) > r then 1 else 0
  {
    if RuleOf(e) > r {
      var u := ShowBuilds(e, EXPR);
      ParenBuilds(u, Show(e, EXPR), e, Mark(TKN_LPAREN), Mark(TKN_RPAREN));
      t := Node(PRIMARY, 1, [Leaf(Mark(TKN_LPAREN)), u, Leaf(Mark(TKN_RPAREN))]);
      LiftBuilds(PRIMARY, r, t, Show(e, r), e);
      t := Lift(PRIMARY, r, t);
    } else {
      t := ShowBare(e, r);
      LiftBuilds(RuleOf(e), r, t, Show(e, r), e);
      t := Lift(RuleOf(e), r, t);
    }
  }

  lemma {:induction false} ShowBare(e: Expr, r: nat) returns (t: Tree)
    requires OnChain(r) && RuleOf(e) <= r
    ensures Builds(RuleOf(e), t, Show(e, r), e) && t.Node? && (e.Ident? || t.variant > 0)
    decreases e, 0, 0
  {
    match e {
      case Ident(first, last) =>
        t := Node(PRIMARY, 0, [Leaf(Lexeme(TKN_IDENT, first, last))]);
        assert Rhs(LADDER, PRIMARY, 0) == [T(TKN_IDENT)];
        assert DerivesAll(LADDER, Rhs(LADDER, PRIMARY, 0), t.kids);
        YieldOfKids(t);
      case Unary(op, x) =>
        var u := ShowBuilds(x, CAST);
        t := UnaryBuilds(op, Mark(UnaryToken(op)), u, Show(x, CAST), x);
      case Binary(op, x, y) =>
        var k := RuleOf(e);
        var u := ShowBuilds(x, k);
        var v := ShowBuilds(y, Below(k));
        t := BinaryBuilds(op, k, Mark(BinaryToken(op)), u, Show(x, k), x, v, Show(y, Below(k)), y);
    }
  }

  // ------------------------------------------------------------------- reducers on any derivation

  /** The trees that a reducer joins, in the order of the symbols. */
  function Joined(op: Option<BinaryOp>, lhs: Option<Expr>, rhs: Option<Expr>): Option<Expr> {
    if op.Some? && lhs.Some? && rhs.Some? then Some(Binary(op.value, lhs.value, rhs.value)) else None
  }

  function Applied(op: Option<UnaryOp>, target: Option<Expr>): Option<Expr> {
    if op.Some? && target.Some? then Some(Unary(op.value, target.value)) else None
  }

  lemma {:induction false} ReduceIdent(t: Tree)
    requires Derives(LADDER, N(PRIMARY), t) && t.variant == 0
    ensures |t.kids| == 1 && t.kids[0].Leaf? && t.kids[0].lexeme.id == TKN_IDENT
    ensures Reduce(t) == Some(Ident(t.kids[0].lexeme.first, t.kids[0].lexeme.last))
  {
    IdentKid(t);
  }

  lemma {:induction false} ReduceParen(t: Tree)
    requires Derives(LADDER, N(PRIMARY), t) && t.variant != 0
    ensures |t.kids| == 3 && Derives(LADDER, N(EXPR), t.kids[1]) && Reduce(t) == Reduce(t.kids[1])
  {
    ParenKids(t);
  }

  lemma {:induction false} ReduceUnit(r: nat, t: Tree)
    requires OnChain(r) && r != PRIMARY && Derives(LADDER, N(r), t) && t.variant == 0
    ensures |t.kids| == 1 && Derives(LADDER, N(Below(r)), t.kids[0]) && Reduce(t) == Reduce(t.kids[0])
  {
    UnitKid(r, t);
  }

  lemma {:induction false} ReduceUnary(t: Tree)
    requires Derives(LADDER, N(UNARY), t) && t.variant != 0
    ensures |t.kids| == 2 && Derives(LADDER, N(CAST), t.kids[1]) && Derives(LADDER, N(UNARY_OP), t.kids[0])
    ensures Reduce(t) == Applied(ReduceUnaryOp(t.kids[0]), Reduce(t.kids[1])) && ReduceUnaryOp(t.kids[0]).Some?
  {
    UnaryKids(t);
    OperatorKid(t.kids[0]);
  }

  lemma {:induction false} LevelOpIsBinary(k: nat, id: int)
    requires id in Ops(k)
    ensures BinaryOpOf(id).Some?
  {
  }

  lemma {:induction false} ReduceBinary(k: nat, t: Tree)
    requires IsLevel(k) && Derives(LADDER, N(k), t) && t.variant != 0
    ensures |t.kids| == 3 && Derives(LADDER, N(k), t.kids[0]) && Derives(LADDER, N(Below(k)), t.kids[2])
    ensures t.kids[1].Leaf? && BinaryOpOf(t.kids[1].lexeme.id).Some?
    ensures Reduce(t) == Joined(BinaryOpOf(t.kids[1].lexeme.id), Reduce(t.kids[0]), Reduce(t.kids[2]))
  {
    BinaryKids(k, t);
    LevelOpIsBinary(k, t.kids[1].lexeme.id);
    hide Derives, DerivesAll, Ops, BinaryOpOf;
  }

  /** No reducer of the ladder aborts on a derivation. */
  lemma {:induction false} ReducersNeverAbort(r: nat, t: Tree)
    requires OnChain(r) && Derives(LADDER, N(r), t)
    ensures Reduce(t).Some?
    decreases t
  {
    VariantOf(r, t);
    hide Derives, DerivesAll, Reduce, ReduceUnaryOp, BinaryOpOf;
    if r == PRIMARY && t.variant == 0 {
      ReduceIdent(t);
    } else if r == PRIMARY {
      ReduceParen(t);
      ReducersNeverAbort(EXPR, t.kids[1]);
    } else if t.variant == 0 {
      ReduceUnit(r, t);
      ReducersNeverAbort(Below(r), t.kids[0]);
    } else if r == UNARY {
      ReduceUnary(t);
      ReducersNeverAbort(CAST, t.kids[1]);
    } else {
      ReduceBinary(r, t);
      ReducersNeverAbort(r, t.kids[0]);
      ReducersNeverAbort(Below(r), t.kids[2]);
    }
  }

  // ------------------------------------------------------------------ needed parentheses

  lemma {:induction false} LiftInjective(from: nat, from': nat, r: nat, t: Tree, t': Tree)
    requires OnChain(from) && OnChain(from') && OnChain(r) && from < from' <= r
    requires Lift(from, r, t) == Lift(from', r, t')
    ensures t' == Lift(from, from', t)
    decreases r
  {
    if from' < r {
      BelowOnChain(r, from);
      BelowOnChain(r, from');
      LiftInjective(from, from', Below(r), t, t');
    }
  }

  /** Parentheses are printed only where the tree could not be derived without. */
  lemma {:induction false} ParenthesesNeeded(e: Expr, r: nat, t: Tree)
    requires OnChain(r) && r < RuleOf(e) && Derives(LADDER, N(r), t)
    ensures Yield(t) != Show(e, EXPR)
  {
    RuleOfOnChain(e);
    if Yield(t) == Show(e, EXPR) {
      ReducersNeverAbort(r, t);
      var bare := ShowBare(e, EXPR);
      LiftBuilds(r, EXPR, t, Yield(t), Reduce(t).value);
      LiftBuilds(RuleOf(e), EXPR, bare, Yield(t), e);
      UniqueDerivation(EXPR, Lift(r, EXPR, t), Lift(RuleOf(e), EXPR, bare));
      LiftInjective(r, RuleOf(e), EXPR, t, bare);
      BelowOnChain(RuleOf(e), r);
    }
  }

  // ----------------------------------------------------------- texts that do not matter

  /** Forgets the text of every token but identifiers. */
  function Erase(l: Lexeme): Lexeme {
    if l.id == TKN_IDENT then l else Mark(l.id)
  }

  function EraseAll(w: seq<Lexeme>): seq<Lexeme> {
    seq(|w|, i requires 0 <= i < |w| => Erase(w[i]))
  }

  function EraseTree(t: Tree): Tree {
    match t
    case Leaf(l) => Leaf(Erase(l))
    case Node(r, v, kids) => Node(r, v, seq(|kids|, i requires 0 <= i < |kids| => EraseTree(kids[i])))
  }

  lemma {:induction false} ErasedDerives(g: Grammar, x: Symbol, t: Tree)
    requires Derives(g, x, t)
    ensures Derives(g, x, EraseTree(t))
    decreases t
  {
    if t.Node? {
      forall i | 0 <= i < |t.kids|
        ensures Derives(g, Rhs(g, t.rule, t.variant)[i], EraseTree(t).kids[i])
      {
        ErasedDerives(g, Rhs(g, t.rule, t.variant)[i], t.kids[i]);
      }
    }
  }

  lemma {:induction false} EraseAllConcat(v: seq<Lexeme>, w: seq<Lexeme>)
    ensures EraseAll(v + w) == EraseAll(v) + EraseAll(w)
  {
  }

  lemma {:induction false} ErasedYield(t: Tree)
    ensures Yield(EraseTree(t)) == EraseAll(Yield(t))
    decreases t, 0
  {
    if t.Node? {
      ErasedYields(t, 0);
    }
  }

  lemma {:induction false} ErasedYields(t: Tree, n: nat)
    requires t.Node? && n <= |t.kids|
    ensures YieldAll(EraseTree(t).kids[n..]) == EraseAll(YieldAll(t.kids[n..]))
    decreases t, 0, |t.kids| - n
  {
    var kids, erased := t.kids[n..], EraseTree(t).kids[n..];
    if kids != [] {
      ErasedYield(kids[0]);
      ErasedYields(t, n + 1);
      assert erased[0] == EraseTree(kids[0]);
      assert erased[1..] == EraseTree(t).kids[n + 1..] && kids[1..] == t.kids[n + 1..];
      YieldAllSplit(kids);
      YieldAllSplit(erased);
      EraseAllConcat(Yield(kids[0]), YieldAll(kids[1..]));
    }
  }

  lemma {:induction false} ErasedKids(t: Tree)
    requires t.Node?
    ensures EraseTree(t).Node? && EraseTree(t).rule == t.rule && EraseTree(t).variant == t.variant
    ensures |EraseTree(t).kids| == |t.kids|
    ensures forall i :: 0 <= i < |t.kids| ==> EraseTree(t).kids[i] == EraseTree(t.kids[i])
  {
  }

  lemma {:induction false} ErasedUnaryOp(t: Tree)
    requires Derives(LADDER, N(UNARY_OP), t)
    ensures ReduceUnaryOp(EraseTree(t)) == ReduceUnaryOp(t)
  {
    OperatorKid(t);
    ErasedKids(t);
    assert EraseTree(t.kids[0]) == Leaf(Erase(t.kids[0].lexeme));
  }

  /** The reducers look at no other text. */
  lemma {:induction false} ErasedReduce(r: nat, t: Tree)
    requires OnChain(r) && Derives(LADDER, N(r), t)
    ensures Reduce(EraseTree(t)) == Reduce(t)
    decreases t
  {
    VariantOf(r, t);
    ErasedDerives(LADDER, N(r), t);
    ErasedKids(t);
    var u := EraseTree(t);
    hide Derives, DerivesAll, Reduce, ReduceUnaryOp, BinaryOpOf;
    if r == PRIMARY && t.variant == 0 {
      ReduceIdent(t);
      ReduceIdent(u);
    } else if r == PRIMARY {
      ReduceParen(t);
      ReduceParen(u);
      ErasedReduce(EXPR, t.kids[1]);
    } else if t.variant == 0 {
      ReduceUnit(r, t);
      ReduceUnit(r, u);
      ErasedReduce(Below(r), t.kids[0]);
    } else if r == UNARY {
      ReduceUnary(t);
      ReduceUnary(u);
      ErasedUnaryOp(t.kids[0]);
      ErasedReduce(CAST, t.kids[1]);
    } else {
      ReduceBinary(r, t);
      ReduceBinary(r, u);
      ErasedReduce(r, t.kids[0]);
      ErasedReduce(Below(r), t.kids[2]);
    }
  }

  // -------------------------------------------------------------------------- round trip

  lemma {:induction false} ErasedIds(w: seq<Lexeme>)
    ensures Ids(EraseAll(w)) == Ids(w)
  {
  }

  /** Any token string that prints the tree, with whatever text behind its operators and
      parentheses, has exactly one derivation as an expression, and the reducers turn that
      derivation into the tree. */
  lemma {:induction false} RoundTrip(e: Expr, w: seq<Lexeme>) returns (t: Tree)
    requires EraseAll(w) == Show(e, EXPR)
    ensures Derives(LADDER, N(EXPR), t) && Yield(t) == w && Reduce(t) == Some(e)
    ensures forall u :: Derives(LADDER, N(EXPR), u) && Yield(u) == w ==> u == t
  {
    var s := ShowBuilds(e, EXPR);
    ErasedIds(w);
    t := Relabel(LADDER, N(EXPR), s, w);
    ErasedDerives(LADDER, N(EXPR), t);
    ErasedYield(t);
    UniqueDerivation(EXPR, EraseTree(t), s);
    ErasedReduce(EXPR, t);
    forall u | Derives(LADDER, N(EXPR), u) && Yield(u) == w
      ensures u == t
    {
      UniqueDerivation(EXPR, u, t);
    }
  }

  lemma {:induction false} SymbolOfLevel(k: nat, i: nat, x: Symbol)
    requires IsLevel(k) && i < |Ops(k)| && x in LevelVariant(k, i)
    ensures x != N(ROOT) && x != T(TKN_EOF) && SymbolOk(LADDER, x)
  {
  }

  lemma {:induction false} SymbolOfVariant(r: nat, v: nat, x: Symbol)
    requires r < 19 && v < |Variants(r)| && x in Variants(r)[v]
    ensures x != N(ROOT) && x != T(TKN_EOF) && SymbolOk(LADDER, x)
  {
    if IsLevel(r) && v > 0 {
      assert Variants(r)[v] == LevelVariant(r, v - 1);
      SymbolOfLevel(r, v - 1, x);
    }
  }

  /** The ladder meets the generator's conditions on grammars. */
  lemma {:induction false} LadderIsProper()
    ensures Proper(LADDER) && Rooted(LADDER) && Body(LADDER) == N(EXPR)
  {
    assert Rhs(LADDER, ROOT, 0) == [N(EXPR)];
    forall r: nat, v: nat | IsVariant(LADDER, r, v)
      ensures Rhs(LADDER, r, v) != [] && N(ROOT) !in Rhs(LADDER, r, v) && T(TKN_EOF) !in Rhs(LADDER, r, v)
      ensures forall x :: x in Rhs(LADDER, r, v) ==> SymbolOk(LADDER, x)
    {
      forall x | x in Rhs(LADDER, r, v)
        ensures x != N(ROOT) && x != T(TKN_EOF) && SymbolOk(LADDER, x)
      {
        SymbolOfVariant(r, v, x);
      }
    }
  }

  /** The parser reads a printed tree back: with tables of the ladder it accepts the
      token string, and the reducers rebuild the tree. */
  lemma {:induction false} ParsedBack(sets: seq<set<Items.Item>>, ids: seq<nat>, table: seq<ParserState>, e: Expr,
          w: seq<Lexeme>) returns (t: Tree)
    requires Setup(LADDER, sets, ids, table) && EraseAll(w) == Show(e, EXPR)
    ensures Finishes(table, w, Accepted(t)) && Reduce(t) == Some(e)
  {
    LadderIsProper();
    hide *;
    t := RoundTrip(e, w);
    DerivedIsAccepted(LADDER, sets, ids, table, t);
  }
}
