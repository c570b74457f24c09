/** The operator ladder of the expression grammar, restricted to identifiers, parentheses
    and operators, with the reducers that build syntax trees from its derivations. */
module Ladder {
  import opened Options
  import opened TokenSets
  import opened Tokens
  import opened Grammars

  // ----------------------------------------------------------------------- syntax trees

  datatype BinaryOp =
    | Mul | Div | Mod | Add | Sub | ShiftLeft | ShiftRight | Less | Greater | AtMost | AtLeast
    | Equal | Unequal | BitAnd | BitXor | BitOr | And | Or

  datatype UnaryOp = Address | Deref | Positive | Negative | BitNot | Not

  /** An identifier is the text range it covers. */
  datatype Expr =
    | Ident(first: nat, last: nat)
    | Unary(unaryOp: UnaryOp, target: Expr)
    | Binary(binaryOp: BinaryOp, lhs: Expr, rhs: Expr)

  // ---------------------------------------------------------------------------- grammar

  const PRIMARY: nat := 0
  const POSTFIX: nat := 1
  const UNARY: nat := 2
  const UNARY_OP: nat := 3
  const CAST: nat := 4
  /** The ten levels of binary operators are rules 5 to 14, from products to or. */
  const PRODUCT: nat := 5
  const OR: nat := 14
  const CONDITIONAL: nat := 15
  const ASSIGNMENT: nat := 16
  const EXPR: nat := 17
  const ROOT: nat := 18

  predicate IsLevel(k: nat) {
    PRODUCT <= k <= OR
  }

  /** The operators of a level, in the order of the rule's variants. */
  function Ops(k: nat): seq<Token> {
    match k
    case 5 => [TKN_MUL_OP, TKN_DIV_OP, TKN_MOD_OP]
    case 6 => [TKN_ADD_OP, TKN_SUB_OP]
    case 7 => [TKN_LEFT_OP, TKN_RIGHT_OP]
    case 8 => [TKN_LT_OP, TKN_GT_OP, TKN_LE_OP, TKN_GE_OP]
    case 9 => [TKN_EQ_OP, TKN_NE_OP]
    case 10 => [TKN_BITWISE_AND]
    case 11 => [TKN_BITWISE_XOR]
    case 12 => [TKN_BITWISE_OR]
    case 13 => [TKN_AND_OP]
    case 14 => [TKN_OR_OP]
    case _ => []
  }

  const UNARY_OPS: seq<Token> := [TKN_BITWISE_AND, TKN_MUL_OP, TKN_ADD_OP, TKN_SUB_OP, TKN_BITWISE_NOT, TKN_NOT_OP]

  /** The rule that a rule's first variant consists of. */
  function Below(r: nat): nat {
    if r == POSTFIX then PRIMARY
    else if r == UNARY then POSTFIX
    else if r == CAST then UNARY
    else if r > CAST then r - 1
    else 0
  }

  function LevelVariant(k: nat, i: nat): seq<Symbol>
    requires i < |Ops(k)|
  {
    [N(k), T(Ops(k)[i]), N(Below(k))]
  }

  function Variants(r: nat): seq<seq<Symbol>> {
    if r == PRIMARY then [[T(TKN_IDENT)], [T(TKN_LPAREN), N(EXPR), T(TKN_RPAREN)]]
    else if r == UNARY then [[N(POSTFIX)], [N(UNARY_OP), N(CAST)]]
    else if r == UNARY_OP then seq(|UNARY_OPS|, i requires 0 <= i < |UNARY_OPS| => [T(UNARY_OPS[i])])
    else if IsLevel(r) then [[N(Below(r))]] + seq(|Ops(r)|, i requires 0 <= i < |Ops(r)| => LevelVariant(r, i))
    else [[N(Below(r))]]
  }

  function Rules(): seq<seq<seq<Symbol>>> {
    seq(19, r requires 0 <= r < 19 => Variants(r))
  }

  const LADDER: Grammar := Grammar(Rules(), ROOT)

  // --------------------------------------------------------------------------- reducers

  /** The operator of a binary token; the reducer aborts on any other token. */
  function BinaryOpOf(id: int): Option<BinaryOp> {
    if id == TKN_MUL_OP then Some(Mul)
    else if id == TKN_DIV_OP then Some(Div)
    else if id == TKN_MOD_OP then Some(Mod)
    else if id == TKN_ADD_OP then Some(Add)
    else if id == TKN_SUB_OP then Some(Sub)
    else if id == TKN_LEFT_OP then Some(ShiftLeft)
    else if id == TKN_RIGHT_OP then Some(ShiftRight)
    else if id == TKN_LT_OP then Some(Less)
    else if id == TKN_GT_OP then Some(Greater)
    else if id == TKN_LE_OP then Some(AtMost)
    else if id == TKN_GE_OP then Some(AtLeast)
    else if id == TKN_EQ_OP then Some(Equal)
    else if id == TKN_NE_OP then Some(Unequal)
    else if id == TKN_BITWISE_AND then Some(BitAnd)
    else if id == TKN_BITWISE_XOR then Some(BitXor)
    else if id == TKN_BITWISE_OR then Some(BitOr)
    else if id == TKN_AND_OP then Some(And)
    else if id == TKN_OR_OP then Some(Or)
    else None
  }

  function UnaryOpOf(id: int): Option<UnaryOp> {
    if id == TKN_BITWISE_AND then Some(Address)
    else if id == TKN_MUL_OP then Some(Deref)
    else if id == TKN_ADD_OP then Some(Positive)
    else if id == TKN_SUB_OP then Some(Negative)
    else if id == TKN_BITWISE_NOT then Some(BitNot)
    else if id == TKN_NOT_OP then Some(Not)
    else None
  }

  function ReduceUnaryOp(t: Tree): Option<UnaryOp> {
    if t.Node? && t.rule == UNARY_OP && |t.kids| == 1 && t.kids[0].Leaf? then UnaryOpOf(t.kids[0].lexeme.id) else None
  }

  /** The syntax tree the reducers make of a derivation, or None where one aborts. Each
      variant has its reducer; variants without one pass on the tree of their symbol. */
  function Reduce(t: Tree): Option<Expr> {
    if t.Leaf? then None
    else if t.rule == PRIMARY && t.variant == 0 && |t.kids| == 1 && t.kids[0].Leaf? then
      Some(Ident(t.kids[0].lexeme.first, t.kids[0].lexeme.last))
    else if t.rule == PRIMARY && t.variant == 1 && |t.kids| == 3 then Reduce(t.kids[1])
    else if t.rule == UNARY && t.variant == 1 && |t.kids| == 2 then
      var op :- ReduceUnaryOp(t.kids[0]);
      var target :- Reduce(t.kids[1]);
      Some(Unary(op, target))
    else if IsLevel(t.rule) && t.variant > 0 && |t.kids| == 3 && t.kids[1].Leaf? then
      var lhs :- Reduce(t.kids[0]);
      var rhs :- Reduce(t.kids[2]);
      var op :- BinaryOpOf(t.kids[1].lexeme.id);
      Some(Binary(op, lhs, rhs))
    else if |t.kids| == 1 then Reduce(t.kids[0])
    else None
  }

  // ---------------------------------------------------------- what derivations look like

  /** The index of x in s, or |s|. */
  function IndexIn(s: seq<Token>, x: int): (i: nat)
    ensures i <= |s| && (i < |s| ==> s[i] == x) && (x in s <==> i < |s|)
  {
    if s == [] then 0 else if s[0] == x then 0 else
      assert s == [s[0]] + s[1..];
      1 + IndexIn(s[1..], x)
  }

  lemma {:induction false} OpsDistinct(k: nat, i: nat)
    requires i < |Ops(k)|
    ensures IndexIn(Ops(k), Ops(k)[i]) == i
  {
  }

  lemma {:induction false} UnaryOpsDistinct(i: nat)
    requires i < |UNARY_OPS|
    ensures IndexIn(UNARY_OPS, UNARY_OPS[i]) == i
  {
  }

  /** The variant that derivation t of rule r uses. */
  lemma {:induction false} VariantOf(r: nat, t: Tree)
    requires Derives(LADDER, N(r), t)
    ensures t.Node? && t.rule == r < 19 && t.variant < |Variants(r)|
    ensures DerivesAll(LADDER, Variants(r)[t.variant], t.kids) && |t.kids| == |Variants(r)[t.variant]|
  {
  }

  lemma {:induction false} KidDerives(xs: seq<Symbol>, ts: seq<Tree>, i: nat)
    requires DerivesAll(LADDER, xs, ts) && i < |xs|
    ensures i < |ts| && Derives(LADDER, xs[i], ts[i])
  {
  }

  lemma {:induction false} LeafDerives(tok: Token, t: Tree)
    requires Derives(LADDER, T(tok), t)
    ensures t.Leaf? && t.lexeme.id == tok
  {
  }

  /** A first variant is a single rule reference. */
  lemma {:induction false} UnitKid(r: nat, t: Tree)
    requires Derives(LADDER, N(r), t) && t.variant == 0 && r != PRIMARY && r != UNARY_OP
    ensures |t.kids| == 1 && t == Node(r, 0, [t.kids[0]]) && Derives(LADDER, N(Below(r)), t.kids[0])
  {
    VariantOf(r, t);
    KidDerives(Variants(r)[0], t.kids, 0);
  }

  lemma {:induction false} IdentKid(t: Tree)
    requires Derives(LADDER, N(PRIMARY), t) && t.variant == 0
    ensures |t.kids| == 1 && t.kids[0].Leaf? && t.kids[0].lexeme.id == TKN_IDENT && t == Node(PRIMARY, 0, [t.kids[0]])
  {
    VariantOf(PRIMARY, t);
    KidDerives(Variants(PRIMARY)[0], t.kids, 0);
  }

  lemma {:induction false} ParenKids(t: Tree)
    requires Derives(LADDER, N(PRIMARY), t) && t.variant != 0
    ensures |t.kids| == 3 && t == Node(PRIMARY, 1, [t.kids[0], t.kids[1], t.kids[2]])
    ensures t.kids[0].Leaf? && t.kids[0].lexeme.id == TKN_LPAREN && Derives(LADDER, N(EXPR), t.kids[1])
    ensures t.kids[2].Leaf? && t.kids[2].lexeme.id == TKN_RPAREN
  {
    VariantOf(PRIMARY, t);
    KidDerives(Variants(PRIMARY)[1], t.kids, 0);
    KidDerives(Variants(PRIMARY)[1], t.kids, 1);
    KidDerives(Variants(PRIMARY)[1], t.kids, 2);
  }

  lemma {:induction false} OperatorKid(t: Tree)
    requires Derives(LADDER, N(UNARY_OP), t)
    ensures |t.kids| == 1 && t.kids[0].Leaf? && t.kids[0].lexeme.id in UNARY_OPS
    ensures t == Node(UNARY_OP, IndexIn(UNARY_OPS, t.kids[0].lexeme.id), [t.kids[0]])
  {
    VariantOf(UNARY_OP, t);
    KidDerives(Variants(UNARY_OP)[t.variant], t.kids, 0);
    UnaryOpsDistinct(t.variant);
  }

  lemma {:induction false} UnaryKids(t: Tree)
    requires Derives(LADDER, N(UNARY), t) && t.variant != 0
    ensures |t.kids| == 2 && t == Node(UNARY, 1, [t.kids[0], t.kids[1]])
    ensures Derives(LADDER, N(UNARY_OP), t.kids[0]) && Derives(LADDER, N(CAST), t.kids[1])
  {
    VariantOf(UNARY, t);
    KidDerives(Variants(UNARY)[1], t.kids, 0);
    KidDerives(Variants(UNARY)[1], t.kids, 1);
  }

  lemma {:induction false} BinaryKids(k: nat, t: Tree)
    requires IsLevel(k) && Derives(LADDER, N(k), t) && t.variant != 0
    ensures |t.kids| == 3 && Derives(LADDER, N(k), t.kids[0]) && Derives(LADDER, N(Below(k)), t.kids[2])
    ensures t.kids[1].Leaf? && t.kids[1].lexeme.id in Ops(k)
    ensures t == Node(k, 1 + IndexIn(Ops(k), t.kids[1].lexeme.id), [t.kids[0], t.kids[1], t.kids[2]])
  {
    VariantOf(k, t);
    var i := t.variant - 1;
    assert Variants(k)[1 + i] == LevelVariant(k, i);
    KidDerives(LevelVariant(k, i), t.kids, 0);
    KidDerives(LevelVariant(k, i), t.kids, 1);
    KidDerives(LevelVariant(k, i), t.kids, 2);
    LeafDerives(Ops(k)[i], t.kids[1]);
    OpsDistinct(k, i);
  }
}
