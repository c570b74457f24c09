/** How tightly operators bind, told by the tags of the grammar's rules and the texts of operators alone. */
module Binding {
  import opened Options
  import opened TokenSets
  import opened Tokens
  import opened Grammars
  import opened Ladder
  import opened Precedence
  import opened Printing
  import opened Names

  /** The tag that the grammar gives the rule of an operator; a smaller one binds tighter. */
  function Tag(op: BinaryOp): nat {
    match op
    case Mul => 0
    case Div => 0
    case Mod => 0
    case Add => 1
    case Sub => 1
    case ShiftLeft => 2
    case ShiftRight => 2
    case Less => 3
    case Greater => 3
    case AtMost => 3
    case AtLeast => 3
    case Equal => 4
    case Unequal => 4
    case BitAnd => 5
    case BitXor => 6
    case BitOr => 7
    case And => 8
    case Or => 9
  }

  function BinaryText(op: BinaryOp): string {
    match op
    case Mul => "*"
    case Div => "/"
    case Mod => "%"
    case Add => "+"
    case Sub => "-"
    case ShiftLeft => "<<"
    case ShiftRight => ">>"
    case Less => "<"
    case Greater => ">"
    case AtMost => "<="
    case AtLeast => ">="
    case Equal => "=="
    case Unequal => "!="
    case BitAnd => "&"
    case BitXor => "^"
    case BitOr => "|"
    case And => "&&"
    case Or => "||"
  }

  function UnaryText(op: UnaryOp): string {
    match op
    case Address => "&"
    case Deref => "*"
    case Positive => "+"
    case Negative => "-"
    case BitNot => "~"
    case Not => "!"
  }

  /** The token of an operator is the symbol with its text, and only that one is reduced to it. */
  lemma {:induction false} BinaryTexts(op: BinaryOp, id: int)
    ensures IsSymbolToken(BinaryToken(op)) && SymbolText(BinaryToken(op)) == BinaryText(op)
    ensures BinaryOpOf(id) == Some(op) <==> id == BinaryToken(op)
  {
  }

  lemma {:induction false} UnaryTexts(op: UnaryOp, id: int)
    ensures IsSymbolToken(UnaryToken(op)) && SymbolText(UnaryToken(op)) == UnaryText(op)
    ensures UnaryOpOf(id) == Some(op) <==> id == UnaryToken(op)
  {
  }

  lemma {:induction false} TagIsLevel(op: BinaryOp)
    ensures LevelOf(BinaryToken(op)) == PRODUCT + Tag(op) <= OR
  {
  }

  // ------------------------------------------------------------- writing with parentheses

  const LOOSEST: nat := 11

  /** 0 for identifiers, 1 for prefix operators, and from 2 on by the tags. */
  function Looseness(e: Expr): (n: nat)
    ensures n <= LOOSEST
  {
    match e
    case Ident(_, _) => 0
    case Unary(_, _) => 1
    case Binary(op, _, _) => 2 + Tag(op)
  }

  /** The tokens of the tree, in parentheses when it is looser than the limit: the left operand
      of an operator may be as loose as the operator, the right one must be tighter. */
  function Written(e: Expr, limit: nat): seq<Lexeme>
    decreases e, if Looseness(e) > limit then 1 else 0
  {
    if Looseness(e) > limit then [Mark(TKN_LPAREN)] + Written(e, LOOSEST) + [Mark(TKN_RPAREN)]
    else
      match e
      case Ident(first, last) => [Lexeme(TKN_IDENT, first, last)]
      case Unary(op, x) => [Mark(UnaryToken(op))] + Written(x, 1)
      case Binary(op, x, y) => Written(x, 2 + Tag(op)) + [Mark(BinaryToken(op))] + Written(y, 1 + Tag(op))
  }

  /** The limit that a rule of the ladder sets. */
  function Limit(r: nat): nat {
    if r == CAST then 1 else if IsLevel(r) then r - PRODUCT + 2 else LOOSEST
  }

  predicate SetsLimit(r: nat) {
    r == EXPR || r == CAST || IsLevel(r)
  }

  lemma {:induction false} WithinLimit(e: Expr, r: nat)
    requires SetsLimit(r)
    ensures Looseness(e) > Limit(r) <==> RuleOf(e) > r
  {
    if e.Binary? {
      TagIsLevel(e.binaryOp);
    }
  }

  /** The ladder's levels are the tags. */
  lemma {:induction false} WrittenIsShown(e: Expr, r: nat)
    requires SetsLimit(r)
    ensures Written(e, Limit(r)) == Show(e, r)
    decreases e, if RuleOf(e) > r then 1 else 0
  {
    WithinLimit(e, r);
    if RuleOf(e) > r {
      RuleOfOnChain(e);
      WrittenIsShown(e, EXPR);
    } else {
      match e {
        case Ident(_, _) =>
        case Unary(_, x) => WrittenIsShown(x, CAST);
        case Binary(op, x, y) =>
          TagIsLevel(op);
          hide LevelOf;
          WrittenIsShown(x, PRODUCT + Tag(op));
          WrittenIsShown(y, Below(PRODUCT + Tag(op)));
      }
    }
  }

  // ---------------------------------------------------------------------- reading back

  /** The tokens print the tree, with whatever text behind operators and parentheses. */
  predicate Prints(w: seq<Lexeme>, e: Expr) {
    EraseAll(w) == Written(e, LOOSEST)
  }

  /** Tokens that print a tree have one derivation, which reduces to the tree. */
  lemma {:induction false} PrintedTree(w: seq<Lexeme>, e: Expr) returns (t: Tree)
    requires Prints(w, e)
    ensures Derives(LADDER, N(EXPR), t) && Yield(t) == w && Reduce(t) == Some(e)
    ensures forall u :: Derives(LADDER, N(EXPR), u) && Yield(u) == w ==> u == t
  {
    WrittenIsShown(e, EXPR);
    t := RoundTrip(e, w);
  }

  /** No tokens print two trees. */
  lemma {:induction false} PrintsOnce(w: seq<Lexeme>, e: Expr, e': Expr)
    requires Prints(w, e) && Prints(w, e')
    ensures e == e'
  {
    hide *;
    var t := PrintedTree(w, e);
    var t' := PrintedTree(w, e');
  }

  function Word(l: Lexeme): Expr {
    Ident(l.first, l.last)
  }

  lemma {:induction false} WordWritten(x: Lexeme, limit: nat)
    requires x.id == TKN_IDENT
    ensures Written(Word(x), limit) == [x]
  {
  }

  /** An operator between identifiers, where it needs no parentheses. */
  lemma {:induction false} InfixWritten(p: BinaryOp, x: Lexeme, y: Lexeme, limit: nat)
    requires x.id == TKN_IDENT && y.id == TKN_IDENT && 2 + Tag(p) <= limit
    ensures Written(Binary(p, Word(x), Word(y)), limit) == [x, Mark(BinaryToken(p)), y]
  {
    WordWritten(x, 2 + Tag(p));
    WordWritten(y, 1 + Tag(p));
  }

  lemma {:induction false} BinaryTokenErased(p: BinaryOp, o: Lexeme)
    requires o.id == BinaryToken(p)
    ensures Erase(o) == Mark(BinaryToken(p))
  {
  }

  lemma {:induction false} UnaryTokenErased(u: UnaryOp, o: Lexeme)
    requires o.id == UnaryToken(u)
    ensures Erase(o) == Mark(UnaryToken(u))
  {
  }

  lemma {:induction false} RightFirst(p: BinaryOp, q: BinaryOp, x: Lexeme, o: Lexeme, y: Lexeme, o': Lexeme, z: Lexeme)
    requires x.id == TKN_IDENT && y.id == TKN_IDENT && z.id == TKN_IDENT && Tag(q) < Tag(p)
    requires o.id == BinaryToken(p) && o'.id == BinaryToken(q)
    ensures Prints([x, o, y, o', z], Binary(p, Word(x), Binary(q, Word(y), Word(z))))
  {
    BinaryTokenErased(p, o);
    BinaryTokenErased(q, o');
    WordWritten(x, 2 + Tag(p));
    InfixWritten(q, y, z, 1 + Tag(p));
    hide Tag, BinaryToken;
  }

  lemma {:induction false} LeftFirst(p: BinaryOp, q: BinaryOp, x: Lexeme, o: Lexeme, y: Lexeme, o': Lexeme, z: Lexeme)
    requires x.id == TKN_IDENT && y.id == TKN_IDENT && z.id == TKN_IDENT && Tag(p) <= Tag(q)
    requires o.id == BinaryToken(p) && o'.id == BinaryToken(q)
    ensures Prints([x, o, y, o', z], Binary(q, Binary(p, Word(x), Word(y)), Word(z)))
  {
    BinaryTokenErased(p, o);
    BinaryTokenErased(q, o');
    InfixWritten(p, x, y, 2 + Tag(q));
    WordWritten(z, 1 + Tag(q));
    hide Tag, BinaryToken;
  }

  /** Of two operators between identifiers the one with the smaller tag binds tighter; with
      equal tags the first one does. */
  lemma {:induction false} TwoOperators(p: BinaryOp, q: BinaryOp, x: Lexeme, o: Lexeme, y: Lexeme, o': Lexeme,
          z: Lexeme)
    requires x.id == TKN_IDENT && y.id == TKN_IDENT && z.id == TKN_IDENT
    requires o.id == BinaryToken(p) && o'.id == BinaryToken(q)
    ensures var w := [x, o, y, o', z];
      && (Prints(w, Binary(p, Word(x), Binary(q, Word(y), Word(z)))) <==> Tag(q) < Tag(p))
      && (Prints(w, Binary(q, Binary(p, Word(x), Word(y)), Word(z))) <==> Tag(p) <= Tag(q))
  {
    hide *;
    var w := [x, o, y, o', z];
    var right := Binary(p, Word(x), Binary(q, Word(y), Word(z)));
    var left := Binary(q, Binary(p, Word(x), Word(y)), Word(z));
    WordIsIdent(x);
    if Tag(q) < Tag(p) {
      RightFirst(p, q, x, o, y, o', z);
      if Prints(w, left) {
        PrintsOnce(w, left, right);
      }
    } else {
      LeftFirst(p, q, x, o, y, o', z);
      if Prints(w, right) {
        PrintsOnce(w, left, right);
      }
    }
  }

  lemma {:induction false} WordIsIdent(x: Lexeme)
    ensures Word(x).Ident?
  {
  }

  /** So their only derivation is reduced. */
  lemma {:induction false} TwoOperatorsReduced(p: BinaryOp, q: BinaryOp, x: Lexeme, o: Lexeme, y: Lexeme, o': Lexeme,
          z: Lexeme)
    returns (t: Tree)
    requires x.id == TKN_IDENT && y.id == TKN_IDENT && z.id == TKN_IDENT
    requires o.id == BinaryToken(p) && o'.id == BinaryToken(q)
    ensures Derives(LADDER, N(EXPR), t) && Yield(t) == [x, o, y, o', z]
    ensures forall u :: Derives(LADDER, N(EXPR), u) && Yield(u) == [x, o, y, o', z] ==> u == t
    ensures Reduce(t) == Some(Binary(p, Word(x), Binary(q, Word(y), Word(z)))) <==> Tag(q) < Tag(p)
    ensures Reduce(t) == Some(Binary(q, Binary(p, Word(x), Word(y)), Word(z))) <==> Tag(p) <= Tag(q)
  {
    hide *;
    var w := [x, o, y, o', z];
    var right := Binary(p, Word(x), Binary(q, Word(y), Word(z)));
    var left := Binary(q, Binary(p, Word(x), Word(y)), Word(z));
    WordIsIdent(x);
    TwoOperators(p, q, x, o, y, o', z);
    t := PrintedTree(w, if Tag(q) < Tag(p) then right else left);
  }

  /** A prefix operator binds tighter than any operator between operands. */
  lemma {:induction false} PrefixFirst(u: UnaryOp, p: BinaryOp, o: Lexeme, x: Lexeme, o': Lexeme, y: Lexeme)
    requires o.id == UnaryToken(u) && x.id == TKN_IDENT && o'.id == BinaryToken(p) && y.id == TKN_IDENT
    ensures Prints([o, x, o', y], Binary(p, Unary(u, Word(x)), Word(y)))
  {
    BinaryTokenErased(p, o');
    UnaryTokenErased(u, o);
    WordWritten(x, 1);
    WordWritten(y, 1 + Tag(p));
    assert Written(Unary(u, Word(x)), 2 + Tag(p)) == [Mark(UnaryToken(u)), x];
    hide Tag, BinaryToken, UnaryToken;
  }

  lemma {:induction false} PrefixTwice(u: UnaryOp, v: UnaryOp, o: Lexeme, o': Lexeme, x: Lexeme)
    requires o.id == UnaryToken(u) && o'.id == UnaryToken(v) && x.id == TKN_IDENT
    ensures Prints([o, o', x], Unary(u, Unary(v, Word(x))))
  {
    UnaryTokenErased(u, o);
    UnaryTokenErased(v, o');
    WordWritten(x, 1);
    assert Written(Unary(v, Word(x)), 1) == [Mark(UnaryToken(v)), x];
    hide UnaryToken;
  }
}
