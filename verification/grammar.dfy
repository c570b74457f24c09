/** Grammars as the generator sees them, and the derivation trees they describe. */
module Grammars {
  import opened TokenSets

  /** An element of a variant: a terminal, or a reference to a rule. */
  datatype Symbol = T(tok: Token) | N(rule: nat)

  /** `rules[r]` lists the variants of rule r. Rules and variants are numbered in
      the order of their addresses, which the generator's comparisons use. */
  datatype Grammar = Grammar(rules: seq<seq<seq<Symbol>>>, root: nat)

  predicate IsVariant(g: Grammar, rule: nat, variant: nat) {
    rule < |g.rules| && variant < |g.rules[rule]|
  }

  function Rhs(g: Grammar, rule: nat, variant: nat): seq<Symbol>
    requires IsVariant(g, rule, variant)
  {
    g.rules[rule][variant]
  }

  predicate SymbolOk(g: Grammar, x: Symbol) {
    x.N? ==> x.rule < |g.rules|
  }

  /** Every reference names a rule, and no variant is empty. */
  ghost predicate Proper(g: Grammar) {
    forall r: nat, v: nat :: IsVariant(g, r, v) ==>
      Rhs(g, r, v) != [] && forall x :: x in Rhs(g, r, v) ==> SymbolOk(g, x)
  }

  /** The root rule has a single variant of one rule reference and is referenced
      nowhere; the end-of-file token occurs in no variant. */
  ghost predicate Rooted(g: Grammar) {
    && IsVariant(g, g.root, 0) && |g.rules[g.root]| == 1
    && |Rhs(g, g.root, 0)| == 1 && Rhs(g, g.root, 0)[0].N?
    && forall r: nat, v: nat :: IsVariant(g, r, v) ==>
         N(g.root) !in Rhs(g, r, v) && T(TKN_EOF) !in Rhs(g, r, v)
  }

  // ------------------------------------------------------------- derivation trees

  /** A token as the lexer delivers it, with the text range it covers. */
  datatype Lexeme = Lexeme(id: int, first: nat, last: nat)

  datatype Tree = Leaf(lexeme: Lexeme) | Node(rule: nat, variant: nat, kids: seq<Tree>)

  /** Tree t is a derivation from symbol x. */
  ghost predicate Derives(g: Grammar, x: Symbol, t: Tree)
    decreases t, 0
  {
    match t
    case Leaf(l) => x.T? && l.id == x.tok
    case Node(r, v, kids) => x == N(r) && IsVariant(g, r, v) && DerivesAll(g, Rhs(g, r, v), kids)
  }

  ghost predicate DerivesAll(g: Grammar, xs: seq<Symbol>, ts: seq<Tree>)
    decreases ts, 0
  {
    |ts| == |xs| && forall i :: 0 <= i < |ts| ==> Derives(g, xs[i], ts[i])
  }

  /** The lexemes at the leaves, from left to right. */
  function Yield(t: Tree): seq<Lexeme>
    decreases t, 0
  {
    match t
    case Leaf(l) => [l]
    case Node(_, _, kids) => YieldAll(kids)
  }

  function YieldAll(ts: seq<Tree>): seq<Lexeme>
    decreases ts, 0
  {
    if ts == [] then [] else Yield(ts[0]) + YieldAll(ts[1..])
  }

  lemma {:induction false} YieldAllSplit(ts: seq<Tree>)
    requires ts != []
    ensures YieldAll(ts) == Yield(ts[0]) + YieldAll(ts[1..])
  {
  }

  lemma {:induction false} YieldAllAppend(ts: seq<Tree>, us: seq<Tree>)
    ensures YieldAll(ts + us) == YieldAll(ts) + YieldAll(us)
  {
    if ts == [] {
      assert ts + us == us;
    } else {
      YieldAllAppend(ts[1..], us);
      YieldAllSplit(ts + us);
      assert (ts + us)[1..] == ts[1..] + us && (ts + us)[0] == ts[0];
      assert Yield(ts[0]) + (YieldAll(ts[1..]) + YieldAll(us)) == (Yield(ts[0]) + YieldAll(ts[1..])) + YieldAll(us);
    }
  }

  lemma {:induction false} YieldNonEmpty(g: Grammar, x: Symbol, t: Tree)
    requires Proper(g) && Derives(g, x, t)
    ensures Yield(t) != []
    decreases t
  {
    if t.Node? {
      YieldNonEmpty(g, Rhs(g, t.rule, t.variant)[0], t.kids[0]);
    }
  }

  ghost predicate Produces(g: Grammar, r: nat) {
    exists t :: Derives(g, N(r), t)
  }

  /** Every rule derives some string. */
  ghost predicate Productive(g: Grammar) {
    forall r: nat :: r < |g.rules| ==> Produces(g, r)
  }

  lemma {:induction false} SomeTree(g: Grammar, x: Symbol) returns (t: Tree)
    requires Productive(g) && SymbolOk(g, x)
    ensures Derives(g, x, t)
  {
    match x {
      case T(tok) => t := Leaf(Lexeme(tok, 0, 0));
      case N(r) =>
        assert Produces(g, r);
        t :| Derives(g, N(r), t);
    }
  }

  lemma {:induction false} SomeTrees(g: Grammar, xs: seq<Symbol>) returns (ts: seq<Tree>)
    requires Productive(g) && forall x :: x in xs ==> SymbolOk(g, x)
    ensures DerivesAll(g, xs, ts)
  {
    if xs == [] {
      ts := [];
    } else {
      var t := SomeTree(g, xs[0]);
      var us := SomeTrees(g, xs[1..]);
      ts := [t] + us;
      assert forall i :: 0 < i < |ts| ==> Derives(g, xs[1..][i - 1], us[i - 1]) && ts[i] == us[i - 1];
    }
  }
}
