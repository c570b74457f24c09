/** FIRST sets: the terminals that can begin a symbol, and the search that gathers
    them while refusing to enter a rule it is already expanding. */
module First {
  import opened Words
  import opened TokenSets
  import opened Grammars

  // ------------------------------------------------------------------ left corners

  /** Some variant of rule r begins with y. */
  ghost predicate LeftCorner(g: Grammar, r: nat, y: Symbol) {
    exists v: nat :: IsVariant(g, r, v) && Rhs(g, r, v) != [] && Rhs(g, r, v)[0] == y
  }

  /** p descends from its first symbol through left corners. */
  ghost predicate LeftPath(g: Grammar, p: seq<Symbol>)
    decreases |p|
  {
    p != [] && (|p| > 1 ==> p[0].N? && LeftCorner(g, p[0].rule, p[1]) && LeftPath(g, p[1..]))
  }

  ghost predicate PathTo(g: Grammar, x: Symbol, p: seq<Symbol>, t: Token) {
    LeftPath(g, p) && p[0] == x && p[|p| - 1] == T(t)
  }

  ghost predicate Begins(g: Grammar, x: Symbol, t: Token) {
    exists p :: PathTo(g, x, p, t)
  }

  /** FIRST(x). */
  ghost function FirstSet(g: Grammar, x: Symbol): set<int> {
    set t: Token | 0 <= t < MAX_TOKENS && Begins(g, x, t)
  }

  lemma {:induction false} FirstOfVariant(g: Grammar, r: nat, v: nat)
    requires IsVariant(g, r, v) && Rhs(g, r, v) != []
    ensures FirstSet(g, Rhs(g, r, v)[0]) <= FirstSet(g, N(r))
  {
    var y := Rhs(g, r, v)[0];
    forall t | t in FirstSet(g, y)
      ensures t in FirstSet(g, N(r))
    {
      var p :| PathTo(g, y, p, t);
      var q := [N(r)] + p;
      assert q[1..] == p;
      assert LeftCorner(g, r, y);
      assert PathTo(g, N(r), q, t);
    }
  }

  lemma {:induction false} FirstOfToken(g: Grammar, t: Token)
    ensures FirstSet(g, T(t)) == {t}
  {
    assert PathTo(g, T(t), [T(t)], t);
    forall u | u in FirstSet(g, T(t))
      ensures u == t
    {
      var p :| PathTo(g, T(t), p, u);
    }
  }

  // ---------------------------------------------- FIRST as leading leaves of trees

  lemma {:induction false} FirstOfTree(g: Grammar, x: Symbol, tree: Tree)
    requires Proper(g) && Derives(g, x, tree)
    ensures Yield(tree) != [] && Yield(tree)[0].id in FirstSet(g, x)
    decreases tree
  {
    match tree {
      case Leaf(l) =>
        FirstOfToken(g, x.tok);
      case Node(r, v, kids) =>
        FirstOfTree(g, Rhs(g, r, v)[0], kids[0]);
        FirstOfVariant(g, r, v);
    }
  }

  lemma {:induction false} TreeOfPath(g: Grammar, p: seq<Symbol>, t: Token) returns (tree: Tree)
    requires Proper(g) && Productive(g)
    requires LeftPath(g, p) && SymbolOk(g, p[0]) && p[|p| - 1] == T(t)
    ensures Derives(g, p[0], tree) && Yield(tree) != [] && Yield(tree)[0].id == t
    decreases |p|
  {
    if |p| == 1 {
      tree := Leaf(Lexeme(t, 0, 0));
    } else {
      var r := p[0].rule;
      var v: nat :| IsVariant(g, r, v) && Rhs(g, r, v) != [] && Rhs(g, r, v)[0] == p[1];
      var head := TreeOfPath(g, p[1..], t);
      var tail := SomeTrees(g, Rhs(g, r, v)[1..]);
      var kids := [head] + tail;
      forall i | 0 <= i < |kids|
        ensures Derives(g, Rhs(g, r, v)[i], kids[i])
      {
        if i > 0 {
          assert Derives(g, Rhs(g, r, v)[1..][i - 1], tail[i - 1]);
        }
      }
      tree := Node(r, v, kids);
      assert kids[1..] == tail;
    }
  }

  /** In a productive grammar FIRST(x) holds exactly the leading terminals of the
      strings derived from x. */
  lemma {:induction false} FirstExact(g: Grammar, x: Symbol, t: Token)
    requires Proper(g) && Productive(g) && SymbolOk(g, x)
    ensures t in FirstSet(g, x) <==> exists tree :: Derives(g, x, tree) && Yield(tree) != [] && Yield(tree)[0].id == t
  {
    if t in FirstSet(g, x) {
      var p :| PathTo(g, x, p, t);
      var tree := TreeOfPath(g, p, t);
    }
    forall tree | Derives(g, x, tree) && Yield(tree) != [] && Yield(tree)[0].id == t
      ensures t in FirstSet(g, x)
    {
      FirstOfTree(g, x, tree);
    }
  }

  // ----------------------------------------- the search that avoids a set of rules

  ghost function AllRules(g: Grammar): set<nat> {
    set r | 0 <= r < |g.rules| && SymbolOk(g, N(r))
  }

  /** The terminals reachable from x through left corners outside `chain`. */
  ghost function FirstAvoiding(g: Grammar, x: Symbol, chain: set<nat>): set<int>
    requires Proper(g) && SymbolOk(g, x)
    decreases AllRules(g) - chain, 0, 0
  {
    match x
    case T(tok) => {tok}
    case N(r) => if r in chain then {} else
      assert r in AllRules(g) - chain && r !in AllRules(g) - (chain + {r});
      FirstOfVariants(g, r, |g.rules[r]|, chain + {r})
  }

  ghost function FirstOfVariants(g: Grammar, r: nat, n: nat, chain: set<nat>): set<int>
    requires Proper(g) && r < |g.rules| && n <= |g.rules[r]|
    decreases AllRules(g) - chain, 1, n
  {
    if n == 0 then {} else
      assert IsVariant(g, r, n - 1);
      FirstOfVariants(g, r, n - 1, chain) + FirstAvoiding(g, Rhs(g, r, n - 1)[0], chain)
  }

  ghost predicate Avoids(p: seq<Symbol>, chain: set<nat>) {
    forall r :: r in chain ==> N(r) !in p
  }

  lemma {:induction false} SuffixOfPath(g: Grammar, p: seq<Symbol>, k: nat)
    requires LeftPath(g, p) && k < |p|
    ensures LeftPath(g, p[k..])
  {
    if k > 0 {
      SuffixOfPath(g, p[1..], k - 1);
      assert p[1..][k - 1..] == p[k..];
    }
  }

  lemma {:induction false} LastOccurrence(p: seq<Symbol>, x: Symbol) returns (k: nat)
    requires x in p
    ensures k < |p| && p[k] == x && x !in p[k + 1..]
  {
    if x in p[1..] {
      k := LastOccurrence(p[1..], x);
      assert p[1..][k + 1..] == p[k + 2..];
      k := k + 1;
    } else {
      k := 0;
    }
  }

  lemma {:induction false} InFirstOfVariants(g: Grammar, r: nat, v: nat, n: nat, chain: set<nat>)
    requires Proper(g) && r < |g.rules| && v < n <= |g.rules[r]|
    ensures IsVariant(g, r, v) && FirstAvoiding(g, Rhs(g, r, v)[0], chain) <= FirstOfVariants(g, r, n, chain)
  {
    if v < n - 1 {
      InFirstOfVariants(g, r, v, n - 1, chain);
    }
  }

  /** Cutting at the last visit of each rule turns any left-corner path into one
      that the search follows. */
  lemma {:induction false} PathIsSearched(g: Grammar, p: seq<Symbol>, t: Token, chain: set<nat>)
    requires Proper(g) && LeftPath(g, p) && SymbolOk(g, p[0]) && p[|p| - 1] == T(t)
    requires Avoids(p, chain)
    ensures t in FirstAvoiding(g, p[0], chain)
    decreases |p|
  {
    if p[0].N? {
      var r := p[0].rule;
      var k := LastOccurrence(p, p[0]);
      SuffixOfPath(g, p, k);
      var q := p[k..];
      var v: nat :| IsVariant(g, r, v) && Rhs(g, r, v) != [] && Rhs(g, r, v)[0] == q[1];
      assert q[1..] == p[k + 1..];
      assert Avoids(q[1..], chain + {r}) by {
        forall s | s in chain + {r}
          ensures N(s) !in q[1..]
        {
          assert forall x :: x in q[1..] ==> x in p;
        }
      }
      PathIsSearched(g, q[1..], t, chain + {r});
      InFirstOfVariants(g, r, v, |g.rules[r]|, chain + {r});
    }
  }

  lemma {:induction false} SearchedIsPath(g: Grammar, x: Symbol, t: Token, chain: set<nat>) returns (p: seq<Symbol>)
    requires Proper(g) && SymbolOk(g, x) && t in FirstAvoiding(g, x, chain)
    ensures PathTo(g, x, p, t)
    decreases AllRules(g) - chain, 0, 0
  {
    match x {
      case T(tok) => p := [x];
      case N(r) =>
        assert r in AllRules(g) - chain && r !in AllRules(g) - (chain + {r});
        var v, q := SearchedVariant(g, r, |g.rules[r]|, t, chain + {r});
        p := [x] + q;
        assert p[1..] == q && LeftCorner(g, r, q[0]);
    }
  }

  lemma {:induction false} SearchedVariant(g: Grammar, r: nat, n: nat, t: Token, chain: set<nat>)
    returns (v: nat, p: seq<Symbol>)
    requires Proper(g) && r < |g.rules| && n <= |g.rules[r]| && t in FirstOfVariants(g, r, n, chain)
    ensures IsVariant(g, r, v) && PathTo(g, Rhs(g, r, v)[0], p, t)
    decreases AllRules(g) - chain, 1, n
  {
    assert IsVariant(g, r, n - 1);
    if t in FirstOfVariants(g, r, n - 1, chain) {
      v, p := SearchedVariant(g, r, n - 1, t, chain);
    } else {
      v := n - 1;
      p := SearchedIsPath(g, Rhs(g, r, n - 1)[0], t, chain);
    }
  }

  lemma {:induction false} FirstAvoidingTokens(g: Grammar, x: Symbol, chain: set<nat>)
    requires Proper(g) && SymbolOk(g, x)
    ensures forall t :: t in FirstAvoiding(g, x, chain) ==> 0 < t < MAX_TOKENS
    decreases AllRules(g) - chain, 0, 0
  {
    if x.N? && x.rule !in chain {
      assert x.rule in AllRules(g) - chain && x.rule !in AllRules(g) - (chain + {x.rule});
      FirstOfVariantsTokens(g, x.rule, |g.rules[x.rule]|, chain + {x.rule});
    }
  }

  lemma {:induction false} FirstOfVariantsTokens(g: Grammar, r: nat, n: nat, chain: set<nat>)
    requires Proper(g) && r < |g.rules| && n <= |g.rules[r]|
    ensures forall t :: t in FirstOfVariants(g, r, n, chain) ==> 0 < t < MAX_TOKENS
    decreases AllRules(g) - chain, 1, n
  {
    if n > 0 {
      assert IsVariant(g, r, n - 1);
      FirstOfVariantsTokens(g, r, n - 1, chain);
      FirstAvoidingTokens(g, Rhs(g, r, n - 1)[0], chain);
    }
  }

  /** Started with an empty chain, the search finds exactly FIRST(x). */
  lemma {:induction false} SearchFindsFirst(g: Grammar, x: Symbol)
    requires Proper(g) && SymbolOk(g, x)
    ensures FirstAvoiding(g, x, {}) == FirstSet(g, x)
  {
    FirstAvoidingTokens(g, x, {});
    forall t: Token
      ensures t in FirstAvoiding(g, x, {}) <==> t in FirstSet(g, x)
    {
      if t in FirstAvoiding(g, x, {}) {
        var p := SearchedIsPath(g, x, t, {});
      }
      if t in FirstSet(g, x) {
        var p :| PathTo(g, x, p, t);
        PathIsSearched(g, p, t, {});
      }
    }
  }

  // ------------------------------------------------------------------ the procedure

  /** The rules being expanded, innermost first (`rule_chain_t`). */
  datatype RuleChain = Bottom | Link(prev: RuleChain, rule: nat)

  ghost function ChainRules(chain: RuleChain): set<nat> {
    match chain
    case Bottom => {}
    case Link(prev, rule) => ChainRules(prev) + {rule}
  }

  method GatherFirst(g: Grammar, first: array<Word>, symbol: Symbol, chain: RuleChain)
    requires Proper(g) && SymbolOk(g, symbol) && first.Length == WORDS
    modifies first
    ensures Elems(first[..]) == old(Elems(first[..])) + FirstAvoiding(g, symbol, ChainRules(chain))
    decreases AllRules(g) - ChainRules(chain)
  {
    match symbol {
      case T(tok) =>
        TokenSetInsert(first, tok);
      case N(rule) =>
        var check := chain;
        while check.Link?
          invariant rule in ChainRules(chain) <==> rule in ChainRules(check)
          decreases check
        {
          if check.rule == rule {
            return;
          }
          check := check.prev;
        }
        var newChain := Link(chain, rule);
        assert rule in AllRules(g) - ChainRules(chain) && rule !in AllRules(g) - ChainRules(newChain);
        for v := 0 to |g.rules[rule]|
          invariant Elems(first[..]) == old(Elems(first[..])) + FirstOfVariants(g, rule, v, ChainRules(newChain))
        {
          assert IsVariant(g, rule, v);
          GatherFirst(g, first, Rhs(g, rule, v)[0], newChain);
        }
    }
  }
}
