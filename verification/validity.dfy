/** The state reached over a string of symbols holds exactly the LR(1) items valid for it, by rightmost derivations. */
module Validity {
  import opened Options
  import opened TokenSets
  import opened Grammars
  import opened First
  import opened Items
  import opened Automaton
  import opened Errors

  // ---------------------------------------------------------- rightmost derivations

  ghost predicate AllTerminal(f: seq<Symbol>) {
    forall x :: x in f ==> x.T?
  }

  /** f rewrites to f' at the rule reference behind x, with only terminals y after it. */
  ghost predicate RewritesAt(g: Grammar, f: seq<Symbol>, f': seq<Symbol>, x: seq<Symbol>, c: nat, v: nat,
        y: seq<Symbol>) {
    IsVariant(g, c, v) && AllTerminal(y) && f == x + [N(c)] + y && f' == x + Rhs(g, c, v) + y
  }

  ghost predicate Rewrites(g: Grammar, f: seq<Symbol>, f': seq<Symbol>) {
    exists x, c, v, y :: RewritesAt(g, f, f', x, c, v, y)
  }

  /** f derives f' in n rightmost steps. */
  ghost predicate DerivesIn(g: Grammar, f: seq<Symbol>, f': seq<Symbol>, n: nat)
    decreases n
  {
    if n == 0 then f == f' else exists m :: DerivesIn(g, f, m, n - 1) && Rewrites(g, m, f')
  }

  ghost predicate DerivesRightmost(g: Grammar, f: seq<Symbol>, f': seq<Symbol>) {
    exists n: nat :: DerivesIn(g, f, f', n)
  }

  lemma {:induction false} RightmostTransitive(g: Grammar, a: seq<Symbol>, b: seq<Symbol>, c: seq<Symbol>, n: nat)
    requires DerivesRightmost(g, a, b) && DerivesIn(g, b, c, n)
    ensures DerivesRightmost(g, a, c)
    decreases n
  {
    if n > 0 {
      var m :| DerivesIn(g, b, m, n - 1) && Rewrites(g, m, c);
      RightmostTransitive(g, a, b, m, n - 1);
      var k: nat :| DerivesIn(g, a, m, k);
      assert DerivesIn(g, a, c, k + 1);
    }
  }

  lemma {:induction false} RightmostStep(g: Grammar, a: seq<Symbol>, b: seq<Symbol>, c: seq<Symbol>)
    requires DerivesRightmost(g, a, b) && Rewrites(g, b, c)
    ensures DerivesRightmost(g, a, c)
  {
    assert DerivesIn(g, b, b, 0);
    assert DerivesIn(g, b, c, 1);
    RightmostTransitive(g, a, b, c, 1);
  }

  /** The token that comes first in w, where EOF closes it. */
  ghost predicate FirstIs(w: seq<Symbol>, look: int) {
    if w == [] then look == TKN_EOF else w[0].T? && w[0].tok == look
  }

  ghost predicate ValidBy(g: Grammar, phi: seq<Symbol>, it: Item, pre: seq<Symbol>, w: seq<Symbol>) {
    && ItemOk(g, it) && AllTerminal(w) && FirstIs(w, it.look)
    && DerivesRightmost(g, [N(g.root)], pre + [N(it.rule)] + w)
    && phi == pre + Rhs(g, it.rule, it.variant)[..it.pos]
  }

  /** The item is valid for the viable prefix phi: a rightmost derivation reaches
      pre A w, where phi is pre and the part of the variant before the dot, and w
      begins with the lookahead. */
  ghost predicate Valid(g: Grammar, phi: seq<Symbol>, it: Item) {
    exists pre, w :: ValidBy(g, phi, it, pre, w)
  }

  // ------------------------------------------------------- derivations out of trees

  function TokenSymbol(id: int): Symbol {
    if 0 < id < MAX_TOKENS then T(id) else T(TKN_EOF)
  }

  function Terminals(ls: seq<Lexeme>): (f: seq<Symbol>)
    ensures AllTerminal(f)
  {
    seq(|ls|, i requires 0 <= i < |ls| => TokenSymbol(ls[i].id))
  }

  lemma {:induction false} TerminalsConcat(a: seq<Lexeme>, b: seq<Lexeme>)
    ensures Terminals(a + b) == Terminals(a) + Terminals(b)
  {
  }

  lemma {:induction false} RightmostOfTree(g: Grammar, pre: seq<Symbol>, x: Symbol, t: Tree, w: seq<Symbol>)
    requires Derives(g, x, t) && AllTerminal(w)
    ensures DerivesRightmost(g, pre + [x] + w, pre + Terminals(Yield(t)) + w)
    decreases t, 0
  {
    match t {
      case Leaf(l) =>
        assert Terminals(Yield(t)) == [x];
        assert DerivesIn(g, pre + [x] + w, pre + [x] + w, 0);
      case Node(r, v, kids) =>
        var f, f' := pre + [x] + w, pre + Rhs(g, r, v) + w;
        assert RewritesAt(g, f, f', pre, r, v, w);
        assert DerivesIn(g, f, f, 0);
        RightmostStep(g, f, f, f');
        RightmostOfTrees(g, pre, Rhs(g, r, v), kids, w);
        var n: nat :| DerivesIn(g, f', pre + Terminals(YieldAll(kids)) + w, n);
        RightmostTransitive(g, f, f', pre + Terminals(YieldAll(kids)) + w, n);
    }
  }

  /** The symbols are expanded from the last to the first. */
  lemma {:induction false} RightmostOfTrees(g: Grammar, pre: seq<Symbol>, xs: seq<Symbol>, ts: seq<Tree>,
          w: seq<Symbol>)
    requires DerivesAll(g, xs, ts) && AllTerminal(w)
    ensures DerivesRightmost(g, pre + xs + w, pre + Terminals(YieldAll(ts)) + w)
    decreases ts, 1
  {
    if ts == [] {
      assert Terminals(YieldAll(ts)) == [] == xs;
      assert DerivesIn(g, pre + xs + w, pre + xs + w, 0);
    } else {
      DerivesTail(g, xs, ts);
      var z := Terminals(YieldAll(ts[1..]));
      RightmostOfTrees(g, pre + [xs[0]], xs[1..], ts[1..], w);
      assert pre + [xs[0]] + xs[1..] + w == pre + xs + w;
      assert AllTerminal(z + w);
      RightmostOfTree(g, pre, xs[0], ts[0], z + w);
      assert pre + [xs[0]] + z + w == pre + [xs[0]] + (z + w);
      TerminalsConcat(Yield(ts[0]), YieldAll(ts[1..]));
      assert pre + Terminals(Yield(ts[0])) + (z + w) == pre + Terminals(YieldAll(ts)) + w;
      var n: nat :| DerivesIn(g, pre + [xs[0]] + (z + w), pre + Terminals(YieldAll(ts)) + w, n);
      RightmostTransitive(g, pre + xs + w, pre + [xs[0]] + (z + w), pre + Terminals(YieldAll(ts)) + w, n);
    }
  }

  // ------------------------------------------------------------ items in a state are valid

  /** Valid with its own lookahead or, for a bare item, with some lookahead. */
  ghost predicate Justified(g: Grammar, phi: seq<Symbol>, it: Item) {
    if it.look >= 0 then Valid(g, phi, it) else exists b :: b >= 0 && Valid(g, phi, it.(look := b))
  }

  lemma {:induction false} StartJustified(g: Grammar, it: Item)
    requires Rooted(g) && it in StartKernel(g)
    ensures Justified(g, [], it)
  {
    var start := Item(g.root, 0, 0, TKN_EOF);
    assert DerivesIn(g, [N(g.root)], [N(g.root)], 0);
    assert [] + [N(g.root)] + [] == [N(g.root)];
    assert ValidBy(g, [], start, [], []);
    assert Valid(g, [], start) && it.(look := TKN_EOF) == start;
  }

  lemma {:induction false} ValidAdvance(g: Grammar, phi: seq<Symbol>, p: Item, x: Symbol)
    requires Valid(g, phi, p) && Next(g, p) == Some(x)
    ensures Valid(g, phi + [x], p.(pos := p.pos + 1))
  {
    var pre: seq<Symbol>, w: seq<Symbol> :| ValidBy(g, phi, p, pre, w);
    var rhs := Rhs(g, p.rule, p.variant);
    assert rhs[..p.pos + 1] == rhs[..p.pos] + [x];
    assert pre + (rhs[..p.pos] + [x]) == phi + [x];
    assert ValidBy(g, phi + [x], p.(pos := p.pos + 1), pre, w);
  }

  lemma {:induction false} JustifiedAdvance(g: Grammar, phi: seq<Symbol>, p: Item, x: Symbol)
    requires Justified(g, phi, p) && Next(g, p) == Some(x)
    ensures Justified(g, phi + [x], p.(pos := p.pos + 1))
  {
    if p.look >= 0 {
      ValidAdvance(g, phi, p, x);
    } else {
      var b :| b >= 0 && Valid(g, phi, p.(look := b));
      ValidAdvance(g, phi, p.(look := b), x);
      assert p.(look := b).(pos := p.pos + 1) == p.(pos := p.pos + 1).(look := b);
    }
  }

  /** What follows the rule behind the dot of a valid item, expanded to terminals. */
  lemma {:induction false} ExpandRest(g: Grammar, phi: seq<Symbol>, p: Item, x: Symbol, pre: seq<Symbol>,
          w: seq<Symbol>, cs: seq<Tree>)
    requires ValidBy(g, phi, p, pre, w) && Next(g, p) == Some(x)
    requires DerivesAll(g, Rhs(g, p.rule, p.variant)[p.pos + 1..], cs)
    ensures DerivesRightmost(g, [N(g.root)], phi + [x] + (Terminals(YieldAll(cs)) + w))
  {
    var rhs := Rhs(g, p.rule, p.variant);
    var rest := rhs[p.pos + 1..];
    var f := pre + [N(p.rule)] + w;
    var f' := phi + [x] + rest + w;
    assert f' == pre + rhs + w by {
      assert rhs == rhs[..p.pos] + [x] + rest;
    }
    assert RewritesAt(g, f, f', pre, p.rule, p.variant, w);
    RightmostStep(g, [N(g.root)], f, f');
    var z := Terminals(YieldAll(cs));
    RightmostOfTrees(g, phi + [x], rest, cs, w);
    assert phi + [x] + z + w == phi + [x] + (z + w);
    var n: nat :| DerivesIn(g, f', phi + [x] + (z + w), n);
    RightmostTransitive(g, [N(g.root)], f', phi + [x] + (z + w), n);
  }

  /** From a valid item with a rule after the dot, expanding what follows that rule to
      terminals yields a valid start item of the rule. */
  lemma {:induction false} ValidExpand(g: Grammar, phi: seq<Symbol>, p: Item, it: Item, cs: seq<Tree>)
    requires Valid(g, phi, p) && Next(g, p) == Some(N(it.rule)) && it.pos == 0 && ItemOk(g, it)
    requires DerivesAll(g, Rhs(g, p.rule, p.variant)[p.pos + 1..], cs)
    requires YieldAll(cs) == [] ==> it.look == p.look
    requires YieldAll(cs) != [] ==> TokenSymbol(YieldAll(cs)[0].id) == TokenSymbol(it.look) && 0 < it.look < MAX_TOKENS
    ensures Valid(g, phi, it)
  {
    var pre: seq<Symbol>, w: seq<Symbol> :| ValidBy(g, phi, p, pre, w);
    ExpandRest(g, phi, p, N(it.rule), pre, w, cs);
    var z := Terminals(YieldAll(cs));
    assert phi == phi + Rhs(g, it.rule, it.variant)[..0];
    assert ValidBy(g, phi, it, phi, z + w);
  }

  lemma {:induction false} LookOfTrees(g: Grammar, p: Item, look: int) returns (cs: seq<Tree>)
    requires Proper(g) && Productive(g) && Next(g, p).Some? && look in Follow(g, p) && look >= 0
    ensures DerivesAll(g, Rhs(g, p.rule, p.variant)[p.pos + 1..], cs)
    ensures YieldAll(cs) == [] ==> look == p.look
    ensures YieldAll(cs) != [] ==> YieldAll(cs)[0].id == look && 0 < look < MAX_TOKENS
  {
    cs := TreesBehind(g, p, look);
    if YieldAll(cs) != [] {
      var rest := Rhs(g, p.rule, p.variant)[p.pos + 1..];
      assert rest != [];
      assert look in FirstSet(g, rest[0]);
    }
  }

  lemma {:induction false} JustifiedExpand(g: Grammar, phi: seq<Symbol>, p: Item, it: Item)
    requires Proper(g) && Productive(g) && Justified(g, phi, p) && Expands(g, p, it)
    ensures Justified(g, phi, it)
  {
    var b: int :| b >= 0 && Valid(g, phi, p.(look := b)) && (p.look >= 0 ==> b == p.look);
    var q := p.(look := b);
    if it.look >= 0 {
      assert it.look in Follow(g, q);
      var cs := LookOfTrees(g, q, it.look);
      ValidExpand(g, phi, q, it, cs);
    } else {
      var rest := Rhs(g, p.rule, p.variant)[p.pos + 1..];
      if rest == [] {
        ValidExpand(g, phi, q, it.(look := b), []);
      } else {
        assert rest[0] in Rhs(g, p.rule, p.variant);
        var t := SomeTree(g, rest[0]);
        FirstOfTree(g, rest[0], t);
        var look := Yield(t)[0].id;
        var cs := LookOfTrees(g, q, look);
        ValidExpand(g, phi, q, it.(look := look), cs);
      }
    }
  }

  // --------------------------------------------------------------------------- paths

  /** The states ss are those met when phi is spelled from the first state. */
  ghost predicate Spells(g: Grammar, sets: seq<set<Item>>, ss: seq<nat>, phi: seq<Symbol>) {
    && |ss| == |phi| + 1 && ss[0] == 0 && |sets| > 0 && IsClosure(g, StartKernel(g), sets[0])
    && forall i :: 0 <= i < |phi| ==> ss[i] < |sets| && Transition(g, sets, sets[ss[i]], phi[i], ss[i + 1])
  }

  lemma {:induction false} PathPrefixSpells(g: Grammar, sets: seq<set<Item>>, ss: seq<nat>, phi: seq<Symbol>, n: nat)
    requires Spells(g, sets, ss, phi) && n <= |phi|
    ensures Spells(g, sets, ss[..n + 1], phi[..n]) && ss[n] < |sets| && Closed(g, sets[ss[n]])
  {
    if n > 0 {
      assert Transition(g, sets, sets[ss[n - 1]], phi[n - 1], ss[n]);
    }
  }

  lemma {:induction false} ClosureJustified(g: Grammar, phi: seq<Symbol>, kernel: set<Item>, s: set<Item>)
    requires Proper(g) && Productive(g) && IsClosure(g, kernel, s)
    requires forall it :: it in kernel ==> Justified(g, phi, it)
    ensures forall it :: it in s ==> Justified(g, phi, it)
  {
    var c := set it | it in s && Justified(g, phi, it);
    forall p, it | p in c && Expands(g, p, it)
      ensures it in c
    {
      JustifiedExpand(g, phi, p, it);
    }
    assert Closed(g, c) && kernel <= c;
  }

  lemma {:induction false} GotoJustified(g: Grammar, phi: seq<Symbol>, s: set<Item>, x: Symbol, t: set<Item>)
    requires Proper(g) && Productive(g) && IsGoto(g, s, x, t)
    requires forall it :: it in s ==> Justified(g, phi, it)
    ensures forall it :: it in t ==> Justified(g, phi + [x], it)
  {
    forall it | it in Advance(g, s, x)
      ensures Justified(g, phi + [x], it)
    {
      var p :| p in s && Next(g, p) == Some(x) && it == p.(pos := p.pos + 1);
      JustifiedAdvance(g, phi, p, x);
    }
    ClosureJustified(g, phi + [x], Advance(g, s, x), t);
  }

  lemma {:induction false} ItemsJustified(g: Grammar, sets: seq<set<Item>>, ss: seq<nat>, phi: seq<Symbol>)
    requires Proper(g) && Rooted(g) && Productive(g) && Spells(g, sets, ss, phi)
    ensures ss[|phi|] < |sets| && forall it :: it in sets[ss[|phi|]] ==> Justified(g, phi, it)
    decreases |phi|
  {
    hide IsClosure, Closed, Justified, Proper, Rooted, Productive;
    var n := |phi|;
    if n == 0 {
      forall it | it in StartKernel(g)
        ensures Justified(g, [], it)
      {
        StartJustified(g, it);
      }
      ClosureJustified(g, phi, StartKernel(g), sets[0]);
    } else {
      PathPrefixSpells(g, sets, ss, phi, n - 1);
      ItemsJustified(g, sets, ss[..n], phi[..n - 1]);
      var s, x := sets[ss[n - 1]], phi[n - 1];
      assert phi == phi[..n - 1] + [x];
      assert Transition(g, sets, s, x, ss[n]);
      GotoJustified(g, phi[..n - 1], s, x, sets[ss[n]]);
    }
  }

  // -------------------------------------------------------- valid items are in the state

  /** The token can come first in what the symbols after `pre` derive. */
  ghost predicate CanFollow(g: Grammar, tail: seq<Symbol>, b: int) {
    if tail == [] then b == TKN_EOF else b in FirstSet(g, tail[0])
  }

  /** Along the path each item with the symbols of the path after its dot moves on. */
  lemma {:induction false} WalkItem(g: Grammar, sets: seq<set<Item>>, ss: seq<nat>, phi: seq<Symbol>, n: nat,
          it: Item, k: nat)
    requires Spells(g, sets, ss, phi) && n + k <= |phi| && ItemOk(g, it) && it.pos + k <= |Rhs(g, it.rule, it.variant)|
    requires ss[n] < |sets| && it in sets[ss[n]]
    requires Rhs(g, it.rule, it.variant)[it.pos..it.pos + k] == phi[n..n + k]
    ensures ss[n + k] < |sets| && it.(pos := it.pos + k) in sets[ss[n + k]]
    decreases k
  {
    if k > 0 {
      var rhs := Rhs(g, it.rule, it.variant);
      assert rhs[it.pos..it.pos + (k - 1)] == rhs[it.pos..it.pos + k][..k - 1];
      assert phi[n..n + (k - 1)] == phi[n..n + k][..k - 1];
      WalkItem(g, sets, ss, phi, n, it, k - 1);
      var p := it.(pos := it.pos + (k - 1));
      var x := phi[n + k - 1];
      assert rhs[it.pos..it.pos + k][k - 1] == x;
      assert Next(g, p) == Some(x);
      assert Transition(g, sets, sets[ss[n + k - 1]], x, ss[n + k]);
      assert p.(pos := p.pos + 1) in Advance(g, sets[ss[n + k - 1]], x);
    }
  }

  /** Every rule reference in a sentential form, with what can follow it, has its start
      items in the state reached over what stands before it. */
  ghost predicate FormCovered(g: Grammar, sets: seq<set<Item>>, f: seq<Symbol>) {
    forall pre, a, tail, v, b, ss ::
      f == pre + [N(a)] + tail && IsVariant(g, a, v) && CanFollow(g, tail, b) && Spells(g, sets, ss, pre)
      ==> Covers(sets, ss, |pre|, Item(a, v, 0, b))
  }

  ghost predicate Covers(sets: seq<set<Item>>, ss: seq<nat>, n: nat, it: Item) {
    n < |ss| && ss[n] < |sets| && it in sets[ss[n]]
  }

  lemma {:induction false} StartCovered(g: Grammar, sets: seq<set<Item>>)
    requires Rooted(g)
    ensures FormCovered(g, sets, [N(g.root)])
  {
    forall pre, a, tail, v, b, ss
      | [N(g.root)] == pre + [N(a)] + tail && IsVariant(g, a, v) && CanFollow(g, tail, b) && Spells(g, sets, ss, pre)
      ensures Covers(sets, ss, |pre|, Item(a, v, 0, b))
    {
      assert |pre| + 1 + |tail| == 1;
      assert ([] + [N(a)] + [])[0] == N(a);
      assert Item(g.root, 0, 0, TKN_EOF) in StartKernel(g);
    }
  }

  /** The rewritten rule's variant produced the reference: its item walks to it and is
      expanded there. */
  lemma {:induction false} CoveredInside(g: Grammar, sets: seq<set<Item>>, f: seq<Symbol>, x: seq<Symbol>, c: nat,
          cv: nat, y: seq<Symbol>,
                                         k: nat, v: nat, b: int, ss: seq<nat>)
    requires FormCovered(g, sets, f) && f == x + [N(c)] + y && AllTerminal(y) && IsVariant(g, c, cv)
    requires k < |Rhs(g, c, cv)| && Rhs(g, c, cv)[k].N? && IsVariant(g, Rhs(g, c, cv)[k].rule, v)
    requires CanFollow(g, Rhs(g, c, cv)[k + 1..] + y, b) && Spells(g, sets, ss, x + Rhs(g, c, cv)[..k])
    ensures Covers(sets, ss, |x| + k, Item(Rhs(g, c, cv)[k].rule, v, 0, b))
  {
    var rhs, pre := Rhs(g, c, cv), x + Rhs(g, c, cv)[..k];
    var look := if y == [] then TKN_EOF else if y[0].T? then y[0].tok else 0;
    assert y != [] ==> y[0] in y;
    if y != [] {
      FirstOfToken(g, y[0].tok);
    }
    assert CanFollow(g, y, look);
    assert pre[..|x|] == x;
    PathPrefixSpells(g, sets, ss, pre, |x|);
    var it := Item(c, cv, 0, look);
    assert Covers(sets, ss[..|x| + 1], |x|, it);
    assert rhs[0..0 + k] == rhs[..k] == pre[|x|..|x| + k];
    WalkItem(g, sets, ss, pre, |x|, it, k);
    PathPrefixSpells(g, sets, ss, pre, |pre|);
    var tail := rhs[k + 1..] + y;
    assert b in Follow(g, it.(pos := k)) by {
      if k + 1 < |rhs| {
        assert tail[0] == rhs[k + 1];
      } else {
        assert tail == y;
        LookUnique(g, y, b, look);
      }
    }
    assert Expands(g, it.(pos := k), Item(rhs[k].rule, v, 0, b));
  }

  lemma {:induction false} LookUnique(g: Grammar, y: seq<Symbol>, b: int, c: int)
    requires AllTerminal(y) && CanFollow(g, y, b) && CanFollow(g, y, c)
    ensures b == c
  {
    if y != [] {
      assert y[0] in y;
      FirstOfToken(g, y[0].tok);
    }
  }

  /** The reference stood before the rewritten rule already. */
  lemma {:induction false} CoveredBefore(g: Grammar, sets: seq<set<Item>>, f: seq<Symbol>, pre: seq<Symbol>, a: nat,
          x': seq<Symbol>,
                                         c: nat, cv: nat, y: seq<Symbol>, v: nat, b: int, ss: seq<nat>)
    requires Proper(g) && FormCovered(g, sets, f) && f == (pre + [N(a)] + x') + [N(c)] + y && IsVariant(g, c, cv)
    requires IsVariant(g, a, v) && CanFollow(g, x' + Rhs(g, c, cv) + y, b) && Spells(g, sets, ss, pre)
    ensures Covers(sets, ss, |pre|, Item(a, v, 0, b))
  {
    var tail := x' + [N(c)] + y;
    assert f == pre + [N(a)] + tail;
    assert CanFollow(g, tail, b) by {
      if x' != [] {
        assert tail[0] == x'[0] == (x' + Rhs(g, c, cv) + y)[0];
      } else {
        assert (x' + Rhs(g, c, cv) + y)[0] == Rhs(g, c, cv)[0];
        FirstOfVariant(g, c, cv);
      }
    }
  }

  lemma {:induction false} StepCovered(g: Grammar, sets: seq<set<Item>>, f: seq<Symbol>, f': seq<Symbol>)
    requires Proper(g) && FormCovered(g, sets, f) && Rewrites(g, f, f')
    ensures FormCovered(g, sets, f')
  {
    var x, c, cv, y :| RewritesAt(g, f, f', x, c, cv, y);
    forall pre, a, tail, v, b, ss
      | f' == pre + [N(a)] + tail && IsVariant(g, a, v) && CanFollow(g, tail, b) && Spells(g, sets, ss, pre)
      ensures Covers(sets, ss, |pre|, Item(a, v, 0, b))
    {
      StepCoveredAt(g, sets, f, f', x, c, cv, y, pre, a, tail, v, b, ss);
    }
  }

  lemma {:induction false} TerminalBeyond(g: Grammar, f: seq<Symbol>, f': seq<Symbol>, x: seq<Symbol>, c: nat, v: nat,
          y: seq<Symbol>, n: nat)
    requires RewritesAt(g, f, f', x, c, v, y) && |x| + |Rhs(g, c, v)| <= n < |f'|
    ensures f'[n].T?
  {
    assert f'[n] == y[n - |x| - |Rhs(g, c, v)|];
    assert f'[n] in y;
  }

  lemma {:induction false} StepCoveredAt(g: Grammar, sets: seq<set<Item>>, f: seq<Symbol>, f': seq<Symbol>,
          x: seq<Symbol>, c: nat, cv: nat, y: seq<Symbol>,
                                         pre: seq<Symbol>, a: nat, tail: seq<Symbol>, v: nat, b: int, ss: seq<nat>)
    requires Proper(g) && FormCovered(g, sets, f) && RewritesAt(g, f, f', x, c, cv, y)
    requires f' == pre + [N(a)] + tail && IsVariant(g, a, v) && CanFollow(g, tail, b) && Spells(g, sets, ss, pre)
    ensures Covers(sets, ss, |pre|, Item(a, v, 0, b))
  {
    var rhs, n := Rhs(g, c, cv), |pre|;
    assert f'[n] == N(a) && f'[..n] == pre && f'[n + 1..] == tail;
    if n < |x| {
      var x' := x[n + 1..];
      assert x == pre + [N(a)] + x' by {
        assert x == x[..n] + [x[n]] + x[n + 1..];
        assert x[..n] == f'[..n] && x[n] == f'[n];
      }
      assert tail == x' + rhs + y;
      CoveredBefore(g, sets, f, pre, a, x', c, cv, y, v, b, ss);
    } else if n < |x| + |rhs| {
      var k := n - |x|;
      assert rhs[k] == f'[n];
      assert pre == x + rhs[..k] && tail == rhs[k + 1..] + y;
      CoveredInside(g, sets, f, x, c, cv, y, k, v, b, ss);
    } else {
      TerminalBeyond(g, f, f', x, c, cv, y, n);
    }
  }

  lemma {:induction false} DerivedCovered(g: Grammar, sets: seq<set<Item>>, f: seq<Symbol>, n: nat)
    requires Proper(g) && Rooted(g) && DerivesIn(g, [N(g.root)], f, n)
    ensures FormCovered(g, sets, f)
    decreases n
  {
    if n == 0 {
      StartCovered(g, sets);
    } else {
      var m :| DerivesIn(g, [N(g.root)], m, n - 1) && Rewrites(g, m, f);
      DerivedCovered(g, sets, m, n - 1);
      StepCovered(g, sets, m, f);
    }
  }

  lemma {:induction false} ValidIsHeld(g: Grammar, sets: seq<set<Item>>, ss: seq<nat>, phi: seq<Symbol>, it: Item)
    requires Proper(g) && Rooted(g) && Spells(g, sets, ss, phi) && Valid(g, phi, it)
    ensures ss[|phi|] < |sets| && it in sets[ss[|phi|]]
  {
    var pre: seq<Symbol>, w: seq<Symbol> :| ValidBy(g, phi, it, pre, w);
    var n: nat :| DerivesIn(g, [N(g.root)], pre + [N(it.rule)] + w, n);
    DerivedCovered(g, sets, pre + [N(it.rule)] + w, n);
    assert phi[..|pre|] == pre;
    PathPrefixSpells(g, sets, ss, phi, |pre|);
    assert CanFollow(g, w, it.look) by {
      if w != [] {
        FirstOfToken(g, w[0].tok);
      }
    }
    var start := it.(pos := 0);
    assert Covers(sets, ss[..|pre| + 1], |pre|, start);
    var rhs := Rhs(g, it.rule, it.variant);
    assert rhs[0..0 + it.pos] == rhs[..it.pos] == phi[|pre|..|pre| + it.pos];
    WalkItem(g, sets, ss, phi, |pre|, start, it.pos);
  }

  /** The state reached over phi holds exactly the items valid for phi. */
  lemma {:induction false} StateHoldsValidItems(g: Grammar, sets: seq<set<Item>>, ss: seq<nat>, phi: seq<Symbol>,
          it: Item)
    requires Proper(g) && Rooted(g) && Productive(g) && Spells(g, sets, ss, phi) && it.look >= 0
    ensures ss[|phi|] < |sets|
    ensures it in sets[ss[|phi|]] <==> Valid(g, phi, it)
  {
    ItemsJustified(g, sets, ss, phi);
    if Valid(g, phi, it) {
      ValidIsHeld(g, sets, ss, phi, it);
    }
  }
}
