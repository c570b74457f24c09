/** The finished automaton as a whole: its paths are unique and spell exactly the viable prefixes. */
module Reached {
  import opened Options
  import opened TokenSets
  import opened Grammars
  import opened Items
  import opened Leads
  import opened Consolidation
  import opened Automaton
  import opened Exploration
  import opened Validity

  // ------------------------------------------------------------- states and transitions

  lemma {:induction false} StatesDiffer(g: Grammar, ss: seq<State>, i: nat, j: nat)
    requires Explored(g, ss) && i < |ss| && j < |ss| && Sets(ss)[i] == Sets(ss)[j]
    ensures i == j
  {
    CanonicalIsUnique(ss[i].leads, ss[j].leads);
  }

  lemma {:induction false} AdvancedLead(g: Grammar, leads: seq<Lead>, x: Symbol, it: Item) returns (m: nat)
    requires it in ItemsOf(leads) && Next(g, it) == Some(x)
    ensures m < |leads| && LeadSymbol(g, leads[m]) == Some(x)
  {
    var lead, look :| lead in leads && look in Looks(lead) && it == ItemAt(lead, look);
    NextOfItemAt(g, lead, look);
    m :| 0 <= m < |leads| && leads[m] == lead;
  }

  lemma {:induction false} StateDone(g: Grammar, ss: seq<State>, s: nat)
    requires Finished(g, ss) && s < |ss|
    ensures Done(g, Sets(ss), ss[s]) && Sets(ss)[s] == ItemsOf(ss[s].leads)
  {
  }

  /** The action that serves a lead holds its transition. */
  lemma {:induction false} ServedTransition(g: Grammar, sets: seq<set<Item>>, st: State, m: nat,
          x: Symbol) returns (j: nat)
    requires Done(g, sets, st) && m < |st.leads| && LeadSymbol(g, st.leads[m]) == Some(x)
    ensures Transition(g, sets, ItemsOf(st.leads), x, j)
  {
    assert LeadServed(g, st, m);
    hide OnlySeen, NoDuplicates, ReduceConflict, LeadSymbol, Transition;
    match x {
      case T(t) =>
        var a :| a in st.tokenActions && a.Shift? && Elems(a.tokens) == {t};
        assert ActionSound(g, sets, st.leads, a);
        var u: Token :| Elems(a.tokens) == {u} && Transition(g, sets, ItemsOf(st.leads), T(u), a.state);
        assert u in {t};
        j := a.state;
      case N(r) =>
        var a :| a in st.ruleActions && a.rule == r;
        j := a.state;
    }
  }

  /** A symbol after a dot has a transition. */
  lemma {:induction false} TransitionFound(g: Grammar, ss: seq<State>, s: nat, x: Symbol, it: Item) returns (j: nat)
    requires Finished(g, ss) && s < |ss| && it in Sets(ss)[s] && Next(g, it) == Some(x)
    ensures Transition(g, Sets(ss), Sets(ss)[s], x, j)
  {
    StateDone(g, ss, s);
    hide Finished, Done, ItemsOf, Transition;
    var m := AdvancedLead(g, ss[s].leads, x, it);
    j := ServedTransition(g, Sets(ss), ss[s], m, x);
  }

  lemma {:induction false} TransitionOnItem(g: Grammar, sets: seq<set<Item>>, s: set<Item>, x: Symbol,
          j: nat) returns (it: Item)
    requires Transition(g, sets, s, x, j)
    ensures it in s && Next(g, it) == Some(x)
  {
    var q :| q in Advance(g, s, x);
    it :| it in s && Next(g, it) == Some(x);
  }

  lemma {:induction false} TransitionsAgree(g: Grammar, ss: seq<State>, s: nat, x: Symbol, i: nat, j: nat)
    requires Explored(g, ss) && s < |ss|
    requires Transition(g, Sets(ss), Sets(ss)[s], x, i) && Transition(g, Sets(ss), Sets(ss)[s], x, j)
    ensures i == j
  {
    ClosureUnique(g, Advance(g, Sets(ss)[s], x), Sets(ss)[i], Sets(ss)[j]);
    StatesDiffer(g, ss, i, j);
  }

  /** There is a transition on exactly the symbols after a dot, and only one on each. */
  lemma {:induction false} OneTransitionEach(g: Grammar, ss: seq<State>, s: nat, x: Symbol)
    requires Finished(g, ss) && s < |ss|
    ensures (exists it :: it in Sets(ss)[s] && Next(g, it) == Some(x)) <==>
      exists j :: Transition(g, Sets(ss), Sets(ss)[s], x, j)
    ensures forall i, j ::
      Transition(g, Sets(ss), Sets(ss)[s], x, i) && Transition(g, Sets(ss), Sets(ss)[s], x, j) ==> i == j
  {
    assert Explored(g, ss);
    hide Finished, Explored, Transition, Next, Advance;
    if it :| it in Sets(ss)[s] && Next(g, it) == Some(x) {
      var j := TransitionFound(g, ss, s, x, it);
    }
    if j :| Transition(g, Sets(ss), Sets(ss)[s], x, j) {
      var it := TransitionOnItem(g, Sets(ss), Sets(ss)[s], x, j);
    }
    forall i, j | Transition(g, Sets(ss), Sets(ss)[s], x, i) && Transition(g, Sets(ss), Sets(ss)[s], x, j)
      ensures i == j
    {
      TransitionsAgree(g, ss, s, x, i, j);
    }
  }

  // ------------------------------------------------------------------------------- paths

  lemma {:induction false} SpellsOneMore(g: Grammar, sets: seq<set<Item>>, path: seq<nat>, phi: seq<Symbol>,
          x: Symbol, j: nat)
    requires Spells(g, sets, path, phi) && path[|phi|] < |sets| && Transition(g, sets, sets[path[|phi|]], x, j)
    ensures Spells(g, sets, path + [j], phi + [x])
  {
  }

  lemma {:induction false} EmptyPath(g: Grammar, ss: seq<State>)
    requires Begun(g, ss)
    ensures Spells(g, Sets(ss), [0], [])
  {
  }

  /** Every state is reached from the first one. */
  lemma {:induction false} EveryStateReached(g: Grammar, ss: seq<State>, j: nat) returns (path: seq<nat>,
          phi: seq<Symbol>)
    requires Begun(g, ss) && j < |ss|
    ensures Spells(g, Sets(ss), path, phi) && path[|phi|] == j
    decreases j
  {
    if j == 0 {
      path, phi := [0], [];
      EmptyPath(g, ss);
    } else {
      assert HasParent(g, Sets(ss), j);
      var i, x :| 0 <= i < j && i < |Sets(ss)| && Transition(g, Sets(ss), Sets(ss)[i], x, j);
      var path', phi' := EveryStateReached(g, ss, i);
      SpellsOneMore(g, Sets(ss), path', phi', x, j);
      path, phi := path' + [j], phi' + [x];
    }
  }

  /** A string of symbols spells at most one path. */
  lemma {:induction false} SpelledOnce(g: Grammar, ss: seq<State>, p: seq<nat>, q: seq<nat>, phi: seq<Symbol>)
    requires Finished(g, ss) && Spells(g, Sets(ss), p, phi) && Spells(g, Sets(ss), q, phi)
    ensures p == q
    decreases |phi|
  {
    if phi == [] {
      assert p == [0] == q;
    } else {
      var n := |phi| - 1;
      PathPrefixSpells(g, Sets(ss), p, phi, n);
      PathPrefixSpells(g, Sets(ss), q, phi, n);
      SpelledOnce(g, ss, p[..n + 1], q[..n + 1], phi[..n]);
      assert p[n] == p[..n + 1][n] == q[..n + 1][n] == q[n];
      OneTransitionEach(g, ss, p[n], phi[n]);
      assert p == p[..n + 1] + [p[n + 1]] && q == q[..n + 1] + [q[n + 1]];
    }
  }

  // -------------------------------------------------------------------- viable prefixes

  /** Some item with its dot behind the last symbol of phi is valid for phi. */
  ghost predicate EndsInside(g: Grammar, phi: seq<Symbol>) {
    exists q: Item :: q.look >= 0 && q.pos > 0 && Valid(g, phi, q)
  }

  /** Position n of f lies before some rule reference of f. */
  ghost predicate BeforeReference(f: seq<Symbol>, n: nat, m: nat) {
    0 < n <= m < |f| && f[m].N?
  }

  lemma {:induction false} InsideVariant(g: Grammar, f: seq<Symbol>, x: seq<Symbol>, c: nat, v: nat, y: seq<Symbol>,
          k: nat)
    requires IsVariant(g, c, v) && AllTerminal(y) && DerivesRightmost(g, [N(g.root)], x + [N(c)] + y)
    requires 0 < k <= |Rhs(g, c, v)|
    ensures EndsInside(g, x + Rhs(g, c, v)[..k])
  {
    assert y != [] ==> y[0] in y;
    var look := if y == [] then TKN_EOF else y[0].tok;
    assert ValidBy(g, x + Rhs(g, c, v)[..k], Item(c, v, k, look), x, y);
  }

  lemma {:induction false} PrefixEndsInside(g: Grammar, f: seq<Symbol>, steps: nat, n: nat, m: nat)
    requires DerivesIn(g, [N(g.root)], f, steps) && BeforeReference(f, n, m)
    ensures EndsInside(g, f[..n])
    decreases steps
  {
    if steps > 0 {
      var e :| DerivesIn(g, [N(g.root)], e, steps - 1) && Rewrites(g, e, f);
      var x, c, v, y :| RewritesAt(g, e, f, x, c, v, y);
      if n <= |x| {
        assert e[|x|] == N(c) && e[..n] == f[..n];
        PrefixEndsInside(g, e, steps - 1, n, |x|);
      } else if n <= |x| + |Rhs(g, c, v)| {
        InsideVariant(g, f, x, c, v, y, n - |x|);
        assert f[..n] == x + Rhs(g, c, v)[..n - |x|];
      } else {
        TerminalBeyond(g, e, f, x, c, v, y, m);
      }
    }
  }

  /** A valid item and a nonempty prefix have a valid item with a symbol before its dot. */
  lemma {:induction false} ValidEndsInside(g: Grammar, phi: seq<Symbol>, it: Item)
    requires Valid(g, phi, it) && phi != [] && it.look >= 0
    ensures EndsInside(g, phi)
  {
    if it.pos == 0 {
      var pre: seq<Symbol>, w: seq<Symbol> :| ValidBy(g, phi, it, pre, w);
      var f := pre + [N(it.rule)] + w;
      var n: nat :| DerivesIn(g, [N(g.root)], f, n);
      assert phi == pre && f[|phi|] == N(it.rule) && f[..|phi|] == phi;
      PrefixEndsInside(g, f, n, |phi|, |phi|);
    }
  }

  lemma {:induction false} ValidBack(g: Grammar, phi: seq<Symbol>, q: Item)
    requires Valid(g, phi, q) && q.pos > 0
    ensures phi != [] && Valid(g, phi[..|phi| - 1], q.(pos := q.pos - 1))
    ensures Next(g, q.(pos := q.pos - 1)) == Some(phi[|phi| - 1])
  {
    var pre: seq<Symbol>, w: seq<Symbol> :| ValidBy(g, phi, q, pre, w);
    var rhs := Rhs(g, q.rule, q.variant);
    assert rhs[..q.pos] == rhs[..q.pos - 1] + [rhs[q.pos - 1]];
    assert phi[..|phi| - 1] == pre + rhs[..q.pos - 1];
    assert ValidBy(g, phi[..|phi| - 1], q.(pos := q.pos - 1), pre, w);
  }

  lemma {:induction false} SpellFurther(g: Grammar, ss: seq<State>, path: seq<nat>, phi: seq<Symbol>, p: Item,
          x: Symbol) returns (j: nat)
    requires Proper(g) && Rooted(g) && Finished(g, ss) && Spells(g, Sets(ss), path, phi)
    requires Valid(g, phi, p) && Next(g, p) == Some(x)
    ensures Spells(g, Sets(ss), path + [j], phi + [x])
  {
    assert |path| == |phi| + 1;
    hide Finished, Valid, Spells, Transition, Next, Proper, Rooted;
    ValidIsHeld(g, Sets(ss), path, phi, p);
    j := TransitionFound(g, ss, path[|phi|], x, p);
    SpellsOneMore(g, Sets(ss), path, phi, x, j);
  }

  /** The item with its dot before the last symbol of phi is valid for what comes before. */
  lemma {:induction false} ValidBelow(g: Grammar, phi: seq<Symbol>, it: Item) returns (q: Item)
    requires Valid(g, phi, it) && phi != [] && it.look >= 0
    ensures q.look >= 0 && Valid(g, phi[..|phi| - 1], q) && Next(g, q) == Some(phi[|phi| - 1])
  {
    ValidEndsInside(g, phi, it);
    var p: Item :| p.look >= 0 && p.pos > 0 && Valid(g, phi, p);
    ValidBack(g, phi, p);
    q := p.(pos := p.pos - 1);
  }

  /** A prefix for which some item is valid is spelled by a path. */
  lemma {:induction false} ValidIsSpelled(g: Grammar, ss: seq<State>, phi: seq<Symbol>,
          it: Item) returns (path: seq<nat>)
    requires Proper(g) && Rooted(g) && Finished(g, ss) && Valid(g, phi, it) && it.look >= 0
    ensures Spells(g, Sets(ss), path, phi)
    decreases |phi|
  {
    assert Begun(g, ss);
    hide *;
    if phi == [] {
      path := [0];
      EmptyPath(g, ss);
    } else {
      var n := |phi| - 1;
      var q := ValidBelow(g, phi, it);
      var below := ValidIsSpelled(g, ss, phi[..n], q);
      var j := SpellFurther(g, ss, below, phi[..n], q, phi[n]);
      assert phi == phi[..n] + [phi[n]];
      path := below + [j];
    }
  }

  lemma {:induction false} SpelledHasItem(g: Grammar, sets: seq<set<Item>>, path: seq<nat>,
          phi: seq<Symbol>) returns (it: Item)
    requires Spells(g, sets, path, phi)
    ensures path[|phi|] < |sets| && it in sets[path[|phi|]]
  {
    if phi == [] {
      it := Item(g.root, 0, 0, BARE);
      assert it in StartKernel(g);
    } else {
      var n := |phi| - 1;
      assert Transition(g, sets, sets[path[n]], phi[n], path[n + 1]);
      it :| it in Advance(g, sets[path[n]], phi[n]);
    }
  }

  /** The paths of the automaton spell exactly the viable prefixes: the strings of
      symbols for which some LR(1) item is valid. */
  lemma {:induction false} PathsSpellViablePrefixes(g: Grammar, ss: seq<State>, phi: seq<Symbol>)
    requires Proper(g) && Rooted(g) && Productive(g) && Finished(g, ss)
    ensures (exists path :: Spells(g, Sets(ss), path, phi)) <==> exists it: Item :: it.look >= 0 && Valid(g, phi, it)
  {
    if path :| Spells(g, Sets(ss), path, phi) {
      var it := SpelledHasItem(g, Sets(ss), path, phi);
      ItemsJustified(g, Sets(ss), path, phi);
      assert Justified(g, phi, it);
      if it.look < 0 {
        var b :| b >= 0 && Valid(g, phi, it.(look := b));
      }
    }
    if it: Item :| it.look >= 0 && Valid(g, phi, it) {
      var path := ValidIsSpelled(g, ss, phi, it);
    }
  }
}
