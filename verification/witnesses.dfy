/** Two small grammars that show what the generator misses and what it refuses too much. */
module Witnesses {
  import opened Options
  import opened TokenSets
  import opened Grammars
  import opened Items
  import opened Automaton
  import opened Exploration
  import opened Tables
  import opened Machine
  import opened Safety
  import opened Soundness
  import opened Completeness
  import opened Validity
  import opened Reached
  import opened Deciding
  import opened Cycles
  import opened Resolution

  // ------------------------------------------------- derivations at the front of a form

  lemma {:induction false} RootForm(g: Grammar)
    ensures DerivesRightmost(g, [N(g.root)], [N(g.root)] + [])
  {
    assert DerivesIn(g, [N(g.root)], [N(g.root)], 0);
    assert [N(g.root)] + [] == [N(g.root)];
  }

  lemma {:induction false} FrontStep(g: Grammar, c: nat, v: nat, y: seq<Symbol>)
    requires DerivesRightmost(g, [N(g.root)], [N(c)] + y) && IsVariant(g, c, v) && AllTerminal(y)
    ensures DerivesRightmost(g, [N(g.root)], Rhs(g, c, v) + y)
  {
    assert [] + [N(c)] + y == [N(c)] + y && [] + Rhs(g, c, v) + y == Rhs(g, c, v) + y;
    assert RewritesAt(g, [N(c)] + y, Rhs(g, c, v) + y, [], c, v, y);
    RightmostStep(g, [N(g.root)], [N(c)] + y, Rhs(g, c, v) + y);
  }

  lemma {:induction false} FrontItem(g: Grammar, c: nat, v: nat, k: nat, w: seq<Symbol>, look: int)
    requires IsVariant(g, c, v) && k <= |Rhs(g, c, v)| && AllTerminal(w) && FirstIs(w, look)
    requires DerivesRightmost(g, [N(g.root)], [N(c)] + w)
    ensures Valid(g, Rhs(g, c, v)[..k], Item(c, v, k, look))
  {
    assert [] + [N(c)] + w == [N(c)] + w && [] + Rhs(g, c, v)[..k] == Rhs(g, c, v)[..k];
    assert ValidBy(g, Rhs(g, c, v)[..k], Item(c, v, k, look), [], w);
  }

  // ------------------------------------------------- a clash that the generator misses

  /** A -> B | 4, B -> A, S -> A 3, and the root. */
  const CHAIN: Grammar := Grammar([[[N(1)], [T(4)]], [[N(0)]], [[N(0), T(3)]], [[N(2)]]], 3)

  lemma {:induction false} ChainIsProper()
    ensures Proper(CHAIN) && Rooted(CHAIN)
  {
  }

  lemma {:induction false} ChainIsProductive()
    ensures Productive(CHAIN)
  {
    var a := Node(0, 1, [Leaf(Lexeme(4, 0, 0))]);
    var b, s := Node(1, 0, [a]), Node(2, 0, [a, Leaf(Lexeme(3, 0, 0))]);
    assert Derives(CHAIN, N(0), a);
    assert Derives(CHAIN, N(1), b);
    assert Derives(CHAIN, N(2), s);
    assert Derives(CHAIN, N(3), Node(3, 0, [s]));
    assert forall r: nat :: r < 4 ==> Produces(CHAIN, r);
  }

  /** Everything that the root derives. */
  predicate ChainForm(f: seq<Symbol>) {
    f == [N(3)] || f == [N(2)] || f == [N(0), T(3)] || f == [N(1), T(3)] || f == [T(4), T(3)]
  }

  lemma {:induction false} ChainRewrites(f: seq<Symbol>, f': seq<Symbol>)
    requires ChainForm(f) && Rewrites(CHAIN, f, f')
    ensures ChainForm(f')
  {
    var x, c, v, y :| RewritesAt(CHAIN, f, f', x, c, v, y);
    assert f[|x|] == N(c);
    assert x == [];
    assert y == f[1..];
  }

  lemma {:induction false} ChainForms(f: seq<Symbol>, n: nat)
    requires DerivesIn(CHAIN, [N(3)], f, n)
    ensures ChainForm(f)
    decreases n
  {
    if n > 0 {
      var m :| DerivesIn(CHAIN, [N(3)], m, n - 1) && Rewrites(CHAIN, m, f);
      ChainForms(m, n - 1);
      ChainRewrites(m, f);
    }
  }

  /** The valid items: those of S before the end of file, the others before token 3. */
  lemma {:induction false} ChainValid(phi: seq<Symbol>, it: Item)
    requires Valid(CHAIN, phi, it)
    ensures ItemOk(CHAIN, it) && phi == Rhs(CHAIN, it.rule, it.variant)[..it.pos]
    ensures it.look == if it.rule < 2 then 3 else TKN_EOF
  {
    var pre: seq<Symbol>, w: seq<Symbol> :| ValidBy(CHAIN, phi, it, pre, w);
    var f := pre + [N(it.rule)] + w;
    var n: nat :| DerivesIn(CHAIN, [N(3)], f, n);
    ChainForms(f, n);
    assert f[|pre|] == N(it.rule);
    assert pre == [];
    assert w == f[1..];
  }

  lemma {:induction false} ChainOneComplete(phi: seq<Symbol>, it: Item, p: Item)
    requires Valid(CHAIN, phi, it) && Valid(CHAIN, phi, p) && Complete(CHAIN, it) && Complete(CHAIN, p)
    ensures it.rule == p.rule && it.variant == p.variant
  {
    ChainValid(phi, it);
    ChainValid(phi, p);
    hide Valid;
    assert Rhs(CHAIN, it.rule, it.variant)[..it.pos] == Rhs(CHAIN, it.rule, it.variant);
    assert Rhs(CHAIN, p.rule, p.variant)[..p.pos] == Rhs(CHAIN, p.rule, p.variant);
  }

  /** No two variants are complete together, so the generator accepts the grammar. */
  lemma {:induction false} ChainIsAccepted()
    ensures !TwoComplete(CHAIN)
  {
    if phi, it, p :| TwoCompleteAt(CHAIN, phi, it, p) {
      ChainOneComplete(phi, it, p);
    }
  }

  lemma {:induction false} ChainDerives()
    ensures DerivesRightmost(CHAIN, [N(3)], [N(2)] + [])
    ensures DerivesRightmost(CHAIN, [N(3)], [N(0)] + [T(3)])
    ensures DerivesRightmost(CHAIN, [N(3)], [N(1)] + [T(3)])
  {
    hide DerivesRightmost;
    RootForm(CHAIN);
    FrontStep(CHAIN, 3, 0, []);
    FrontStep(CHAIN, 2, 0, []);
    assert Rhs(CHAIN, 2, 0) + [] == [N(0)] + [T(3)];
    FrontStep(CHAIN, 0, 0, [T(3)]);
  }

  /** The items that matter are valid. */
  lemma {:induction false} ChainItems()
    ensures Valid(CHAIN, [], Item(0, 1, 0, 3)) && Valid(CHAIN, [T(4)], Item(0, 1, 1, 3))
    ensures Valid(CHAIN, [], Item(2, 0, 0, TKN_EOF)) && Valid(CHAIN, [N(0)], Item(2, 0, 1, TKN_EOF))
    ensures Valid(CHAIN, [], Item(1, 0, 0, 3)) && Valid(CHAIN, [N(0)], Item(1, 0, 1, 3))
    ensures Valid(CHAIN, [], Item(0, 0, 0, 3)) && Valid(CHAIN, [N(1)], Item(0, 0, 1, 3))
  {
    ChainDerives();
    hide DerivesRightmost, Valid;
    FrontItem(CHAIN, 0, 1, 0, [T(3)], 3);
    FrontItem(CHAIN, 0, 1, 1, [T(3)], 3);
    FrontItem(CHAIN, 2, 0, 0, [], TKN_EOF);
    FrontItem(CHAIN, 2, 0, 1, [], TKN_EOF);
    FrontItem(CHAIN, 1, 0, 0, [T(3)], 3);
    FrontItem(CHAIN, 1, 0, 1, [T(3)], 3);
    FrontItem(CHAIN, 0, 0, 0, [T(3)], 3);
    FrontItem(CHAIN, 0, 0, 1, [T(3)], 3);
    assert Rhs(CHAIN, 0, 1)[..1] == [T(4)] && Rhs(CHAIN, 2, 0)[..1] == [N(0)];
    assert Rhs(CHAIN, 1, 0)[..1] == [N(0)] && Rhs(CHAIN, 0, 0)[..1] == [N(1)];
  }

  /** Behind A the generator should have refused a reduction and a shift on token 3. */
  lemma {:induction false} ChainClashes()
    ensures ShiftReduce(CHAIN)
  {
    ChainItems();
    assert ShiftReduceAt(CHAIN, [N(0)], Item(1, 0, 1, 3), Item(2, 0, 1, TKN_EOF));
  }

  // ------------------------------------------------- a run on its tables never stops

  /** What the generator gives for the grammar. */
  ghost predicate ChainTables(ss: seq<State>, ids: seq<nat>, table: seq<ParserState>) {
    Finished(CHAIN, ss) && TableFor(CHAIN, Sets(ss), ids, table) && FirstActionsWin(CHAIN, ids, ss, table)
  }

  ghost predicate StateAfter(ss: seq<State>, phi: seq<Symbol>, s: nat) {
    exists path :: Spells(CHAIN, Sets(ss), path, phi) && path[|phi|] == s
  }

  lemma {:induction false} OneStateAfter(ss: seq<State>, phi: seq<Symbol>, s: nat, t: nat)
    requires Finished(CHAIN, ss) && StateAfter(ss, phi, s) && StateAfter(ss, phi, t)
    ensures s == t
  {
    var p :| Spells(CHAIN, Sets(ss), p, phi) && p[|phi|] == s;
    var q :| Spells(CHAIN, Sets(ss), q, phi) && q[|phi|] == t;
    SpelledOnce(CHAIN, ss, p, q, phi);
  }

  /** The state after phi holds the valid items and, bare, only their cores. */
  lemma {:induction false} HeldAfter(ss: seq<State>, phi: seq<Symbol>, s: nat, it: Item)
    requires Finished(CHAIN, ss) && StateAfter(ss, phi, s)
    ensures s < |ss| && (Valid(CHAIN, phi, it) ==> it in Sets(ss)[s])
    ensures it in Sets(ss)[s] ==> exists b :: Valid(CHAIN, phi, it.(look := b)) && (it.look >= 0 ==> b == it.look)
  {
    hide *;
    ChainIsProper();
    ChainIsProductive();
    var path := PathAfter(ss, phi, s);
    if Valid(CHAIN, phi, it) {
      ValidIsHeld(CHAIN, Sets(ss), path, phi, it);
    }
    if it in Sets(ss)[s] {
      var v := HeldIsValid(CHAIN, ss, path, phi, it);
    }
  }

  lemma {:induction false} PathAfter(ss: seq<State>, phi: seq<Symbol>, s: nat) returns (path: seq<nat>)
    requires StateAfter(ss, phi, s)
    ensures Spells(CHAIN, Sets(ss), path, phi) && path[|phi|] == s
    ensures |Sets(ss)| == |ss| && s < |ss|
  {
    path :| Spells(CHAIN, Sets(ss), path, phi) && path[|phi|] == s;
    if phi != [] {
      var n := |phi| - 1;
      assert Transition(CHAIN, Sets(ss), Sets(ss)[path[n]], phi[n], path[n + 1]);
    }
  }

  lemma {:induction false} FirstState(ss: seq<State>)
    requires Finished(CHAIN, ss)
    ensures StateAfter(ss, [], 0)
  {
    EmptyPath(CHAIN, ss);
  }

  lemma {:induction false} ReducesAlone(ss: seq<State>, ids: seq<nat>, table: seq<ParserState>, phi: seq<Symbol>,
        s: nat,
          it: Item)
    requires ChainTables(ss, ids, table) && StateAfter(ss, phi, s) && s < |ss| && |table| == |ss|
    requires Valid(CHAIN, phi, it) && Complete(CHAIN, it) && it.look == 3
    requires forall p :: Valid(CHAIN, phi, p) && Next(CHAIN, p) == Some(T(3)) ==> Precedes(it, p)
    ensures it in Sets(ss)[s] && FindAction(table[s].actions, 3) < |table[s].actions|
    ensures table[s].actions[FindAction(table[s].actions, 3)].stateOrLength < 0
  {
    ChainIsProper();
    hide Finished, TableFor, FirstActionsWin, Valid, Complete, StateAfter;
    HeldAfter(ss, phi, s, it);
    ReducesIffFirst(CHAIN, ss, ids, table, s, it, 3);
    forall p | p in Sets(ss)[s] && Next(CHAIN, p) == Some(T(3))
      ensures Precedes(it, p)
    {
      HeldAfter(ss, phi, s, p);
      var b: int :| Valid(CHAIN, phi, p.(look := b));
      NextAnyLook(CHAIN, p, b);
      assert Precedes(it, p.(look := b));
    }
  }

  /** The entry found reduces the one complete item of the state. */
  lemma {:induction false} ReducesIt(ss: seq<State>, ids: seq<nat>, table: seq<ParserState>, phi: seq<Symbol>, s: nat,
          it: Item)
    returns (a: ParserAction)
    requires ChainTables(ss, ids, table) && StateAfter(ss, phi, s) && s < |ss| && |table| == |ss|
    requires Valid(CHAIN, phi, it) && Complete(CHAIN, it) && it.look == 3
    requires forall p :: Valid(CHAIN, phi, p) && Next(CHAIN, p) == Some(T(3)) ==> Precedes(it, p)
    ensures FindAction(table[s].actions, 3) < |table[s].actions|
    ensures a == table[s].actions[FindAction(table[s].actions, 3)]
    ensures |Sets(ss)| == |ss| && ReduceEntry(CHAIN, Sets(ss), ids, s, a, it.rule, it.variant)
  {
    ReducesAlone(ss, ids, table, phi, s, it);
    hide FirstActionsWin, Finished, TableFor, Valid, StateAfter, Precedes, Complete;
    a := table[s].actions[FindAction(table[s].actions, 3)];
    ActionEntry(CHAIN, Sets(ss), ids, table, s, FindAction(table[s].actions, 3));
    var r, v :| ReduceEntry(CHAIN, Sets(ss), ids, s, a, r, v);
    var p := Item(r, v, |Rhs(CHAIN, r, v)|, 3);
    HeldAfter(ss, phi, s, p);
    assert p.(look := 3) == p;
    CompleteAtEnd(r, v, 3);
    ChainOneComplete(phi, it, p);
  }

  lemma {:induction false} CompleteAtEnd(r: nat, v: nat, look: int)
    requires IsVariant(CHAIN, r, v)
    ensures Complete(CHAIN, Item(r, v, |Rhs(CHAIN, r, v)|, look))
  {
  }

  /** A unit reduction over the first state leads to the state after its rule. */
  lemma {:induction false} ChasesOn(ss: seq<State>, ids: seq<nat>, table: seq<ParserState>, phi: seq<Symbol>, s: nat,
          it: Item, q: Item)
    returns (u: nat)
    requires ChainTables(ss, ids, table) && StateAfter(ss, phi, s) && s < |ss| && |table| == |ss| > 0
    requires Valid(CHAIN, phi, it) && Complete(CHAIN, it) && it.look == 3 && it.pos == 1 && it.rule != 3
    requires forall p :: Valid(CHAIN, phi, p) && Next(CHAIN, p) == Some(T(3)) ==> Precedes(it, p)
    requires Valid(CHAIN, [], q) && Next(CHAIN, q) == Some(N(it.rule))
    ensures Chased(table, 0, 3, s) == Some(u) && StateAfter(ss, [N(it.rule)], u)
  {
    var a := ReducesIt(ss, ids, table, phi, s, it);
    hide FirstActionsWin, Finished, TableFor, Valid, StateAfter, Precedes;
    FirstState(ss);
    HeldAfter(ss, [], 0, q);
    TableAt(CHAIN, Sets(ss), ids, table, 0);
    u := GotoState(table[0].gotos, a.rule, s);
    GotoFound(CHAIN, Sets(ss), ids, 0, table[0], q, it.rule, a.rule, s);
    OneMoreAfter(ss, 0, N(it.rule), u);
  }

  lemma {:induction false} OneMoreAfter(ss: seq<State>, s: nat, x: Symbol, u: nat)
    requires StateAfter(ss, [], s) && s < |Sets(ss)| && Transition(CHAIN, Sets(ss), Sets(ss)[s], x, u)
    ensures StateAfter(ss, [x], u)
  {
    var path :| Spells(CHAIN, Sets(ss), path, []) && path[0] == s;
    SpellsOneMore(CHAIN, Sets(ss), path, [], x, u);
    assert [] + [x] == [x];
    assert (path + [u])[1] == u;
  }

  /** Behind A on token 3, B -> A goes before S -> A 3. */
  lemma {:induction false} ReductionPrecedes(phi: seq<Symbol>, it: Item, p: Item)
    requires Valid(CHAIN, phi, it) && Complete(CHAIN, it) && it.rule < 2
    requires Valid(CHAIN, phi, p) && Next(CHAIN, p) == Some(T(3))
    ensures Precedes(it, p)
  {
    ChainValid(phi, p);
  }

  lemma {:induction false} ChasesUnit(ss: seq<State>, ids: seq<nat>, table: seq<ParserState>, phi: seq<Symbol>, s: nat,
          it: Item, q: Item)
    returns (u: nat)
    requires ChainTables(ss, ids, table) && StateAfter(ss, phi, s) && s < |ss| && |table| == |ss| > 0
    requires Valid(CHAIN, phi, it) && Complete(CHAIN, it) && it.look == 3 && it.pos == 1 && it.rule < 2
    requires Valid(CHAIN, [], q) && Next(CHAIN, q) == Some(N(it.rule))
    ensures Chased(table, 0, 3, s) == Some(u) && StateAfter(ss, [N(it.rule)], u) && u < |ss|
  {
    hide ChainTables, StateAfter, Valid;
    forall p | Valid(CHAIN, phi, p) && Next(CHAIN, p) == Some(T(3))
      ensures Precedes(it, p)
    {
      ReductionPrecedes(phi, it, p);
    }
    u := ChasesOn(ss, ids, table, phi, s, it, q);
    var path := PathAfter(ss, [N(it.rule)], u);
  }

  /** Over the first state the reductions to A and B take each other's place. */
  lemma {:induction false} ChainCycles(ss: seq<State>, ids: seq<nat>, table: seq<ParserState>, s: nat) returns (a: nat)
    requires ChainTables(ss, ids, table) && StateAfter(ss, [T(4)], s) && s < |ss| && |table| == |ss| > 0
    ensures Chased(table, 0, 3, s) == Some(a) && OnCycle(table, 0, 3, a)
  {
    assert Finished(CHAIN, ss);
    hide ChainTables, Finished, StateAfter, Valid, Chased;
    ChainItems();
    a := ChasesUnit(ss, ids, table, [T(4)], s, Item(0, 1, 1, 3), Item(2, 0, 0, TKN_EOF));
    var b := ChasesUnit(ss, ids, table, [N(0)], a, Item(1, 0, 1, 3), Item(0, 0, 0, 3));
    var again := ChasesUnit(ss, ids, table, [N(1)], b, Item(0, 0, 1, 3), Item(2, 0, 0, TKN_EOF));
    OneStateAfter(ss, [N(0)], a, again);
    assert Chase(table, 0, 3, b, 1) == Some(a);
    assert Chase(table, 0, 3, a, 2) == Some(a);
  }

  // ---------------------------------------------------------------- the run itself

  /** The sentence 4 3. */
  function ChainInput(): seq<Lexeme> {
    [Lexeme(4, 0, 1), Lexeme(3, 2, 3)]
  }

  lemma {:induction false} NothingReducedFirst(ss: seq<State>, ids: seq<nat>, a: ParserAction, r: nat, v: nat)
    requires Finished(CHAIN, ss) && |Sets(ss)| > 0
    ensures !ReduceEntry(CHAIN, Sets(ss), ids, 0, a, r, v)
  {
    hide Finished, Valid, StateAfter, Sets;
    if ReduceEntry(CHAIN, Sets(ss), ids, 0, a, r, v) {
      FirstState(ss);
      var p := Item(r, v, |Rhs(CHAIN, r, v)|, a.token);
      HeldAfter(ss, [], 0, p);
      var b: int :| Valid(CHAIN, [], p.(look := b));
      ChainValid([], p.(look := b));
    }
  }

  lemma {:induction false} ShiftServes(g: Grammar, sets: seq<set<Item>>, ids: seq<nat>, table: seq<ParserState>, s: nat,
          it: Item, t: Token)
    requires TableFor(g, sets, ids, table) && s < |sets| && it in sets[s] && Next(g, it) == Some(T(t))
    ensures FindAction(table[s].actions, t) < |table[s].actions|
  {
    assert StateFor(g, sets, ids, s, table[s]) && Served(g, sets, ids, s, table[s], it);
  }

  /** In the first state token 4 is shifted. */
  lemma {:induction false} FirstEntry(ss: seq<State>, ids: seq<nat>, table: seq<ParserState>) returns (a: ParserAction)
    requires ChainTables(ss, ids, table) && |table| == |ss| > 0 && |Sets(ss)| == |ss|
    ensures FindAction(table[0].actions, 4) < |table[0].actions|
    ensures a == table[0].actions[FindAction(table[0].actions, 4)]
    ensures ShiftEntry(CHAIN, Sets(ss), 0, a)
  {
    var it := Item(0, 1, 0, 3);
    assert Next(CHAIN, it) == Some(T(4));
    hide FirstActionsWin, Finished, TableFor, Valid, StateAfter, Next, ShiftEntry, ReduceEntry, Sets;
    ChainItems();
    FirstState(ss);
    HeldAfter(ss, [], 0, it);
    ShiftServes(CHAIN, Sets(ss), ids, table, 0, it, 4);
    var i := FindAction(table[0].actions, 4);
    a := table[0].actions[i];
    ActionEntry(CHAIN, Sets(ss), ids, table, 0, i);
    if r, v :| ReduceEntry(CHAIN, Sets(ss), ids, 0, a, r, v) {
      NothingReducedFirst(ss, ids, a, r, v);
    }
  }

  lemma {:induction false} ChainSentence()
    ensures Rooted(CHAIN) && exists t :: Derives(CHAIN, Body(CHAIN), t) && Yield(t) == ChainInput()
  {
    ChainIsProper();
    var four, three := Leaf(Lexeme(4, 0, 1)), Leaf(Lexeme(3, 2, 3));
    var a := Node(0, 1, [four]);
    var s := Node(2, 0, [a, three]);
    assert Derives(CHAIN, N(0), a);
    assert Derives(CHAIN, Body(CHAIN), s);
    YieldAllSplit([a, three]);
    YieldAllSplit([three]);
    YieldAllSplit([four]);
    assert [a, three][1..] == [three] && [three][1..] == [] && [four][1..] == [];
    assert Yield(a) == [Lexeme(4, 0, 1)];
  }

  lemma {:induction false} StepShifts(table: seq<ParserState>, input: seq<Lexeme>, stack: seq<Entry>, pos: nat)
    requires stack != [] && Top(stack) < |table|
    requires var actions := table[Top(stack)].actions;
      var i := FindAction(actions, Lookahead(input, pos).id);
      i < |actions| && actions[i].stateOrLength >= 0
    ensures var actions := table[Top(stack)].actions;
      Step(table, input, stack, pos) ==
        ShiftStep(input, stack, pos, actions[FindAction(actions, Lookahead(input, pos).id)].stateOrLength)
  {
  }

  lemma {:induction false} ChainShifts(ss: seq<State>, ids: seq<nat>, table: seq<ParserState>) returns (s: nat)
    requires ChainTables(ss, ids, table) && |table| == |ss| > 0
    ensures Step(table, ChainInput(), [INITIAL_ENTRY], 0) ==
      Running([INITIAL_ENTRY, Entry(s, 4, 0, 1, Leaf(Lexeme(4, 0, 1)))], 1)
    ensures StateAfter(ss, [T(4)], s) && s < |ss|
  {
    hide ChainTables, StateAfter, Step, Transition, Sets;
    ChainFacts(ss, ids, table);
    var a := FirstEntry(ss, ids, table);
    FirstState(ss);
    s := a.stateOrLength;
    OneMoreAfter(ss, 0, T(4), s);
    var path := PathAfter(ss, [T(4)], s);
    StepShifts(table, ChainInput(), [INITIAL_ENTRY], 0);
  }

  lemma {:induction false} ChainFacts(ss: seq<State>, ids: seq<nat>, table: seq<ParserState>)
    requires ChainTables(ss, ids, table)
    ensures Finished(CHAIN, ss) && |Sets(ss)| == |ss|
  {
  }

  /** With the tables that the generator makes, the parser never finishes on the sentence 4 3. */
  lemma {:induction false} ChainRunsForever(ss: seq<State>, ids: seq<nat>, table: seq<ParserState>)
    requires ChainTables(ss, ids, table) && |table| == |ss| > 0
    ensures forall n :: Run(table, ChainInput(), START, n).Running?
    ensures Rooted(CHAIN) && exists t :: Derives(CHAIN, Body(CHAIN), t) && Yield(t) == ChainInput()
  {
    ChainSentence();
    hide ChainTables, StateAfter, Step, OnCycle, Chased;
    var s := ChainShifts(ss, ids, table);
    var a := ChainCycles(ss, ids, table, s);
    var stack := [INITIAL_ENTRY, Entry(s, 4, 0, 1, Leaf(Lexeme(4, 0, 1)))];
    var input := ChainInput();
    assert Lookahead(input, 1).id == 3;
    RunOneMore(table, input, START, 0);
    var e := ChasedStep(table, input, stack, 1, 0);
    RunOneMore(table, input, START, 1);
    assert stack[..1] + [e] == [INITIAL_ENTRY, e];
    assert Trapped(table, input, 2, [INITIAL_ENTRY, e], 1);
    forall n: nat
      ensures Run(table, input, START, n).Running?
    {
      TrappedGoesOn(table, input, 2, [INITIAL_ENTRY, e], 1, n);
    }
  }

  /** The generator does make such tables. */
  method MakeChainTables() returns (table: seq<ParserState>)
    ensures !ConflictFree(table) && forall n :: Run(table, ChainInput(), START, n).Running?
  {
    ChainIsProper();
    ChainIsProductive();
    ChainIsAccepted();
    ChainClashes();
    hide Proper, Rooted, Productive, TwoComplete, ShiftReduce, TableFor, FirstActionsWin, ConflictFree, TokensAsActions;
    var ok, ids, ss;
    ok, table, ids, ss := MakeTables(CHAIN);
    AcceptedIff(CHAIN, ok, ss);
    ConflictFreeIff(CHAIN, ss, table);
    TableFacts(CHAIN, Sets(ss), ids, table);
    ChainRunsForever(ss, ids, table);
  }

  // ----------------------------------------------------- a grammar refused needlessly

  /** No state calls for two different steps on the same token: what LR(1) parsing needs. */
  ghost predicate Lr1(g: Grammar) {
    && !ShiftReduce(g)
    && forall phi, it, p :: TwoCompleteAt(g, phi, it, p) ==> it.look != p.look
  }

  /** A -> 5, B -> 5, S -> A 3 | B 4, and the root. */
  const TWINS: Grammar := Grammar([[[T(5)]], [[T(5)]], [[N(0), T(3)], [N(1), T(4)]], [[N(2)]]], 3)

  lemma {:induction false} TwinsIsProper()
    ensures Proper(TWINS) && Rooted(TWINS)
  {
  }

  lemma {:induction false} TwinsIsProductive()
    ensures Productive(TWINS)
  {
    var a, b := Node(0, 0, [Leaf(Lexeme(5, 0, 0))]), Node(1, 0, [Leaf(Lexeme(5, 0, 0))]);
    var s := Node(2, 0, [a, Leaf(Lexeme(3, 0, 0))]);
    assert Derives(TWINS, N(0), a);
    assert Derives(TWINS, N(1), b);
    assert Derives(TWINS, N(2), s);
    assert Derives(TWINS, N(3), Node(3, 0, [s]));
    assert forall r: nat :: r < 4 ==> Produces(TWINS, r);
  }

  predicate TwinsForm(f: seq<Symbol>) {
    || f == [N(3)] || f == [N(2)] || f == [N(0), T(3)] || f == [N(1), T(4)]
    || f == [T(5), T(3)] || f == [T(5), T(4)]
  }

  lemma {:induction false} TwinsRewrites(f: seq<Symbol>, f': seq<Symbol>)
    requires TwinsForm(f) && Rewrites(TWINS, f, f')
    ensures TwinsForm(f')
  {
    var x, c, v, y :| RewritesAt(TWINS, f, f', x, c, v, y);
    assert f[|x|] == N(c);
    assert x == [];
    assert y == f[1..];
  }

  lemma {:induction false} TwinsForms(f: seq<Symbol>, n: nat)
    requires DerivesIn(TWINS, [N(3)], f, n)
    ensures TwinsForm(f)
    decreases n
  {
    if n > 0 {
      var m :| DerivesIn(TWINS, [N(3)], m, n - 1) && Rewrites(TWINS, m, f);
      TwinsForms(m, n - 1);
      TwinsRewrites(m, f);
    }
  }

  lemma {:induction false} TwinsValid(phi: seq<Symbol>, it: Item)
    requires Valid(TWINS, phi, it)
    ensures ItemOk(TWINS, it) && phi == Rhs(TWINS, it.rule, it.variant)[..it.pos]
    ensures it.look == if it.rule == 0 then 3 else if it.rule == 1 then 4 else TKN_EOF
  {
    var pre: seq<Symbol>, w: seq<Symbol> :| ValidBy(TWINS, phi, it, pre, w);
    var f := pre + [N(it.rule)] + w;
    var n: nat :| DerivesIn(TWINS, [N(3)], f, n);
    TwinsForms(f, n);
    assert f[|pre|] == N(it.rule);
    assert pre == [];
    assert w == f[1..];
  }

  lemma {:induction false} TwinsTwoSteps(phi: seq<Symbol>, it: Item, p: Item)
    requires Valid(TWINS, phi, it) && Valid(TWINS, phi, p) && Complete(TWINS, it)
    ensures Complete(TWINS, p) && it.look == p.look ==> it.rule == p.rule && it.variant == p.variant
    ensures Next(TWINS, p) != Some(T(3)) && Next(TWINS, p) != Some(T(4)) && Next(TWINS, p) != Some(T(5))
  {
    TwinsValid(phi, it);
    TwinsValid(phi, p);
    hide Valid;
    assert Rhs(TWINS, it.rule, it.variant)[..it.pos] == Rhs(TWINS, it.rule, it.variant);
    if Complete(TWINS, p) {
      assert Rhs(TWINS, p.rule, p.variant)[..p.pos] == Rhs(TWINS, p.rule, p.variant);
    } else {
      assert phi[0] == Rhs(TWINS, it.rule, it.variant)[0];
      assert p.pos > 0 ==> phi[0] == Rhs(TWINS, p.rule, p.variant)[0];
      assert |phi| == p.pos == it.pos;
    }
  }

  lemma {:induction false} TwinsIsLr1()
    ensures Lr1(TWINS)
  {
    forall phi, it, p
      ensures !ShiftReduceAt(TWINS, phi, it, p) && (TwoCompleteAt(TWINS, phi, it, p) ==> it.look != p.look)
    {
      if Valid(TWINS, phi, it) && Valid(TWINS, phi, p) && Complete(TWINS, it) {
        TwinsTwoSteps(phi, it, p);
        TwinsValid(phi, it);
      }
    }
  }

  /** After token 5 both variants are complete, before different tokens. */
  lemma {:induction false} TwinsIsRefused()
    ensures TwoComplete(TWINS)
  {
    RootForm(TWINS);
    hide DerivesRightmost, Valid;
    FrontStep(TWINS, 3, 0, []);
    assert Rhs(TWINS, 3, 0) + [] == [N(2)] + [];
    FrontStep(TWINS, 2, 0, []);
    FrontStep(TWINS, 2, 1, []);
    assert Rhs(TWINS, 2, 0) + [] == [N(0)] + [T(3)] && Rhs(TWINS, 2, 1) + [] == [N(1)] + [T(4)];
    FrontItem(TWINS, 0, 0, 1, [T(3)], 3);
    FrontItem(TWINS, 1, 0, 1, [T(4)], 4);
    assert Rhs(TWINS, 0, 0)[..1] == Rhs(TWINS, 1, 0)[..1] == [T(5)];
    assert TwoCompleteAt(TWINS, [T(5)], Item(0, 0, 1, 3), Item(1, 0, 1, 4));
  }

  /** What the generator accepts and tables without conflicts need is LR(1), but not the
      other way round. */
  lemma {:induction false} StricterThanLr1(g: Grammar)
    ensures !TwoComplete(g) && !ShiftReduce(g) ==> Lr1(g)
    ensures Lr1(TWINS) && TwoComplete(TWINS)
  {
    TwinsIsLr1();
    TwinsIsRefused();
  }

  /** The generator refuses an LR(1) grammar. */
  method RefuseTwins() returns (ok: bool)
    ensures !ok && Lr1(TWINS)
  {
    TwinsIsProper();
    TwinsIsProductive();
    TwinsIsRefused();
    TwinsIsLr1();
    hide Proper, Rooted, Productive, TwoComplete, Lr1, TableFor, FirstActionsWin, TokensAsActions, Finished;
    var table, ids, ss;
    ok, table, ids, ss := MakeTables(TWINS);
    AcceptedIff(TWINS, ok, ss);
  }
}
