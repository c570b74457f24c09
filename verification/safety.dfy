/** What every reachable configuration of the parser keeps: the stack is a path in the
    automaton, its trees derive the symbols of the path and spell the tokens read so
    far, and each entry covers the text of its tree. From this follow the handle
    below a reduction, its goto, and the two entries at acceptance. */
module Safety {
  import opened Options
  import opened TokenSets
  import opened Grammars
  import opened Items
  import opened Automaton
  import opened Tables
  import opened Machine

  /** The symbol at the root of a tree. */
  function RootSymbol(t: Tree): Option<Symbol> {
    match t
    case Leaf(l) => if 0 < l.id < MAX_TOKENS then Some(T(l.id)) else None
    case Node(r, _, _) => Some(N(r))
  }

  /** An entry over the state s0: its state is entered on the root symbol of its
      tree, and its identifier and text range are those of the tree. */
  ghost predicate EntryOk(g: Grammar, sets: seq<set<Item>>, ids: seq<nat>, s0: nat, e: Entry) {
    && s0 < |sets| && RootSymbol(e.tree).Some?
    && Transition(g, sets, sets[s0], RootSymbol(e.tree).value, e.state)
    && Derives(g, RootSymbol(e.tree).value, e.tree)
    && Yield(e.tree) != [] && e.first == Yield(e.tree)[0].first && e.last == Yield(e.tree)[|Yield(e.tree)| - 1].last
    && (e.tree.Leaf? ==> e.id == e.tree.lexeme.id) && (e.tree.Node? ==> HasId(ids, e.tree.rule, e.id))
  }

  /** The stack is a path from the first state. */
  ghost predicate PathOk(g: Grammar, sets: seq<set<Item>>, ids: seq<nat>, stack: seq<Entry>) {
    && stack != [] && stack[0].state == 0
    && forall i :: 0 < i < |stack| ==> EntryOk(g, sets, ids, stack[i - 1].state, stack[i])
  }

  ghost predicate Inv(g: Grammar, sets: seq<set<Item>>, ids: seq<nat>, input: seq<Lexeme>, stack: seq<Entry>,
        pos: nat) {
    && PathOk(g, sets, ids, stack) && pos <= |input|
    && YieldAll(Trees(stack[1..])) == input[..pos]
  }

  ghost function Top(stack: seq<Entry>): nat
    requires stack != []
  {
    stack[|stack| - 1].state
  }

  // --------------------------------------------------------------------- path facts

  lemma {:induction false} PathPrefix(g: Grammar, sets: seq<set<Item>>, ids: seq<nat>, stack: seq<Entry>, n: nat)
    requires PathOk(g, sets, ids, stack) && 0 < n <= |stack|
    ensures PathOk(g, sets, ids, stack[..n])
  {
  }

  lemma {:induction false} TopInRange(g: Grammar, sets: seq<set<Item>>, ids: seq<nat>, stack: seq<Entry>)
    requires PathOk(g, sets, ids, stack) && |sets| > 0
    ensures Top(stack) < |sets|
  {
    if |stack| > 1 {
      assert EntryOk(g, sets, ids, stack[|stack| - 2].state, stack[|stack| - 1]);
    }
  }

  lemma {:induction false} TopClosed(g: Grammar, sets: seq<set<Item>>, ids: seq<nat>, stack: seq<Entry>)
    requires PathOk(g, sets, ids, stack) && |sets| > 0 && IsClosure(g, StartKernel(g), sets[0])
    ensures Top(stack) < |sets| && Closed(g, sets[Top(stack)])
  {
    if |stack| > 1 {
      assert EntryOk(g, sets, ids, stack[|stack| - 2].state, stack[|stack| - 1]);
    }
  }

  /** The trees of the last k entries derive the k symbols before the dot of an item
      in the top state, and below them lies the item with its dot moved back. */
  ghost predicate BackedBy(g: Grammar, sets: seq<set<Item>>, stack: seq<Entry>, it: Item, k: nat) {
    && k < |stack| && k <= it.pos && ItemOk(g, it) && stack[|stack| - 1 - k].state < |sets|
    && it.(pos := it.pos - k) in sets[stack[|stack| - 1 - k].state]
    && DerivesAll(g, Rhs(g, it.rule, it.variant)[it.pos - k..it.pos], Trees(stack[|stack| - k..]))
  }

  lemma {:induction false} BackOne(g: Grammar, sets: seq<set<Item>>, ids: seq<nat>, stack: seq<Entry>, it: Item, k: nat)
    requires PathOk(g, sets, ids, stack) && |sets| > 0 && IsClosure(g, StartKernel(g), sets[0])
    requires BackedBy(g, sets, stack, it, k) && k < it.pos
    ensures BackedBy(g, sets, stack, it, k + 1)
  {
    var m := |stack| - 1 - k;
    var q := it.(pos := it.pos - k);
    if m == 0 {
      OriginOfItem(g, StartKernel(g), sets[0], q);
      assert false;
    }
    assert EntryOk(g, sets, ids, stack[m - 1].state, stack[m]);
    var x := RootSymbol(stack[m].tree).value;
    StepBack(g, sets[stack[m - 1].state], x, sets[stack[m].state], q);
    assert Rhs(g, it.rule, it.variant)[it.pos - k - 1] == x;
    var rhs, trees := Rhs(g, it.rule, it.variant)[it.pos - k - 1..it.pos], Trees(stack[m..]);
    forall i | 0 <= i < |trees|
      ensures Derives(g, rhs[i], trees[i])
    {
      if i > 0 {
        assert rhs[i] == Rhs(g, it.rule, it.variant)[it.pos - k..it.pos][i - 1];
        assert trees[i] == Trees(stack[|stack| - k..])[i - 1];
      }
    }
  }

  lemma {:induction false} BackTo(g: Grammar, sets: seq<set<Item>>, ids: seq<nat>, stack: seq<Entry>, it: Item, k: nat)
    requires PathOk(g, sets, ids, stack) && |sets| > 0 && IsClosure(g, StartKernel(g), sets[0])
    requires Top(stack) < |sets| && it in sets[Top(stack)] && ItemOk(g, it) && k <= it.pos
    ensures BackedBy(g, sets, stack, it, k)
  {
    if k == 0 {
      assert it.(pos := it.pos) == it;
    } else {
      BackTo(g, sets, ids, stack, it, k - 1);
      BackOne(g, sets, ids, stack, it, k - 1);
    }
  }

  lemma {:induction false} NeverExpandsRoot(g: Grammar, p: Item, it: Item)
    requires Rooted(g) && Expands(g, p, it)
    ensures it.rule != g.root
  {
    assert N(it.rule) in Rhs(g, p.rule, p.variant);
  }

  lemma {:induction false} StartItemNotRoot(g: Grammar, s: set<Item>, x: Symbol, t: set<Item>, it: Item)
    requires Rooted(g) && IsGoto(g, s, x, t) && it in t && it.pos == 0
    ensures it.rule != g.root
  {
    CalledForAfterGoto(g, s, x, t, it);
    var p :| p in t && Expands(g, p, it);
    NeverExpandsRoot(g, p, it);
  }

  /** A start item of the root rule lies in no state but the first entry's. */
  lemma {:induction false} RootOnlyAtBottom(g: Grammar, sets: seq<set<Item>>, ids: seq<nat>, stack: seq<Entry>,
          it: Item)
    requires Rooted(g) && PathOk(g, sets, ids, stack)
    requires Top(stack) < |sets| && it in sets[Top(stack)] && it.rule == g.root && it.pos == 0
    ensures |stack| == 1
  {
    if |stack| > 1 {
      var i := |stack| - 1;
      assert EntryOk(g, sets, ids, stack[i - 1].state, stack[i]);
      StartItemNotRoot(g, sets[stack[i - 1].state], RootSymbol(stack[i].tree).value, sets[stack[i].state], it);
    }
  }

  /** Below a start item of any other rule there is a transition on that rule. */
  lemma {:induction false} RuleCalledFor(g: Grammar, sets: seq<set<Item>>, ids: seq<nat>, stack: seq<Entry>,
          it: Item) returns (p: Item)
    requires PathOk(g, sets, ids, stack) && |sets| > 0 && IsClosure(g, StartKernel(g), sets[0])
    requires Top(stack) < |sets| && it in sets[Top(stack)] && it.rule != g.root && it.pos == 0
    ensures p in sets[Top(stack)] && Next(g, p) == Some(N(it.rule))
  {
    if |stack| > 1 {
      var i := |stack| - 1;
      assert EntryOk(g, sets, ids, stack[i - 1].state, stack[i]);
      CalledForAfterGoto(g, sets[stack[i - 1].state], RootSymbol(stack[i].tree).value, sets[stack[i].state], it);
    } else {
      CalledForAtStart(g, sets[0], it);
    }
    p :| p in sets[Top(stack)] && Expands(g, p, it);
  }

  // --------------------------------------------------------------------------- steps

  lemma {:induction false} YieldAllEnds(ts: seq<Tree>)
    requires ts != [] && forall t :: t in ts ==> Yield(t) != []
    ensures YieldAll(ts) != [] && YieldAll(ts)[0] == Yield(ts[0])[0]
    ensures var last := Yield(ts[|ts| - 1]); YieldAll(ts)[|YieldAll(ts)| - 1] == last[|last| - 1]
  {
    var n := |ts| - 1;
    assert ts == ts[..n] + [ts[n]];
    YieldAllAppend(ts[..n], [ts[n]]);
    assert YieldAll([ts[n]]) == Yield(ts[n]);
  }

  lemma {:induction false} PushKeepsPath(g: Grammar, sets: seq<set<Item>>, ids: seq<nat>, stack: seq<Entry>, e: Entry)
    requires PathOk(g, sets, ids, stack) && EntryOk(g, sets, ids, Top(stack), e)
    ensures PathOk(g, sets, ids, stack + [e])
  {
  }

  lemma {:induction false} TreesConcat(a: seq<Entry>, b: seq<Entry>)
    ensures Trees(a + b) == Trees(a) + Trees(b)
  {
  }

  lemma {:induction false} NoShiftOfEof(g: Grammar, sets: seq<set<Item>>, s: nat, a: ParserAction)
    requires Rooted(g) && s < |sets| && ShiftEntry(g, sets, s, a)
    ensures a.token != TKN_EOF
  {
    var it :| it in Advance(g, sets[s], T(a.token));
    var p :| p in sets[s] && Next(g, p) == Some(T(a.token));
    assert T(a.token) in Rhs(g, p.rule, p.variant);
  }

  lemma {:induction false} ShiftKeeps(g: Grammar, sets: seq<set<Item>>, ids: seq<nat>, input: seq<Lexeme>,
          stack: seq<Entry>, pos: nat, a: ParserAction)
    requires Rooted(g) && |sets| > 0 && Inv(g, sets, ids, input, stack, pos) && Top(stack) < |sets|
    requires ShiftEntry(g, sets, Top(stack), a) && a.token == Lookahead(input, pos).id
    ensures pos < |input|
    ensures ShiftStep(input, stack, pos, a.stateOrLength).Running?
    ensures var o := ShiftStep(input, stack, pos, a.stateOrLength);
      o.pos == pos + 1 && Inv(g, sets, ids, input, o.stack, o.pos)
  {
    NoShiftOfEof(g, sets, Top(stack), a);
    var l := input[pos];
    var e := Entry(a.stateOrLength, l.id, l.first, l.last, Leaf(l));
    PushKeepsPath(g, sets, ids, stack, e);
    assert (stack + [e])[1..] == stack[1..] + [e];
    TreesConcat(stack[1..], [e]);
    YieldAllAppend(Trees(stack[1..]), Trees([e]));
    assert YieldAll(Trees([e])) == Yield(Leaf(l)) == [l];
    assert input[..pos + 1] == input[..pos] + [l];
  }

  ghost predicate InputOk(input: seq<Lexeme>) {
    forall l :: l in input ==> l.id != TKN_EOF
  }

  /** The entry found by the goto lookup after a reduction to rule r. */
  lemma {:induction false} GotoFound(g: Grammar, sets: seq<set<Item>>, ids: seq<nat>, s: nat, ps: ParserState,
          p: Item, r: nat, id: nat, prior: nat)
    requires s < |sets| && StateFor(g, sets, ids, s, ps) && Distinct(ids) && HasId(ids, r, id)
    requires p in sets[s] && Next(g, p) == Some(N(r))
    ensures Transition(g, sets, sets[s], N(r), GotoState(ps.gotos, id, prior))
  {
    assert Served(g, sets, ids, s, ps, p);
    var e :| e in ps.gotos && GotoEntry(g, sets, ids, s, e, r);
    IdsAgree(ids, r, e.rule, r, id);
    var f :| f in ps.gotos && f.rule == id && f.state == GotoState(ps.gotos, id, prior);
    var r' :| GotoEntry(g, sets, ids, s, f, r');
    IdsAgree(ids, r', f.rule, r, id);
  }

  lemma {:induction false} TreesOfPath(g: Grammar, sets: seq<set<Item>>, ids: seq<nat>, stack: seq<Entry>, n: nat)
    requires PathOk(g, sets, ids, stack) && 0 < n <= |stack|
    ensures forall t :: t in Trees(stack[n..]) ==> Yield(t) != []
  {
    forall t | t in Trees(stack[n..])
      ensures Yield(t) != []
    {
      var i :| 0 <= i < |stack[n..]| && Trees(stack[n..])[i] == t;
      assert EntryOk(g, sets, ids, stack[n + i - 1].state, stack[n + i]);
    }
  }

  /** The entry built by a reduction fits on what is left of the stack. */
  lemma {:induction false} ReducedOk(g: Grammar, sets: seq<set<Item>>, ids: seq<nat>, stack: seq<Entry>, n: nat,
          base: ParserState, a: ParserAction,
                  r: nat, v: nat, p: Item)
    requires PathOk(g, sets, ids, stack) && 0 < n < |stack|
    requires IsVariant(g, r, v) && DerivesAll(g, Rhs(g, r, v), Trees(stack[|stack| - n..]))
    requires HasId(ids, r, a.rule) && a.reducer == Build(r, v) && Distinct(ids)
    requires var s := stack[|stack| - n - 1].state;
      s < |sets| && StateFor(g, sets, ids, s, base) && p in sets[s] && Next(g, p) == Some(N(r))
    ensures EntryOk(g, sets, ids, stack[|stack| - n - 1].state, Reduced(base, stack[|stack| - n..], a))
  {
    var s := stack[|stack| - n - 1].state;
    var popped := stack[|stack| - n..];
    GotoFound(g, sets, ids, s, base, p, r, a.rule, popped[0].state);
    PoppedRange(g, sets, ids, stack, n);
    hide StateFor, PathOk, Distinct, DerivesAll;
    assert Derives(g, N(r), Node(r, v, Trees(popped))) by {
      NodeDerives(g, r, v, Trees(popped));
    }
  }

  lemma {:induction false} NodeDerives(g: Grammar, r: nat, v: nat, kids: seq<Tree>)
    requires IsVariant(g, r, v) && DerivesAll(g, Rhs(g, r, v), kids)
    ensures Derives(g, N(r), Node(r, v, kids))
  {
  }

  /** The popped entries cover the text range of what their trees yield. */
  lemma {:induction false} PoppedRange(g: Grammar, sets: seq<set<Item>>, ids: seq<nat>, stack: seq<Entry>, n: nat)
    requires PathOk(g, sets, ids, stack) && 0 < n < |stack|
    ensures var popped, all := stack[|stack| - n..], YieldAll(Trees(stack[|stack| - n..]));
      all != [] && popped[0].first == all[0].first && popped[n - 1].last == all[|all| - 1].last
  {
    var popped := stack[|stack| - n..];
    TreesOfPath(g, sets, ids, stack, |stack| - n);
    YieldAllEnds(Trees(popped));
    assert EntryOk(g, sets, ids, stack[|stack| - n - 1].state, stack[|stack| - n]);
    assert EntryOk(g, sets, ids, stack[|stack| - 2].state, stack[|stack| - 1]);
    assert Trees(popped)[n - 1] == stack[|stack| - 1].tree && Trees(popped)[0] == stack[|stack| - n].tree;
  }

  /** Replacing the last n entries by one with the same yield keeps the invariant. */
  lemma {:induction false} ReplaceKeeps(g: Grammar, sets: seq<set<Item>>, ids: seq<nat>, input: seq<Lexeme>,
          stack: seq<Entry>, pos: nat, n: nat, e: Entry)
    requires Inv(g, sets, ids, input, stack, pos) && 0 < n < |stack|
    requires EntryOk(g, sets, ids, stack[|stack| - n - 1].state, e)
    requires Yield(e.tree) == YieldAll(Trees(stack[|stack| - n..]))
    ensures Inv(g, sets, ids, input, stack[..|stack| - n] + [e], pos)
  {
    var left, popped := stack[..|stack| - n], stack[|stack| - n..];
    PathPrefix(g, sets, ids, stack, |stack| - n);
    PushKeepsPath(g, sets, ids, left, e);
    assert stack[1..] == left[1..] + popped;
    TreesConcat(left[1..], popped);
    YieldAllAppend(Trees(left[1..]), Trees(popped));
    assert (left + [e])[1..] == left[1..] + [e];
    TreesConcat(left[1..], [e]);
    YieldAllAppend(Trees(left[1..]), Trees([e]));
    assert YieldAll(Trees([e])) == Yield(e.tree);
  }

  /** The item of a reduce entry, traced back below the entries it pops. */
  lemma {:induction false} HandleOnStack(g: Grammar, sets: seq<set<Item>>, ids: seq<nat>, stack: seq<Entry>,
          a: ParserAction, r: nat, v: nat)
    requires Proper(g) && PathOk(g, sets, ids, stack) && |sets| > 0 && IsClosure(g, StartKernel(g), sets[0])
    requires Top(stack) < |sets| && ReduceEntry(g, sets, ids, Top(stack), a, r, v)
    ensures var n := |Rhs(g, r, v)|;
      && 0 < n < |stack| && stack[|stack| - n - 1].state < |sets|
      && Item(r, v, 0, a.token) in sets[stack[|stack| - n - 1].state]
      && DerivesAll(g, Rhs(g, r, v), Trees(stack[|stack| - n..]))
  {
    var n := |Rhs(g, r, v)|;
    var it := Item(r, v, n, a.token);
    BackTo(g, sets, ids, stack, it, n);
    assert Rhs(g, r, v)[n - n..n] == Rhs(g, r, v);
    assert it.(pos := n - n) == Item(r, v, 0, a.token);
  }

  /** The state below a handle has a transition on the reduced rule. */
  lemma {:induction false} CalledBelow(g: Grammar, sets: seq<set<Item>>, ids: seq<nat>, stack: seq<Entry>,
          a: ParserAction, r: nat, v: nat) returns (p: Item)
    requires Proper(g) && PathOk(g, sets, ids, stack) && |sets| > 0 && IsClosure(g, StartKernel(g), sets[0])
    requires Top(stack) < |sets| && ReduceEntry(g, sets, ids, Top(stack), a, r, v) && r != g.root
    ensures var n := |Rhs(g, r, v)|;
      && 0 < n < |stack| && stack[|stack| - n - 1].state < |sets|
      && p in sets[stack[|stack| - n - 1].state] && Next(g, p) == Some(N(r))
      && DerivesAll(g, Rhs(g, r, v), Trees(stack[|stack| - n..]))
  {
    var n := |Rhs(g, r, v)|;
    HandleOnStack(g, sets, ids, stack, a, r, v);
    PathPrefix(g, sets, ids, stack, |stack| - n);
    p := RuleCalledFor(g, sets, ids, stack[..|stack| - n], Item(r, v, 0, a.token));
  }

  lemma {:induction false} TableAt(g: Grammar, sets: seq<set<Item>>, ids: seq<nat>, table: seq<ParserState>, s: nat)
    requires TableFor(g, sets, ids, table) && s < |sets|
    ensures StateFor(g, sets, ids, s, table[s]) && Distinct(ids) && AllItemsOk(g, sets[s])
  {
  }

  lemma {:induction false} TableFacts(g: Grammar, sets: seq<set<Item>>, ids: seq<nat>, table: seq<ParserState>)
    requires TableFor(g, sets, ids, table)
    ensures |table| == |sets| > 0 && Distinct(ids) && IsClosure(g, StartKernel(g), sets[0])
  {
  }

  /** The entry that a reduction pushes, and that it fits. */
  lemma {:induction false} ReducedFits(g: Grammar, sets: seq<set<Item>>, ids: seq<nat>, base: ParserState,
          input: seq<Lexeme>, stack: seq<Entry>, pos: nat,
                    a: ParserAction, r: nat, v: nat, p: Item)
    requires Inv(g, sets, ids, input, stack, pos) && Distinct(ids)
    requires Top(stack) < |sets| && ReduceEntry(g, sets, ids, Top(stack), a, r, v) && r != g.root
    requires var n := |Rhs(g, r, v)|;
      && 0 < n < |stack| && stack[|stack| - n - 1].state < |sets|
      && p in sets[stack[|stack| - n - 1].state] && Next(g, p) == Some(N(r))
      && DerivesAll(g, Rhs(g, r, v), Trees(stack[|stack| - n..]))
      && StateFor(g, sets, ids, stack[|stack| - n - 1].state, base)
    ensures var n := |Rhs(g, r, v)|;
      Inv(g, sets, ids, input, stack[..|stack| - n] + [Reduced(base, stack[|stack| - n..], a)], pos)
  {
    var n := |Rhs(g, r, v)|;
    ReducedOk(g, sets, ids, stack, n, base, a, r, v, p);
    ReplaceKeeps(g, sets, ids, input, stack, pos, n, Reduced(base, stack[|stack| - n..], a));
  }

  lemma {:induction false} ReduceStepIs(table: seq<ParserState>, stack: seq<Entry>, pos: nat, a: ParserAction, n: nat)
    requires a.stateOrLength + n == 0 && a.rule != 0 && 0 < n < |stack| && stack[|stack| - n - 1].state < |table|
    ensures ReduceStep(table, stack, pos, a)
      == Running(stack[..|stack| - n] + [Reduced(table[stack[|stack| - n - 1].state], stack[|stack| - n..], a)], pos)
  {
  }

  /** A reduction never runs below the first entry, finds its goto, and keeps the
      invariant. */
  lemma {:induction false} ReduceKeeps(g: Grammar, sets: seq<set<Item>>, ids: seq<nat>, table: seq<ParserState>,
          input: seq<Lexeme>,
                    stack: seq<Entry>, pos: nat, a: ParserAction, r: nat, v: nat) returns (e: Entry)
    requires Proper(g) && TableFor(g, sets, ids, table) && Inv(g, sets, ids, input, stack, pos) && Top(stack) < |sets|
    requires ReduceEntry(g, sets, ids, Top(stack), a, r, v) && r != g.root
    ensures 0 < |Rhs(g, r, v)| < |stack|
    ensures a.stateOrLength < 0
    ensures ReduceStep(table, stack, pos, a) == Running(stack[..|stack| - |Rhs(g, r, v)|] + [e], pos)
    ensures Inv(g, sets, ids, input, stack[..|stack| - |Rhs(g, r, v)|] + [e], pos)
    ensures e.tree == Node(r, v, Trees(stack[|stack| - |Rhs(g, r, v)|..]))
  {
    TableFacts(g, sets, ids, table);
    assert PathOk(g, sets, ids, stack);
    ReductionFacts(g, sets, ids, Top(stack), a, r, v);
    hide TableFor, Inv, StateFor, PathOk, IsClosure, ReduceEntry, Reduced, ReduceStep, Derives, DerivesAll, Next;
    hide Distinct;
    var n := |Rhs(g, r, v)|;
    var p := CalledBelow(g, sets, ids, stack, a, r, v);
    var s := stack[|stack| - n - 1].state;
    e := Reduced(table[s], stack[|stack| - n..], a);
    TableAt(g, sets, ids, table, s);
    ReducedFits(g, sets, ids, table[s], input, stack, pos, a, r, v, p);
    ReduceStepIs(table, stack, pos, a, n);
    ReducedTree(table[s], stack[|stack| - n..], a, r, v);
  }

  lemma {:induction false} ReductionFacts(g: Grammar, sets: seq<set<Item>>, ids: seq<nat>, s: nat, a: ParserAction,
          r: nat, v: nat)
    requires Proper(g) && s < |sets| && ReduceEntry(g, sets, ids, s, a, r, v) && r != g.root
    ensures IsVariant(g, r, v) && a.stateOrLength == -|Rhs(g, r, v)| < 0 && a.rule != 0 && a.reducer == Build(r, v)
  {
  }

  lemma {:induction false} ReducedTree(base: ParserState, popped: seq<Entry>, a: ParserAction, r: nat, v: nat)
    requires popped != [] && a.reducer == Build(r, v)
    ensures Reduced(base, popped, a).tree == Node(r, v, Trees(popped))
  {
  }

  lemma {:induction false} YieldOfTwo(stack: seq<Entry>)
    requires |stack| == 2
    ensures YieldAll(Trees(stack[1..])) == Yield(stack[1].tree)
  {
    assert stack[1..] == [stack[1]];
    assert Trees([stack[1]]) == [stack[1].tree];
  }

  /** Acceptance happens with the first entry and one more on the stack, whose tree
      derives the body of the root rule from all tokens read. */
  lemma {:induction false} AcceptIsSound(g: Grammar, sets: seq<set<Item>>, ids: seq<nat>, input: seq<Lexeme>,
                      stack: seq<Entry>, pos: nat, a: ParserAction, v: nat)
    requires Proper(g) && Rooted(g) && |sets| > 0 && IsClosure(g, StartKernel(g), sets[0])
    requires Inv(g, sets, ids, input, stack, pos) && Top(stack) < |sets|
    requires ReduceEntry(g, sets, ids, Top(stack), a, g.root, v)
    ensures |stack| == 2 && a.stateOrLength < 0 && a.token == TKN_EOF
    ensures Derives(g, Rhs(g, g.root, 0)[0], stack[1].tree) && Yield(stack[1].tree) == input[..pos]
  {
    HandleOnStack(g, sets, ids, stack, a, g.root, v);
    var it := Item(g.root, v, 0, a.token);
    PathPrefix(g, sets, ids, stack, |stack| - 1);
    RootOnlyAtBottom(g, sets, ids, stack[..|stack| - 1], it);
    RootLookahead(g, sets[0], it);
    YieldOfTwo(stack);
    assert Trees(stack[1..])[0] == stack[1].tree;
  }

  lemma {:induction false} RootLookahead(g: Grammar, s: set<Item>, it: Item)
    requires Rooted(g) && IsClosure(g, StartKernel(g), s) && it in s && it.rule == g.root && it.look >= 0
    ensures it.look == TKN_EOF
  {
    OriginOfItem(g, StartKernel(g), s, it);
    if it !in StartKernel(g) {
      var p :| p in s && Expands(g, p, it);
      NeverExpandsRoot(g, p, it);
    }
  }
}
