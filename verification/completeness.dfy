/** Completeness of the parser on conflict-free tables: it finds every derivation. */
module Completeness {
  import opened Options
  import opened TokenSets
  import opened Grammars
  import opened First
  import opened Items
  import opened Tables
  import opened Machine
  import opened Safety
  import opened Soundness

  /** No state has two actions on the same token. */
  ghost predicate ConflictFree(table: seq<ParserState>) {
    forall s, i, j :: 0 <= s < |table| && 0 <= i < j < |table[s].actions|
      ==> table[s].actions[i].token != table[s].actions[j].token
  }

  ghost predicate Setup(g: Grammar, sets: seq<set<Item>>, ids: seq<nat>, table: seq<ParserState>) {
    Proper(g) && Rooted(g) && TableFor(g, sets, ids, table) && ConflictFree(table)
  }

  /** The configuration keeps the invariant and has the item in its top state. */
  ghost predicate At(g: Grammar, sets: seq<set<Item>>, ids: seq<nat>, input: seq<Lexeme>, stack: seq<Entry>,
        pos: nat, it: Item) {
    Inv(g, sets, ids, input, stack, pos) && Top(stack) < |sets| && it in sets[Top(stack)] && ItemOk(g, it)
  }

  /** The unread input begins with these lexemes. */
  ghost predicate Reads(input: seq<Lexeme>, pos: nat, ls: seq<Lexeme>) {
    pos + |ls| <= |input| && input[pos..pos + |ls|] == ls
  }

  lemma {:induction false} ReadsSplit(input: seq<Lexeme>, pos: nat, a: seq<Lexeme>, b: seq<Lexeme>)
    requires Reads(input, pos, a + b)
    ensures Reads(input, pos, a) && Reads(input, pos + |a|, b)
    ensures b != [] ==> Lookahead(input, pos + |a|) == b[0]
  {
    var all := input[pos..pos + |a + b|];
    assert input[pos..pos + |a|] == all[..|a|] == a;
    assert input[pos + |a|..pos + |a| + |b|] == all[|a|..] == b;
  }

  lemma {:induction false} SameTokenSameAction(table: seq<ParserState>, s: nat, i: nat, j: nat)
    requires ConflictFree(table) && s < |table| && i < |table[s].actions| && j < |table[s].actions|
    requires table[s].actions[i].token == table[s].actions[j].token
    ensures i == j
  {
  }

  /** In a conflict-free table the first action found is the only one. */
  lemma {:induction false} OnlyAction(table: seq<ParserState>, s: nat, a: ParserAction)
    requires ConflictFree(table) && s < |table| && a in table[s].actions
    ensures var i := FindAction(table[s].actions, a.token); i < |table[s].actions| && table[s].actions[i] == a
  {
    var j :| 0 <= j < |table[s].actions| && table[s].actions[j] == a;
    var i := FindAction(table[s].actions, a.token);
    SameTokenSameAction(table, s, i, j);
  }

  // ------------------------------------------------------------------- single steps

  lemma {:induction false} ShiftOnItem(g: Grammar, sets: seq<set<Item>>, ids: seq<nat>, table: seq<ParserState>,
          input: seq<Lexeme>,
                    stack: seq<Entry>, pos: nat, it: Item) returns (e: Entry)
    requires Setup(g, sets, ids, table) && At(g, sets, ids, input, stack, pos, it)
    requires pos < |input| && Next(g, it).Some? && Next(g, it).value.T? && input[pos].id == Next(g, it).value.tok
    ensures Step(table, input, stack, pos) == Running(stack + [e], pos + 1)
    ensures e.tree == Leaf(input[pos]) && Inv(g, sets, ids, input, stack + [e], pos + 1)
  {
    var s := Top(stack);
    var a: ParserAction;
    assert exists b :: b in table[s].actions && b.token == input[pos].id && ShiftEntry(g, sets, s, b) by {
      TableAt(g, sets, ids, table, s);
      assert Served(g, sets, ids, s, table[s], it);
    }
    a :| a in table[s].actions && a.token == input[pos].id && ShiftEntry(g, sets, s, a);
    OnlyAction(table, s, a);
    ShiftKeeps(g, sets, ids, input, stack, pos, a);
    var l := input[pos];
    e := Entry(a.stateOrLength, l.id, l.first, l.last, Leaf(l));
  }

  /** The action on a complete item whose lookahead is the next token. */
  lemma {:induction false} ActionOnComplete(g: Grammar, sets: seq<set<Item>>, ids: seq<nat>, table: seq<ParserState>,
          input: seq<Lexeme>,
                         stack: seq<Entry>, pos: nat, it: Item) returns (a: ParserAction)
    requires Setup(g, sets, ids, table) && At(g, sets, ids, input, stack, pos, it)
    requires Complete(g, it) && it.look >= 0 && Lookahead(input, pos).id == it.look
    ensures ReduceEntry(g, sets, ids, Top(stack), a, it.rule, it.variant) && a.token == it.look
    ensures a.stateOrLength < 0 && Step(table, input, stack, pos) == ReduceStep(table, stack, pos, a)
  {
    var s := Top(stack);
    TableAt(g, sets, ids, table, s);
    assert Served(g, sets, ids, s, table[s], it);
    a :| a in table[s].actions && a.token == it.look && ReduceEntry(g, sets, ids, s, a, it.rule, it.variant);
    OnlyAction(table, s, a);
    assert |Rhs(g, it.rule, it.variant)| > 0;
  }

  /** A handle on top of the stack is reduced. */
  lemma {:induction false} ReduceOnItem(g: Grammar, sets: seq<set<Item>>, ids: seq<nat>, table: seq<ParserState>,
          input: seq<Lexeme>,
                     base: seq<Entry>, es: seq<Entry>, pos: nat, it: Item) returns (e: Entry)
    requires Setup(g, sets, ids, table) && At(g, sets, ids, input, base + es, pos, it)
    requires Complete(g, it) && it.look >= 0 && it.rule != g.root && Lookahead(input, pos).id == it.look
    requires base != [] && |es| == |Rhs(g, it.rule, it.variant)|
    ensures Step(table, input, base + es, pos) == Running(base + [e], pos)
    ensures e.tree == Node(it.rule, it.variant, Trees(es)) && Inv(g, sets, ids, input, base + [e], pos)
  {
    var stack := base + es;
    var a := ActionOnComplete(g, sets, ids, table, input, stack, pos, it);
    e := ReduceKeeps(g, sets, ids, table, input, stack, pos, a, it.rule, it.variant);
    assert stack[..|stack| - |es|] == base && stack[|stack| - |es|..] == es;
  }

  /** After an entry for the symbol behind the dot, the advanced item is on top. */
  lemma {:induction false} AdvanceAt(g: Grammar, sets: seq<set<Item>>, ids: seq<nat>, input: seq<Lexeme>,
          stack: seq<Entry>, e: Entry, pos: nat, it: Item)
    requires HasTop(stack, sets) && it in sets[Top(stack)] && Next(g, it).Some?
    requires Inv(g, sets, ids, input, stack + [e], pos) && Derives(g, Next(g, it).value, e.tree)
    ensures At(g, sets, ids, input, stack + [e], pos, it.(pos := it.pos + 1))
  {
    var all := stack + [e];
    assert EntryOk(g, sets, ids, all[|stack| - 1].state, all[|stack|]);
    assert RootSymbol(e.tree).value == Next(g, it).value;
    assert it.(pos := it.pos + 1) in Advance(g, sets[Top(stack)], Next(g, it).value);
  }

  ghost predicate HasTop(stack: seq<Entry>, sets: seq<set<Item>>) {
    stack != [] && Top(stack) < |sets|
  }

  /** The start of a variant is on top when its rule is expected with a fitting lookahead. */
  lemma {:induction false} ExpandAt(g: Grammar, sets: seq<set<Item>>, ids: seq<nat>, table: seq<ParserState>,
          input: seq<Lexeme>, stack: seq<Entry>, pos: nat,
                 it: Item, v: nat, look: int)
    requires Setup(g, sets, ids, table) && At(g, sets, ids, input, stack, pos, it)
    requires Next(g, it).Some? && Next(g, it).value.N? && IsVariant(g, Next(g, it).value.rule, v)
    requires look in Follow(g, it)
    ensures At(g, sets, ids, input, stack, pos, Item(Next(g, it).value.rule, v, 0, look))
    ensures Next(g, it).value.rule != g.root
  {
    var e := Item(Next(g, it).value.rule, v, 0, look);
    TopClosed(g, sets, ids, stack);
    assert Expands(g, it, e);
    NeverExpandsRoot(g, it, e);
  }

  // -------------------------------------------------------------- driving over trees

  /** The driver has moved over trees with the yield of ts. */
  ghost predicate Drove(g: Grammar, sets: seq<set<Item>>, ids: seq<nat>, table: seq<ParserState>, input: seq<Lexeme>,
                        stack: seq<Entry>, pos: nat, n: nat, es: seq<Entry>, end: nat) {
    && Run(table, input, Running(stack, pos), n) == Running(stack + es, end)
    && Inv(g, sets, ids, input, stack + es, end)
  }

  lemma {:induction false} DroveThen(g: Grammar, sets: seq<set<Item>>, ids: seq<nat>, table: seq<ParserState>,
          input: seq<Lexeme>,
                  stack: seq<Entry>, pos: nat, m: nat, es: seq<Entry>, mid: nat, n: nat, fs: seq<Entry>, end: nat)
    requires Drove(g, sets, ids, table, input, stack, pos, m, es, mid)
    requires Drove(g, sets, ids, table, input, stack + es, mid, n, fs, end)
    ensures Drove(g, sets, ids, table, input, stack, pos, m + n, es + fs, end)
  {
    hide Inv, Step;
    RunCompose(table, input, Running(stack, pos), m, n);
    assert stack + es + fs == stack + (es + fs);
  }

  lemma {:induction false} HeadTail(g: Grammar, it: Item, ts: seq<Tree>)
    requires ItemOk(g, it) && ts != [] && DerivesAll(g, Rhs(g, it.rule, it.variant)[it.pos..], ts)
    ensures Next(g, it).Some? && Derives(g, Next(g, it).value, ts[0])
    ensures DerivesAll(g, Rhs(g, it.rule, it.variant)[it.pos + 1..], ts[1..])
  {
    var rhs := Rhs(g, it.rule, it.variant)[it.pos..];
    assert Derives(g, rhs[0], ts[0]);
    assert Rhs(g, it.rule, it.variant)[it.pos + 1..] == rhs[1..];
    forall i | 0 <= i < |ts[1..]|
      ensures Derives(g, rhs[1..][i], ts[1..][i])
    {
      assert Derives(g, rhs[i + 1], ts[i + 1]);
    }
  }

  /** The first lexeme of the remaining trees can follow the symbol behind the dot. */
  lemma {:induction false} FollowOfTrees(g: Grammar, it: Item, us: seq<Tree>, look: int)
    requires Proper(g) && Next(g, it).Some? && DerivesAll(g, Rhs(g, it.rule, it.variant)[it.pos + 1..], us)
    requires it.look >= 0
    requires if us == [] then look == it.look else YieldAll(us) != [] ==> look == YieldAll(us)[0].id
    ensures us != [] ==> YieldAll(us) != []
    ensures look in Follow(g, it) && look >= 0
  {
    if us != [] {
      var rhs := Rhs(g, it.rule, it.variant)[it.pos + 1..];
      assert Derives(g, rhs[0], us[0]);
      FirstOfTree(g, rhs[0], us[0]);
    }
  }

  lemma {:induction false} ReadsTrees(g: Grammar, it: Item, ts: seq<Tree>, input: seq<Lexeme>, pos: nat)
    requires Proper(g) && ItemOk(g, it) && ts != [] && DerivesAll(g, Rhs(g, it.rule, it.variant)[it.pos..], ts)
    requires Reads(input, pos, YieldAll(ts)) && Lookahead(input, pos + |YieldAll(ts)|).id == it.look >= 0
    ensures Next(g, it).Some?
    ensures Reads(input, pos, Yield(ts[0])) && Reads(input, pos + |Yield(ts[0])|, YieldAll(ts[1..]))
    ensures Lookahead(input, pos + |Yield(ts[0])|).id in Follow(g, it)
    ensures Lookahead(input, pos + |Yield(ts[0])|).id >= 0
  {
    HeadTail(g, it, ts);
    ReadsSplit(input, pos, Yield(ts[0]), YieldAll(ts[1..]));
    FollowOfTrees(g, it, ts[1..], Lookahead(input, pos + |Yield(ts[0])|).id);
  }

  lemma {:induction false} DriveLeaf(g: Grammar, sets: seq<set<Item>>, ids: seq<nat>, table: seq<ParserState>,
          input: seq<Lexeme>,
                  stack: seq<Entry>, pos: nat, it: Item, t: Tree) returns (e: Entry)
    requires Setup(g, sets, ids, table) && At(g, sets, ids, input, stack, pos, it)
    requires Next(g, it).Some? && t.Leaf? && Derives(g, Next(g, it).value, t) && Reads(input, pos, [t.lexeme])
    ensures Drove(g, sets, ids, table, input, stack, pos, 1, [e], pos + 1) && e.tree == t
  {
    assert input[pos] == input[pos..pos + 1][0] == t.lexeme;
    e := ShiftOnItem(g, sets, ids, table, input, stack, pos, it);
    RunOneMore(table, input, Running(stack, pos), 0);
  }

  lemma {:induction false} DriveNode(g: Grammar, sets: seq<set<Item>>, ids: seq<nat>, table: seq<ParserState>,
          input: seq<Lexeme>,
                  stack: seq<Entry>, pos: nat, it: Item, m: nat, es: seq<Entry>, end: nat) returns (e: Entry)
    requires Setup(g, sets, ids, table) && stack != [] && Drove(g, sets, ids, table, input, stack, pos, m, es, end)
    requires At(g, sets, ids, input, stack + es, end, it) && Complete(g, it) && |es| == it.pos
    requires it.look >= 0 && it.rule != g.root && Lookahead(input, end).id == it.look
    ensures Drove(g, sets, ids, table, input, stack, pos, m + 1, [e], end)
    ensures e.tree == Node(it.rule, it.variant, Trees(es))
  {
    e := ReduceOnItem(g, sets, ids, table, input, stack, es, end, it);
    RunOneMore(table, input, Running(stack, pos), m);
  }

  lemma {:induction false} DroveNowhere(g: Grammar, sets: seq<set<Item>>, ids: seq<nat>, table: seq<ParserState>,
          input: seq<Lexeme>,
                     stack: seq<Entry>, pos: nat, it: Item)
    requires At(g, sets, ids, input, stack, pos, it)
    ensures stack + [] == stack && Drove(g, sets, ids, table, input, stack, pos, 0, [], pos)
  {
    assert stack + [] == stack;
  }

  lemma {:induction false} DroveOver(g: Grammar, sets: seq<set<Item>>, ids: seq<nat>, table: seq<ParserState>,
          input: seq<Lexeme>,
                  stack: seq<Entry>, pos: nat, m: nat, e: Entry, mid: nat, it: Item)
    requires At(g, sets, ids, input, stack, pos, it) && Drove(g, sets, ids, table, input, stack, pos, m, [e], mid)
    requires Next(g, it).Some? && Derives(g, Next(g, it).value, e.tree)
    ensures At(g, sets, ids, input, stack + [e], mid, it.(pos := it.pos + 1))
  {
    AdvanceAt(g, sets, ids, input, stack, e, mid, it);
  }

  lemma {:induction false} JoinDrives(g: Grammar, sets: seq<set<Item>>, ids: seq<nat>, table: seq<ParserState>,
          input: seq<Lexeme>,
                   stack: seq<Entry>, pos: nat, ts: seq<Tree>, m: nat, e: Entry, k: nat, fs: seq<Entry>)
    requires ts != [] && e.tree == ts[0] && Trees(fs) == ts[1..]
    requires Drove(g, sets, ids, table, input, stack, pos, m, [e], pos + |Yield(ts[0])|)
    requires Drove(g, sets, ids, table, input, stack + [e], pos + |Yield(ts[0])|, k, fs,
                   pos + |Yield(ts[0])| + |YieldAll(ts[1..])|)
    ensures Drove(g, sets, ids, table, input, stack, pos, m + k, [e] + fs, pos + |YieldAll(ts)|)
    ensures Trees([e] + fs) == ts && stack + [e] + fs == stack + ([e] + fs)
  {
    hide Drove;
    DroveThen(g, sets, ids, table, input, stack, pos, m, [e], pos + |Yield(ts[0])|, k, fs,
              pos + |Yield(ts[0])| + |YieldAll(ts[1..])|);
    TreesConcat([e], fs);
  }

  /** Where a tree for the symbol behind the dot lies ahead, the driver reads exactly
      its yield and pushes exactly that tree. */
  lemma {:induction false} Drive(g: Grammar, sets: seq<set<Item>>, ids: seq<nat>, table: seq<ParserState>,
          input: seq<Lexeme>,
                                 stack: seq<Entry>, pos: nat, it: Item, t: Tree) returns (n: nat, e: Entry)
    requires Proper(g) && Setup(g, sets, ids, table) && At(g, sets, ids, input, stack, pos, it)
    requires Next(g, it).Some? && Derives(g, Next(g, it).value, t)
    requires Reads(input, pos, Yield(t)) && Lookahead(input, pos + |Yield(t)|).id in Follow(g, it)
    requires Lookahead(input, pos + |Yield(t)|).id >= 0
    ensures Drove(g, sets, ids, table, input, stack, pos, n, [e], pos + |Yield(t)|) && e.tree == t
    decreases t, 0
  {
    hide Setup;
    match t {
      case Leaf(l) =>
        e := DriveLeaf(g, sets, ids, table, input, stack, pos, it, t);
        n := 1;
      case Node(r, v, kids) =>
        var look := Lookahead(input, pos + |Yield(t)|).id;
        ExpandAt(g, sets, ids, table, input, stack, pos, it, v, look);
        var start := Item(r, v, 0, look);
        assert Rhs(g, r, v)[0..] == Rhs(g, r, v);
        var m, es := DriveAll(g, sets, ids, table, input, stack, pos, start, kids);
        assert |es| == |Trees(es)| == |Rhs(g, r, v)|;
        e := DriveNode(g, sets, ids, table, input, stack, pos, start.(pos := |Rhs(g, r, v)|), m, es, pos + |Yield(t)|);
        n := m + 1;
    }
  }

  lemma {:induction false} DriveAll(g: Grammar, sets: seq<set<Item>>, ids: seq<nat>, table: seq<ParserState>,
          input: seq<Lexeme>,
                                    stack: seq<Entry>, pos: nat, it: Item, ts: seq<Tree>) returns (n: nat,
          es: seq<Entry>)
    requires Proper(g) && Setup(g, sets, ids, table) && At(g, sets, ids, input, stack, pos, it)
    requires ItemOk(g, it) && it.look >= 0
    requires DerivesAll(g, Rhs(g, it.rule, it.variant)[it.pos..], ts)
    requires Reads(input, pos, YieldAll(ts)) && Lookahead(input, pos + |YieldAll(ts)|).id == it.look
    ensures Drove(g, sets, ids, table, input, stack, pos, n, es, pos + |YieldAll(ts)|) && Trees(es) == ts
    ensures At(g, sets, ids, input, stack + es, pos + |YieldAll(ts)|, it.(pos := |Rhs(g, it.rule, it.variant)|))
    decreases ts, 1
  {
    hide Setup, At, Drove;
    if ts == [] {
      n, es := 0, [];
      DroveNowhere(g, sets, ids, table, input, stack, pos, it);
    } else {
      var mid := pos + |Yield(ts[0])|;
      HeadTail(g, it, ts);
      ReadsTrees(g, it, ts, input, pos);
      var m, e := Drive(g, sets, ids, table, input, stack, pos, it, ts[0]);
      DroveOver(g, sets, ids, table, input, stack, pos, m, e, mid, it);
      var k, fs := DriveAll(g, sets, ids, table, input, stack + [e], mid, it.(pos := it.pos + 1), ts[1..]);
      n, es := m + k, [e] + fs;
      JoinDrives(g, sets, ids, table, input, stack, pos, ts, m, e, k, fs);
    }
  }

  // --------------------------------------------------------------------- theorems

  lemma {:induction false} StartAt(g: Grammar, sets: seq<set<Item>>, ids: seq<nat>, table: seq<ParserState>,
          input: seq<Lexeme>)
    requires Setup(g, sets, ids, table)
    ensures At(g, sets, ids, input, [INITIAL_ENTRY], 0, Item(g.root, 0, 0, TKN_EOF))
    ensures Next(g, Item(g.root, 0, 0, TKN_EOF)) == Some(Body(g))
    ensures Follow(g, Item(g.root, 0, 0, TKN_EOF)) == {TKN_EOF}
  {
    StartGood(g, sets, ids, input);
    assert Item(g.root, 0, 0, TKN_EOF) in StartKernel(g);
  }

  lemma {:induction false} AcceptOnItem(g: Grammar, sets: seq<set<Item>>, ids: seq<nat>, table: seq<ParserState>,
          input: seq<Lexeme>, e: Entry)
    requires Setup(g, sets, ids, table)
    requires At(g, sets, ids, input, [INITIAL_ENTRY, e], |input|, Item(g.root, 0, 1, TKN_EOF))
    ensures Step(table, input, [INITIAL_ENTRY, e], |input|) == Accepted(e.tree)
  {
    var a := ActionOnComplete(g, sets, ids, table, input, [INITIAL_ENTRY, e], |input|, Item(g.root, 0, 1, TKN_EOF));
  }

  lemma {:induction false} DriveInput(g: Grammar, sets: seq<set<Item>>, ids: seq<nat>, table: seq<ParserState>,
          input: seq<Lexeme>, tree: Tree)
    returns (n: nat, e: Entry)
    requires Proper(g) && Setup(g, sets, ids, table) && Derives(g, Body(g), tree) && input == Yield(tree)
    ensures Drove(g, sets, ids, table, input, [INITIAL_ENTRY], 0, n, [e], |input|) && e.tree == tree
  {
    hide Setup, At, Drove;
    StartAt(g, sets, ids, table, input);
    assert Reads(input, 0, Yield(tree)) by {
      assert input[0..0 + |input|] == input;
    }
    n, e := Drive(g, sets, ids, table, input, [INITIAL_ENTRY], 0, Item(g.root, 0, 0, TKN_EOF), tree);
  }

  lemma {:induction false} DroveInput(g: Grammar, sets: seq<set<Item>>, ids: seq<nat>, table: seq<ParserState>,
          input: seq<Lexeme>, n: nat, e: Entry)
    requires Setup(g, sets, ids, table) && Derives(g, Body(g), e.tree)
    requires Drove(g, sets, ids, table, input, [INITIAL_ENTRY], 0, n, [e], |input|)
    ensures Run(table, input, START, n) == Running([INITIAL_ENTRY, e], |input|)
    ensures At(g, sets, ids, input, [INITIAL_ENTRY, e], |input|, Item(g.root, 0, 1, TKN_EOF))
  {
    var it := Item(g.root, 0, 0, TKN_EOF);
    StartAt(g, sets, ids, table, input);
    DroveOver(g, sets, ids, table, input, [INITIAL_ENTRY], 0, n, e, |input|, it);
    assert [INITIAL_ENTRY] + [e] == [INITIAL_ENTRY, e];
  }

  /** Every derivation of the root's body is found: on its yield the parser accepts
      with exactly that tree. */
  lemma {:induction false} DerivedIsAccepted(g: Grammar, sets: seq<set<Item>>, ids: seq<nat>, table: seq<ParserState>,
          tree: Tree)
    requires Setup(g, sets, ids, table) && Derives(g, Body(g), tree)
    ensures Finishes(table, Yield(tree), Accepted(tree))
  {
    var n, e := DriveInput(g, sets, ids, table, Yield(tree), tree);
    DroveInput(g, sets, ids, table, Yield(tree), n, e);
    AcceptOnItem(g, sets, ids, table, Yield(tree), e);
    RunOneMore(table, Yield(tree), START, n);
  }

  /** The parser decides membership: it accepts exactly the derived inputs, and the
      tree it returns is the derivation. */
  lemma {:induction false} AcceptsExactly(g: Grammar, sets: seq<set<Item>>, ids: seq<nat>, table: seq<ParserState>,
          input: seq<Lexeme>, tree: Tree)
    requires Setup(g, sets, ids, table) && InputOk(input)
    ensures Finishes(table, input, Accepted(tree)) <==> Derives(g, Body(g), tree) && Yield(tree) == input
  {
    if Finishes(table, input, Accepted(tree)) {
      AcceptedIsDerived(g, sets, ids, table, input, tree);
    }
    if Derives(g, Body(g), tree) && Yield(tree) == input {
      DerivedIsAccepted(g, sets, ids, table, tree);
    }
  }

  /** A grammar with a conflict-free table is unambiguous. */
  lemma {:induction false} Unambiguous(g: Grammar, sets: seq<set<Item>>, ids: seq<nat>, table: seq<ParserState>,
          s: Tree, t: Tree)
    requires Setup(g, sets, ids, table)
    requires Derives(g, Body(g), s) && Derives(g, Body(g), t) && Yield(s) == Yield(t)
    ensures s == t
  {
    DerivedIsAccepted(g, sets, ids, table, s);
    DerivedIsAccepted(g, sets, ids, table, t);
    FinishesOnce(table, Yield(s), Accepted(s), Accepted(t));
  }
}
