/** Viable prefixes: every token on which a reachable configuration has an action
    continues what was read to a sentence. */
module Errors {
  import opened Options
  import opened TokenSets
  import opened Grammars
  import opened First
  import opened Items
  import opened Tables
  import opened Machine
  import opened Safety
  import opened Soundness

  function Ids(ls: seq<Lexeme>): seq<int> {
    seq(|ls|, i requires 0 <= i < |ls| => ls[i].id)
  }

  /** A sentence, closed by EOF, consists of `pre` and `tail`. */
  ghost predicate Splits(g: Grammar, t: Tree, pre: seq<int>, tail: seq<int>)
    requires Rooted(g)
  {
    Derives(g, Body(g), t) && Ids(Yield(t)) + [TKN_EOF] == pre + tail
  }

  /** Some sentence, closed by EOF, begins with u. */
  ghost predicate ViablePrefix(g: Grammar, u: seq<int>)
    requires Rooted(g)
  {
    exists t, tail :: Splits(g, t, u, tail)
  }

  /** Some sentence continues `pre` with the given token, or with any when bare. */
  ghost predicate Extendable(g: Grammar, pre: seq<int>, look: int)
    requires Rooted(g)
  {
    exists t, tail :: Splits(g, t, pre, tail) && tail != [] && (look >= 0 ==> tail[0] == look)
  }

  /** After reading `read`, whatever completes the item's variant can be continued by
      its lookahead. */
  ghost predicate ItemViable(g: Grammar, read: seq<int>, it: Item)
    requires Rooted(g)
  {
    && ItemOk(g, it)
    && forall bs :: DerivesAll(g, Rhs(g, it.rule, it.variant)[it.pos..], bs) ==>
         Extendable(g, read + Ids(YieldAll(bs)), it.look)
  }

  lemma {:induction false} IdsConcat(a: seq<Lexeme>, b: seq<Lexeme>)
    ensures Ids(a + b) == Ids(a) + Ids(b)
  {
  }

  // ----------------------------------------------------------------- viable items

  lemma {:induction false} StartViable(g: Grammar, it: Item)
    requires Rooted(g) && it in StartKernel(g)
    ensures ItemViable(g, [], it)
  {
    forall bs | DerivesAll(g, Rhs(g, it.rule, it.variant)[it.pos..], bs)
      ensures Extendable(g, [] + Ids(YieldAll(bs)), it.look)
    {
      assert Derives(g, Body(g), bs[0]);
      assert bs == [bs[0]] && YieldAll([bs[0]]) == Yield(bs[0]);
      assert Splits(g, bs[0], [] + Ids(YieldAll(bs)), [TKN_EOF]);
    }
  }

  lemma {:induction false} AdvanceViable(g: Grammar, read: seq<int>, p: Item, t: Tree)
    requires Rooted(g) && ItemViable(g, read, p) && Next(g, p).Some? && Derives(g, Next(g, p).value, t)
    ensures ItemViable(g, read + Ids(Yield(t)), p.(pos := p.pos + 1))
  {
    var rhs := Rhs(g, p.rule, p.variant);
    forall bs | DerivesAll(g, rhs[p.pos + 1..], bs)
      ensures Extendable(g, read + Ids(Yield(t)) + Ids(YieldAll(bs)), p.look)
    {
      var all := [t] + bs;
      DerivesCons(g, rhs[p.pos..], t, bs);
      assert YieldAll(all) == Yield(t) + YieldAll(bs) by {
        assert all[1..] == bs;
      }
      IdsConcat(Yield(t), YieldAll(bs));
      assert read + Ids(YieldAll(all)) == read + Ids(Yield(t)) + Ids(YieldAll(bs));
    }
  }

  lemma {:induction false} DerivesCons(g: Grammar, xs: seq<Symbol>, t: Tree, bs: seq<Tree>)
    requires xs != [] && Derives(g, xs[0], t) && DerivesAll(g, xs[1..], bs)
    ensures DerivesAll(g, xs, [t] + bs)
  {
    forall i | 0 <= i < |xs|
      ensures Derives(g, xs[i], ([t] + bs)[i])
    {
      if i > 0 {
        assert Derives(g, xs[1..][i - 1], bs[i - 1]);
      }
    }
  }

  /** Trees for the symbols after the next one, beginning with the wanted lookahead. */
  lemma {:induction false} TreesBehind(g: Grammar, p: Item, look: int) returns (cs: seq<Tree>)
    requires Proper(g) && Productive(g) && Next(g, p).Some? && look in Follow(g, p)
    ensures DerivesAll(g, Rhs(g, p.rule, p.variant)[p.pos + 1..], cs)
    ensures YieldAll(cs) == [] ==> look == p.look
    ensures YieldAll(cs) != [] && look >= 0 ==> YieldAll(cs)[0].id == look
  {
    var rest := Rhs(g, p.rule, p.variant)[p.pos + 1..];
    if rest == [] {
      cs := [];
    } else {
      assert rest[0] in Rhs(g, p.rule, p.variant);
      var t := if look >= 0 then BeginningTree(g, rest[0], look) else SomeDerivation(g, rest[0]);
      YieldNonEmpty(g, rest[0], t);
      var us := SomeTrees(g, rest[1..]);
      cs := [t] + us;
      DerivesCons(g, rest, t, us);
      assert YieldAll(cs)[0] == Yield(t)[0];
    }
  }

  ghost function BeginningTree(g: Grammar, x: Symbol, look: int): (t: Tree)
    requires Proper(g) && Productive(g) && SymbolOk(g, x) && look in FirstSet(g, x)
    ensures Derives(g, x, t) && Yield(t) != [] && Yield(t)[0].id == look
  {
    FirstExact(g, x, look);
    var t :| Derives(g, x, t) && Yield(t) != [] && Yield(t)[0].id == look;
    t
  }

  ghost function SomeDerivation(g: Grammar, x: Symbol): (t: Tree)
    requires Productive(g) && SymbolOk(g, x)
    ensures Derives(g, x, t)
  {
    match x
    case T(tok) => Leaf(Lexeme(tok, 0, 0))
    case N(r) =>
      assert Produces(g, r);
      var t :| Derives(g, N(r), t);
      t
  }

  lemma {:induction false} ExpandViable(g: Grammar, read: seq<int>, p: Item, it: Item)
    requires Proper(g) && Rooted(g) && Productive(g) && ItemViable(g, read, p) && Expands(g, p, it)
    ensures ItemViable(g, read, it)
  {
    var cs := TreesBehind(g, p, it.look);
    forall bs | DerivesAll(g, Rhs(g, it.rule, it.variant)[it.pos..], bs)
      ensures Extendable(g, read + Ids(YieldAll(bs)), it.look)
    {
      assert Rhs(g, it.rule, it.variant)[0..] == Rhs(g, it.rule, it.variant);
      ExpandOne(g, read, p, it, bs, cs);
    }
  }

  lemma {:induction false} ExpandOne(g: Grammar, read: seq<int>, p: Item, it: Item, bs: seq<Tree>, cs: seq<Tree>)
    requires Rooted(g) && ItemViable(g, read, p) && Expands(g, p, it)
    requires DerivesAll(g, Rhs(g, it.rule, it.variant), bs)
    requires DerivesAll(g, Rhs(g, p.rule, p.variant)[p.pos + 1..], cs)
    requires YieldAll(cs) == [] ==> it.look == p.look
    requires YieldAll(cs) != [] && it.look >= 0 ==> YieldAll(cs)[0].id == it.look
    ensures Extendable(g, read + Ids(YieldAll(bs)), it.look)
  {
    var node := Node(it.rule, it.variant, bs);
    var all := [node] + cs;
    DerivesCons(g, Rhs(g, p.rule, p.variant)[p.pos..], node, cs);
    assert YieldAll(all) == YieldAll(bs) + YieldAll(cs) by {
      assert all[1..] == cs && Yield(node) == YieldAll(bs);
    }
    IdsConcat(YieldAll(bs), YieldAll(cs));
    assert Extendable(g, read + Ids(YieldAll(all)), p.look);
    var t, tail :| Splits(g, t, read + Ids(YieldAll(all)), tail) && tail != [] && (p.look >= 0 ==> tail[0] == p.look);
    var tail' := Ids(YieldAll(cs)) + tail;
    assert read + Ids(YieldAll(all)) + tail == read + Ids(YieldAll(bs)) + tail';
    assert Splits(g, t, read + Ids(YieldAll(bs)), tail');
  }

  /** Viability spreads from the kernel over the closure. */
  lemma {:induction false} ClosureViable(g: Grammar, read: seq<int>, kernel: set<Item>, s: set<Item>)
    requires Proper(g) && Rooted(g) && Productive(g) && IsClosure(g, kernel, s)
    requires forall it :: it in kernel ==> ItemViable(g, read, it)
    ensures forall it :: it in s ==> ItemViable(g, read, it)
  {
    var c := set it | it in s && ItemViable(g, read, it);
    forall p, it | p in c && Expands(g, p, it)
      ensures it in c
    {
      ExpandViable(g, read, p, it);
    }
    assert Closed(g, c) && kernel <= c;
  }

  ghost function ReadBy(stack: seq<Entry>): seq<int>
    requires stack != []
  {
    Ids(YieldAll(Trees(stack[1..])))
  }

  lemma {:induction false} ReadByPush(stack: seq<Entry>, e: Entry)
    requires stack != []
    ensures ReadBy(stack + [e]) == ReadBy(stack) + Ids(Yield(e.tree))
  {
    assert (stack + [e])[1..] == stack[1..] + [e];
    TreesConcat(stack[1..], [e]);
    YieldAllAppend(Trees(stack[1..]), Trees([e]));
    assert Trees([e]) == [e.tree] && YieldAll([e.tree]) == Yield(e.tree);
    IdsConcat(YieldAll(Trees(stack[1..])), Yield(e.tree));
  }

  /** All items of the top state are viable after the tokens on the stack. */
  lemma {:induction false} TopViable(g: Grammar, sets: seq<set<Item>>, ids: seq<nat>, stack: seq<Entry>)
    requires Proper(g) && Rooted(g) && Productive(g)
    requires PathOk(g, sets, ids, stack) && |sets| > 0 && IsClosure(g, StartKernel(g), sets[0])
    ensures Top(stack) < |sets| && forall it :: it in sets[Top(stack)] ==> ItemViable(g, ReadBy(stack), it)
    decreases |stack|
  {
    if |stack| == 1 {
      assert stack[1..] == [] && ReadBy(stack) == [];
      forall it | it in StartKernel(g)
        ensures ItemViable(g, ReadBy(stack), it)
      {
        StartViable(g, it);
      }
      ClosureViable(g, ReadBy(stack), StartKernel(g), sets[0]);
    } else {
      var n := |stack| - 1;
      var below, e := stack[..n], stack[n];
      PathPrefix(g, sets, ids, stack, n);
      TopViable(g, sets, ids, below);
      assert stack == below + [e];
      ReadByPush(below, e);
      assert EntryOk(g, sets, ids, stack[n - 1].state, e);
      PushViable(g, sets, ids, below, e);
    }
  }

  lemma {:induction false} PushViable(g: Grammar, sets: seq<set<Item>>, ids: seq<nat>, below: seq<Entry>, e: Entry)
    requires Proper(g) && Rooted(g) && Productive(g) && below != []
    requires Top(below) < |sets| && EntryOk(g, sets, ids, Top(below), e)
    requires forall it :: it in sets[Top(below)] ==> ItemViable(g, ReadBy(below), it)
    ensures forall it :: it in sets[e.state] ==> ItemViable(g, ReadBy(below) + Ids(Yield(e.tree)), it)
  {
    var x := RootSymbol(e.tree).value;
    var kernel := Advance(g, sets[Top(below)], x);
    forall it | it in kernel
      ensures ItemViable(g, ReadBy(below) + Ids(Yield(e.tree)), it)
    {
      var p :| p in sets[Top(below)] && Next(g, p) == Some(x) && it == p.(pos := p.pos + 1);
      AdvanceViable(g, ReadBy(below), p, e.tree);
    }
    ClosureViable(g, ReadBy(below) + Ids(Yield(e.tree)), kernel, sets[e.state]);
  }

  // -------------------------------------------------------------- viable lookaheads

  lemma {:induction false} ReadByInput(g: Grammar, sets: seq<set<Item>>, ids: seq<nat>, input: seq<Lexeme>,
          stack: seq<Entry>, pos: nat)
    requires Inv(g, sets, ids, input, stack, pos)
    ensures ReadBy(stack) == Ids(input[..pos])
  {
  }

  lemma {:induction false} ShiftTokenViable(g: Grammar, read: seq<int>, it: Item, tok: Token)
    requires Proper(g) && Rooted(g) && Productive(g) && ItemViable(g, read, it) && Next(g, it) == Some(T(tok))
    ensures ViablePrefix(g, read + [tok])
  {
    var rhs := Rhs(g, it.rule, it.variant);
    var us := SomeTrees(g, rhs[it.pos + 1..]);
    var leaf := Leaf(Lexeme(tok, 0, 0));
    DerivesCons(g, rhs[it.pos..], leaf, us);
    var all := [leaf] + us;
    assert YieldAll(all) == Yield(leaf) + YieldAll(us) by {
      assert all[1..] == us;
    }
    IdsConcat(Yield(leaf), YieldAll(us));
    var t, tail :| Splits(g, t, read + Ids(YieldAll(all)), tail);
    assert read + Ids(YieldAll(all)) + tail == (read + [tok]) + (Ids(YieldAll(us)) + tail);
    assert Splits(g, t, read + [tok], Ids(YieldAll(us)) + tail);
  }

  lemma {:induction false} ReduceTokenViable(g: Grammar, read: seq<int>, it: Item)
    requires Rooted(g) && ItemViable(g, read, it) && Complete(g, it) && it.look >= 0
    ensures ViablePrefix(g, read + [it.look])
  {
    assert DerivesAll(g, Rhs(g, it.rule, it.variant)[it.pos..], []);
    assert read + Ids(YieldAll([])) == read;
    var t, tail :| Splits(g, t, read, tail) && tail != [] && tail[0] == it.look;
    assert read + tail == read + [it.look] + tail[1..];
    assert Splits(g, t, read + [it.look], tail[1..]);
  }

  /** Every token with an action in a reachable configuration continues what was read
      to a sentence. */
  lemma {:induction false} ActionViable(g: Grammar, sets: seq<set<Item>>, ids: seq<nat>, table: seq<ParserState>,
          input: seq<Lexeme>,
                                        stack: seq<Entry>, pos: nat, a: ParserAction)
    requires Proper(g) && Rooted(g) && Productive(g) && TableFor(g, sets, ids, table)
    requires Inv(g, sets, ids, input, stack, pos) && Top(stack) < |table| && a in table[Top(stack)].actions
    ensures ViablePrefix(g, Ids(input[..pos]) + [a.token])
  {
    TopViable(g, sets, ids, stack);
    ReadByInput(g, sets, ids, input, stack, pos);
    TableAt(g, sets, ids, table, Top(stack));
    if ShiftEntry(g, sets, Top(stack), a) {
      var q :| q in Advance(g, sets[Top(stack)], T(a.token));
      var p :| p in sets[Top(stack)] && Next(g, p) == Some(T(a.token));
      ShiftTokenViable(g, ReadBy(stack), p, a.token);
    } else {
      var r, v :| ReduceEntry(g, sets, ids, Top(stack), a, r, v);
      ReduceTokenViable(g, ReadBy(stack), Item(r, v, |Rhs(g, r, v)|, a.token));
    }
  }

  // -------------------------------------------------------------- sentences as inputs

  /** A derivation can be relabelled with any lexemes of the same identifiers. */
  lemma {:induction false} Relabel(g: Grammar, x: Symbol, t: Tree, ls: seq<Lexeme>) returns (t': Tree)
    requires Derives(g, x, t) && Ids(ls) == Ids(Yield(t))
    ensures Derives(g, x, t') && Yield(t') == ls
    decreases t, 0
  {
    match t {
      case Leaf(l) =>
        assert |ls| == |Ids(ls)| == 1 && Ids(ls)[0] == ls[0].id;
        t' := Leaf(ls[0]);
      case Node(r, v, kids) =>
        var kids' := RelabelAll(g, Rhs(g, r, v), kids, ls);
        t' := Node(r, v, kids');
    }
  }

  lemma {:induction false} RelabelAll(g: Grammar, xs: seq<Symbol>, ts: seq<Tree>,
          ls: seq<Lexeme>) returns (ts': seq<Tree>)
    requires DerivesAll(g, xs, ts) && Ids(ls) == Ids(YieldAll(ts))
    ensures DerivesAll(g, xs, ts') && YieldAll(ts') == ls
    decreases ts, 1
  {
    if ts == [] {
      assert |ls| == |Ids(ls)| == 0;
      ts' := [];
    } else {
      var n := |Yield(ts[0])|;
      IdsConcat(Yield(ts[0]), YieldAll(ts[1..]));
      assert |ls| == |Ids(ls)| == n + |YieldAll(ts[1..])|;
      assert Ids(ls[..n]) == Ids(ls)[..n] == Ids(Yield(ts[0]));
      assert Ids(ls[n..]) == Ids(ls)[n..] == Ids(YieldAll(ts[1..]));
      var t' := Relabel(g, xs[0], ts[0], ls[..n]);
      DerivesTail(g, xs, ts);
      var us' := RelabelAll(g, xs[1..], ts[1..], ls[n..]);
      ts' := [t'] + us';
      DerivesCons(g, xs, t', us');
      assert ts'[1..] == us' && ls == ls[..n] + ls[n..];
    }
  }

  lemma {:induction false} DerivesTail(g: Grammar, xs: seq<Symbol>, ts: seq<Tree>)
    requires DerivesAll(g, xs, ts) && ts != []
    ensures Derives(g, xs[0], ts[0]) && DerivesAll(g, xs[1..], ts[1..])
  {
    forall i | 0 <= i < |ts[1..]|
      ensures Derives(g, xs[1..][i], ts[1..][i])
    {
      assert Derives(g, xs[i + 1], ts[i + 1]);
    }
  }

  lemma {:induction false} YieldHasNoEof(g: Grammar, x: Symbol, t: Tree)
    requires Rooted(g) && Derives(g, x, t) && x != T(TKN_EOF)
    ensures InputOk(Yield(t))
    decreases t, 0
  {
    if t.Node? {
      YieldAllHasNoEof(g, Rhs(g, t.rule, t.variant), t.kids);
    }
  }

  lemma {:induction false} YieldAllHasNoEof(g: Grammar, xs: seq<Symbol>, ts: seq<Tree>)
    requires Rooted(g) && DerivesAll(g, xs, ts) && T(TKN_EOF) !in xs
    ensures InputOk(YieldAll(ts))
    decreases ts, 1
  {
    if ts != [] {
      DerivesTail(g, xs, ts);
      YieldHasNoEof(g, xs[0], ts[0]);
      YieldAllHasNoEof(g, xs[1..], ts[1..]);
    }
  }

  /** A derived input that begins with the lexemes `read` and goes on with token tok. */
  ghost predicate Continues(g: Grammar, read: seq<Lexeme>, tok: int, next: Lexeme, t: Tree)
    requires Rooted(g)
  {
    && Derives(g, Body(g), t) && read <= Yield(t) && Lookahead(Yield(t), |read|).id == tok
    && (tok != TKN_EOF ==> |read| < |Yield(t)| && Yield(t)[|read|] == next)
    && (tok == TKN_EOF ==> Yield(t) == read)
  }

  lemma {:induction false} SentenceWith(g: Grammar, read: seq<Lexeme>, tok: int, next: Lexeme) returns (t: Tree)
    requires Rooted(g) && ViablePrefix(g, Ids(read) + [tok]) && (tok != TKN_EOF ==> next.id == tok)
    ensures Continues(g, read, tok, next, t)
  {
    var s, tail :| Splits(g, s, Ids(read) + [tok], tail);
    YieldHasNoEof(g, Body(g), s);
    var w := Yield(s);
    var n := |read|;
    assert |Ids(w)| == |w| && Ids(w) + [TKN_EOF] == Ids(read) + [tok] + tail;
    assert Ids(w)[..n] == (Ids(w) + [TKN_EOF])[..n] == Ids(read);
    if n < |w| {
      assert w[n] in w && Ids(w)[n] == (Ids(w) + [TKN_EOF])[n] == tok;
      var ls := read + [next] + w[n + 1..];
      assert Ids(ls) == Ids(w) by {
        forall i | 0 <= i < |w|
          ensures ls[i].id == w[i].id
        {
          if i < n {
            assert Ids(w)[..n][i] == Ids(read)[i];
          }
        }
      }
      t := Relabel(g, Body(g), s, ls);
    } else {
      assert (Ids(w) + [TKN_EOF])[n] == tok;
      assert Ids(read) == Ids(w);
      t := Relabel(g, Body(g), s, read);
    }
  }
}
