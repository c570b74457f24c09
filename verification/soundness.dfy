/** Safety over all runs, and soundness: what the parser accepts is derived. */
module Soundness {
  import opened TokenSets
  import opened Grammars
  import opened Items
  import opened Tables
  import opened Machine
  import opened Safety

  /** The symbol that the root rule's variant consists of. */
  function Body(g: Grammar): Symbol
    requires Rooted(g)
  {
    Rhs(g, g.root, 0)[0]
  }

  /** What a step leads to from a configuration that keeps the invariant. */
  ghost predicate GoodOutcome(g: Grammar, sets: seq<set<Item>>, ids: seq<nat>, input: seq<Lexeme>, o: Outcome)
    requires Rooted(g)
  {
    match o
    case Running(stack, pos) => Inv(g, sets, ids, input, stack, pos)
    case Accepted(tree) => Derives(g, Body(g), tree)
      && exists pos :: 0 <= pos <= |input| && Yield(tree) == input[..pos] && Lookahead(input, pos).id == TKN_EOF
    case SyntaxError(at, _) => at <= |input|
    case Crashed => false
  }

  lemma {:induction false} StartGood(g: Grammar, sets: seq<set<Item>>, ids: seq<nat>, input: seq<Lexeme>)
    ensures Inv(g, sets, ids, input, [INITIAL_ENTRY], 0)
  {
    assert [INITIAL_ENTRY][1..] == [];
    assert Trees([]) == [];
  }

  /** The entry that a step uses. */
  lemma {:induction false} ActionEntry(g: Grammar, sets: seq<set<Item>>, ids: seq<nat>, table: seq<ParserState>,
          s: nat, i: nat)
    requires TableFor(g, sets, ids, table) && s < |sets| && i < |table[s].actions|
    ensures ShiftEntry(g, sets, s, table[s].actions[i])
      || exists r, v :: ReduceEntry(g, sets, ids, s, table[s].actions[i], r, v)
  {
    TableAt(g, sets, ids, table, s);
    assert table[s].actions[i] in table[s].actions;
  }

  lemma {:induction false} ReduceActionGood(g: Grammar, sets: seq<set<Item>>, ids: seq<nat>, table: seq<ParserState>,
          input: seq<Lexeme>,
                         stack: seq<Entry>, pos: nat, a: ParserAction, r: nat, v: nat)
    requires Proper(g) && Rooted(g) && TableFor(g, sets, ids, table) && Inv(g, sets, ids, input, stack, pos)
    requires Top(stack) < |sets| && ReduceEntry(g, sets, ids, Top(stack), a, r, v)
    requires a.token == Lookahead(input, pos).id
    ensures a.stateOrLength < 0
    ensures GoodOutcome(g, sets, ids, input, ReduceStep(table, stack, pos, a))
  {
    if r == g.root {
      AcceptIsSound(g, sets, ids, input, stack, pos, a, v);
    } else {
      var e := ReduceKeeps(g, sets, ids, table, input, stack, pos, a, r, v);
    }
  }

  /** No step crashes, and every step keeps the invariant. */
  lemma {:induction false} StepKeeps(g: Grammar, sets: seq<set<Item>>, ids: seq<nat>, table: seq<ParserState>,
          input: seq<Lexeme>, stack: seq<Entry>, pos: nat)
    requires Proper(g) && Rooted(g) && TableFor(g, sets, ids, table) && Inv(g, sets, ids, input, stack, pos)
    ensures GoodOutcome(g, sets, ids, input, Step(table, input, stack, pos))
  {
    TopInRange(g, sets, ids, stack);
    var s := Top(stack);
    var i := FindAction(table[s].actions, Lookahead(input, pos).id);
    if i < |table[s].actions| {
      var a := table[s].actions[i];
      ActionEntry(g, sets, ids, table, s, i);
      if ShiftEntry(g, sets, s, a) {
        ShiftKeeps(g, sets, ids, input, stack, pos, a);
      } else {
        var r, v :| ReduceEntry(g, sets, ids, s, a, r, v);
        ReduceActionGood(g, sets, ids, table, input, stack, pos, a, r, v);
      }
    }
  }

  /** In every reachable configuration the stack is a path of the automaton whose
      trees spell the tokens read; no run crashes. */
  lemma {:induction false} ReachableIsGood(g: Grammar, sets: seq<set<Item>>, ids: seq<nat>, table: seq<ParserState>,
          input: seq<Lexeme>, n: nat)
    requires Proper(g) && Rooted(g) && TableFor(g, sets, ids, table)
    ensures GoodOutcome(g, sets, ids, input, Run(table, input, START, n))
  {
    if n == 0 {
      StartGood(g, sets, ids, input);
    } else {
      ReachableIsGood(g, sets, ids, table, input, n - 1);
      RunOneMore(table, input, START, n - 1);
      var o := Run(table, input, START, n - 1);
      if o.Running? {
        StepKeeps(g, sets, ids, table, input, o.stack, o.pos);
      }
    }
  }

  lemma {:induction false} NoEofBefore(input: seq<Lexeme>, pos: nat)
    requires InputOk(input) && pos <= |input| && Lookahead(input, pos).id == TKN_EOF
    ensures pos == |input|
  {
    assert pos < |input| ==> Lookahead(input, pos) in input;
  }

  /** An accepted tree derives the body of the root rule and spells the whole input. */
  lemma {:induction false} AcceptedIsDerived(g: Grammar, sets: seq<set<Item>>, ids: seq<nat>, table: seq<ParserState>,
          input: seq<Lexeme>, tree: Tree)
    requires Proper(g) && Rooted(g) && TableFor(g, sets, ids, table) && InputOk(input)
    requires Finishes(table, input, Accepted(tree))
    ensures Derives(g, Body(g), tree) && Yield(tree) == input
  {
    var n: nat :| Run(table, input, START, n) == Accepted(tree);
    ReachableIsGood(g, sets, ids, table, input, n);
    var pos :| 0 <= pos <= |input| && Yield(tree) == input[..pos] && Lookahead(input, pos).id == TKN_EOF;
    NoEofBefore(input, pos);
    assert input[..pos] == input;
  }

  lemma {:induction false} NeverCrashes(g: Grammar, sets: seq<set<Item>>, ids: seq<nat>, table: seq<ParserState>,
          input: seq<Lexeme>)
    requires Proper(g) && Rooted(g) && TableFor(g, sets, ids, table)
    ensures !Finishes(table, input, Crashed)
  {
    forall n: nat
      ensures Run(table, input, START, n) != Crashed
    {
      ReachableIsGood(g, sets, ids, table, input, n);
    }
  }
}
