/** Termination of the parser within a number of steps linear in the input, when no rule
    derives itself through unit variants: unread tokens count double, stack entries
    once, and a unit reduction, which changes neither, climbs in a ranking of the
    rules. */
module Bound {
  import opened Options
  import opened Grammars
  import opened Items
  import opened Tables
  import opened Machine
  import opened Safety
  import opened Soundness

  /** A ranking of the rules, below `max`, that drops from a rule to the rule that one
      of its variants consists of. */
  ghost predicate UnitRank(g: Grammar, rank: seq<nat>, max: nat) {
    && |rank| == |g.rules| && (forall r :: 0 <= r < |rank| ==> rank[r] < max)
    && forall r: nat, v: nat, b: nat :: IsVariant(g, r, v) && Rhs(g, r, v) == [N(b)] && b < |rank| ==> rank[b] < rank[r]
  }

  ghost function SymbolRank(rank: seq<nat>, x: Option<Symbol>): nat {
    match x
    case Some(N(r)) => if r < |rank| then 1 + rank[r] else 0
    case _ => 0
  }

  ghost function TopRank(rank: seq<nat>, stack: seq<Entry>): nat
    requires stack != []
  {
    if |stack| == 1 then 0 else SymbolRank(rank, RootSymbol(stack[|stack| - 1].tree))
  }

  /** Unread tokens count double, stack entries once; ties go by the rank on top. */
  ghost function Potential(rank: seq<nat>, max: nat, input: seq<Lexeme>, stack: seq<Entry>, pos: nat): int
    requires stack != []
  {
    (max + 1) * (2 * (|input| - pos) + |stack|) + (max - TopRank(rank, stack))
  }

  lemma {:induction false} RankBounded(g: Grammar, rank: seq<nat>, max: nat, stack: seq<Entry>)
    requires UnitRank(g, rank, max) && stack != []
    ensures TopRank(rank, stack) <= max
  {
  }

  lemma {:induction false} Weigh(max: nat, a: int, b: int, x: nat, y: nat)
    requires a < b && x <= max && y <= max
    ensures (max + 1) * a + (max - x) < (max + 1) * b + (max - y)
  {
    assert (max + 1) * (b - a) >= max + 1 by {
      assert (max + 1) * (b - a - 1) >= 0;
    }
  }

  /** A unit reduction leaves a rule of higher rank on top. */
  lemma {:induction false} UnitReductionClimbs(g: Grammar, sets: seq<set<Item>>, ids: seq<nat>, stack: seq<Entry>,
          a: ParserAction,
                                               r: nat, v: nat, rank: seq<nat>, max: nat)
    requires Proper(g) && PathOk(g, sets, ids, stack) && |sets| > 0 && IsClosure(g, StartKernel(g), sets[0])
    requires Top(stack) < |sets| && ReduceEntry(g, sets, ids, Top(stack), a, r, v) && UnitRank(g, rank, max)
    requires |Rhs(g, r, v)| == 1
    ensures |stack| > 1 && TopRank(rank, stack) < SymbolRank(rank, Some(N(r)))
  {
    HandleOnStack(g, sets, ids, stack, a, r, v);
    var x := Rhs(g, r, v)[0];
    var e := stack[|stack| - 1];
    assert Trees(stack[|stack| - 1..])[0] == e.tree;
    assert Derives(g, x, e.tree);
    assert Rhs(g, r, v) == [x];
    assert EntryOk(g, sets, ids, stack[|stack| - 2].state, e);
  }

  lemma {:induction false} ReductionDrops(g: Grammar, sets: seq<set<Item>>, ids: seq<nat>, table: seq<ParserState>,
          input: seq<Lexeme>,
                                          stack: seq<Entry>, pos: nat, a: ParserAction, r: nat, v: nat,
          rank: seq<nat>, max: nat)
    requires Proper(g) && TableFor(g, sets, ids, table) && Inv(g, sets, ids, input, stack, pos)
    requires UnitRank(g, rank, max)
    requires Top(stack) < |sets| && ReduceEntry(g, sets, ids, Top(stack), a, r, v) && r != g.root
    ensures a.stateOrLength < 0
    ensures var o := ReduceStep(table, stack, pos, a);
      && o.Running? && o.stack != []
      && Potential(rank, max, input, o.stack, o.pos) < Potential(rank, max, input, stack, pos)
  {
    hide TableFor, Inv;
    var e := ReduceKeeps(g, sets, ids, table, input, stack, pos, a, r, v);
    var n := |Rhs(g, r, v)|;
    var next := stack[..|stack| - n] + [e];
    RankBounded(g, rank, max, stack);
    RankBounded(g, rank, max, next);
    if n == 1 {
      UnitDrops(g, sets, ids, table, input, stack, pos, a, r, v, rank, max);
      assert TopRank(rank, next) == SymbolRank(rank, Some(N(r)));
      assert |next| == |stack|;
    } else {
      Weigh(max, 2 * (|input| - pos) + |next|, 2 * (|input| - pos) + |stack|, TopRank(rank, next),
        TopRank(rank, stack));
    }
  }

  lemma {:induction false} UnitDrops(g: Grammar, sets: seq<set<Item>>, ids: seq<nat>, table: seq<ParserState>,
          input: seq<Lexeme>,
                                     stack: seq<Entry>, pos: nat, a: ParserAction, r: nat, v: nat, rank: seq<nat>,
          max: nat)
    requires Proper(g) && TableFor(g, sets, ids, table) && Inv(g, sets, ids, input, stack, pos)
    requires UnitRank(g, rank, max)
    requires Top(stack) < |sets| && ReduceEntry(g, sets, ids, Top(stack), a, r, v) && |Rhs(g, r, v)| == 1
    ensures |stack| > 1 && TopRank(rank, stack) < SymbolRank(rank, Some(N(r)))
  {
    UnitReductionClimbs(g, sets, ids, stack, a, r, v, rank, max);
  }

  lemma {:induction false} ShiftDrops(g: Grammar, sets: seq<set<Item>>, ids: seq<nat>, input: seq<Lexeme>,
          stack: seq<Entry>, pos: nat,
                                      a: ParserAction, rank: seq<nat>, max: nat)
    requires Rooted(g) && |sets| > 0 && Inv(g, sets, ids, input, stack, pos) && UnitRank(g, rank, max)
    requires Top(stack) < |sets| && ShiftEntry(g, sets, Top(stack), a) && a.token == Lookahead(input, pos).id
    ensures ShiftStep(input, stack, pos, a.stateOrLength).Running?
    ensures var o := ShiftStep(input, stack, pos, a.stateOrLength);
      o.stack != [] && Potential(rank, max, input, o.stack, o.pos) < Potential(rank, max, input, stack, pos)
  {
    ShiftKeeps(g, sets, ids, input, stack, pos, a);
    var o := ShiftStep(input, stack, pos, a.stateOrLength);
    RankBounded(g, rank, max, stack);
    RankBounded(g, rank, max, o.stack);
    Weigh(max, 2 * (|input| - o.pos) + |o.stack|, 2 * (|input| - pos) + |stack|, TopRank(rank, o.stack),
      TopRank(rank, stack));
  }

  /** Every step of a run lowers the potential. */
  lemma {:induction false} StepDrops(g: Grammar, sets: seq<set<Item>>, ids: seq<nat>, table: seq<ParserState>,
          input: seq<Lexeme>,
                                     stack: seq<Entry>, pos: nat, rank: seq<nat>, max: nat)
    requires Proper(g) && Rooted(g) && TableFor(g, sets, ids, table) && Inv(g, sets, ids, input, stack, pos)
    requires UnitRank(g, rank, max)
    requires Step(table, input, stack, pos).Running?
    ensures var o := Step(table, input, stack, pos);
      o.stack != [] && Potential(rank, max, input, o.stack, o.pos) < Potential(rank, max, input, stack, pos)
  {
    TopInRange(g, sets, ids, stack);
    var s := Top(stack);
    var i := FindAction(table[s].actions, Lookahead(input, pos).id);
    var a := table[s].actions[i];
    ActionEntry(g, sets, ids, table, s, i);
    if ShiftEntry(g, sets, s, a) {
      ShiftDrops(g, sets, ids, input, stack, pos, a, rank, max);
    } else {
      var r, v :| ReduceEntry(g, sets, ids, s, a, r, v);
      ReductionOrAccept(g, sets, ids, table, input, stack, pos, a, r, v);
      ReductionDrops(g, sets, ids, table, input, stack, pos, a, r, v, rank, max);
    }
  }

  lemma {:induction false} ReductionOrAccept(g: Grammar, sets: seq<set<Item>>, ids: seq<nat>, table: seq<ParserState>,
          input: seq<Lexeme>,
                                             stack: seq<Entry>, pos: nat, a: ParserAction, r: nat, v: nat)
    requires Proper(g) && stack != [] && Top(stack) < |sets| && ReduceEntry(g, sets, ids, Top(stack), a, r, v)
    ensures a.stateOrLength < 0
    ensures ReduceStep(table, stack, pos, a).Running? ==> r != g.root
  {
  }

  lemma {:induction false} PotentialNonNegative(g: Grammar, rank: seq<nat>, max: nat, input: seq<Lexeme>,
          stack: seq<Entry>, pos: nat)
    requires UnitRank(g, rank, max) && stack != [] && pos <= |input|
    ensures Potential(rank, max, input, stack, pos) >= 0
  {
    RankBounded(g, rank, max, stack);
    assert (max + 1) * (2 * (|input| - pos) + |stack|) >= 0;
  }

  lemma {:induction false} PotentialRunsOut(g: Grammar, sets: seq<set<Item>>, ids: seq<nat>, table: seq<ParserState>,
          input: seq<Lexeme>,
                                            n: nat, rank: seq<nat>, max: nat)
    requires Proper(g) && Rooted(g) && TableFor(g, sets, ids, table) && UnitRank(g, rank, max)
    ensures var o := Run(table, input, START, n); o.Running? ==>
      o.stack != [] && o.pos <= |input|
      && Potential(rank, max, input, o.stack, o.pos) + n <= Potential(rank, max, input, [INITIAL_ENTRY], 0)
  {
    hide TableFor, Proper, Rooted, UnitRank, Potential;
    if n > 0 {
      PotentialRunsOut(g, sets, ids, table, input, n - 1, rank, max);
      ReachableIsGood(g, sets, ids, table, input, n - 1);
      ReachableIsGood(g, sets, ids, table, input, n);
      RunOneMore(table, input, START, n - 1);
      var o := Run(table, input, START, n - 1);
      if o.Running? && Run(table, input, START, n).Running? {
        StepDrops(g, sets, ids, table, input, o.stack, o.pos, rank, max);
      }
    }
  }

  /** The most steps a run on so many tokens can take. */
  function StepBound(tokens: nat, max: nat): nat {
    (max + 1) * (2 * tokens + 2)
  }

  /** A run stops after at most (max + 1) * (2 * tokens + 2) steps. */
  lemma {:induction false} StopsInTime(g: Grammar, sets: seq<set<Item>>, ids: seq<nat>, table: seq<ParserState>,
          input: seq<Lexeme>,
                                       rank: seq<nat>, max: nat)
    requires Proper(g) && Rooted(g) && TableFor(g, sets, ids, table) && UnitRank(g, rank, max)
    ensures !Run(table, input, START, StepBound(|input|, max)).Running?
  {
    hide TableFor;
    var n := StepBound(|input|, max);
    var o := Run(table, input, START, n);
    PotentialRunsOut(g, sets, ids, table, input, n, rank, max);
    assert (max + 1) * (2 * |input| + 2) == (max + 1) * (2 * |input| + 1) + (max + 1);
    if o.Running? {
      PotentialNonNegative(g, rank, max, input, o.stack, o.pos);
    }
  }
}
