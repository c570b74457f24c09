/** Exactly which runs of the parser never stop: those that come upon a cycle of unit reductions. */
module Cycles {
  import opened Options
  import opened Grammars
  import opened Items
  import opened Tables
  import opened Machine
  import opened Safety
  import opened Soundness
  import opened ExactErrors

  // --------------------------------------------------------- chasing unit reductions

  /** The state that takes the place of s on top of b when token t lies ahead and state s
      reduces a single entry. */
  function Chased(table: seq<ParserState>, b: nat, t: int, s: nat): Option<nat>
    requires b < |table|
  {
    if s >= |table| then None
    else
      var i := FindAction(table[s].actions, t);
      if i == |table[s].actions| then None
      else
        var a := table[s].actions[i];
        if a.stateOrLength == -1 && a.rule != 0 then Some(GotoState(table[b].gotos, a.rule, s)) else None
  }

  function Chase(table: seq<ParserState>, b: nat, t: int, s: nat, n: nat): Option<nat>
    requires b < |table|
    decreases n
  {
    if n == 0 then Some(s)
    else
      var u := Chased(table, b, t, s);
      if u.Some? then Chase(table, b, t, u.value, n - 1) else None
  }

  /** State s comes back to itself by unit reductions. */
  ghost predicate OnCycle(table: seq<ParserState>, b: nat, t: int, s: nat)
    requires b < |table|
  {
    exists n: nat :: n > 0 && Chase(table, b, t, s, n) == Some(s)
  }

  lemma {:induction false} ChaseCompose(table: seq<ParserState>, b: nat, t: int, s: nat, m: nat, n: nat)
    requires b < |table|
    ensures var u := Chase(table, b, t, s, m);
      Chase(table, b, t, s, m + n) == if u.Some? then Chase(table, b, t, u.value, n) else None
    decreases m
  {
    if m > 0 {
      var u := Chased(table, b, t, s);
      if u.Some? {
        ChaseCompose(table, b, t, u.value, m - 1, n);
      }
    }
  }

  /** On a cycle the chase never ends. */
  lemma {:induction false} CycleGoesOn(table: seq<ParserState>, b: nat, t: int, s: nat, n: nat)
    requires b < |table| && OnCycle(table, b, t, s)
    ensures Chase(table, b, t, s, n).Some?
    decreases n
  {
    var k: nat :| k > 0 && Chase(table, b, t, s, k) == Some(s);
    if n < k {
      ChaseCompose(table, b, t, s, n, k - n);
    } else {
      ChaseCompose(table, b, t, s, k, n - k);
      CycleGoesOn(table, b, t, s, n - k);
    }
  }

  // ------------------------------------------------------------------ chases are runs

  /** The state below the top one. */
  ghost predicate Below(table: seq<ParserState>, stack: seq<Entry>, b: nat) {
    |stack| > 1 && stack[|stack| - 2].state == b < |table|
  }

  lemma {:induction false} ChasedStep(table: seq<ParserState>, input: seq<Lexeme>, stack: seq<Entry>, pos: nat, b: nat)
    returns (e: Entry)
    requires Below(table, stack, b) && Chased(table, b, Lookahead(input, pos).id, Top(stack)).Some?
    ensures Step(table, input, stack, pos) == Running(stack[..|stack| - 1] + [e], pos)
    ensures Some(e.state) == Chased(table, b, Lookahead(input, pos).id, Top(stack))
  {
    var actions := table[Top(stack)].actions;
    var a := actions[FindAction(actions, Lookahead(input, pos).id)];
    e := Reduced(table[b], stack[|stack| - 1..], a);
  }

  lemma {:induction false} ChaseRuns(table: seq<ParserState>, input: seq<Lexeme>, stack: seq<Entry>, pos: nat,
        b: nat, n: nat)
    returns (stack': seq<Entry>)
    requires Below(table, stack, b) && Chase(table, b, Lookahead(input, pos).id, Top(stack), n).Some?
    ensures Run(table, input, Running(stack, pos), n) == Running(stack', pos) && Below(table, stack', b)
    ensures |stack'| == |stack| && Some(Top(stack')) == Chase(table, b, Lookahead(input, pos).id, Top(stack), n)
    decreases n
  {
    if n == 0 {
      stack' := stack;
    } else {
      var e := ChasedStep(table, input, stack, pos, b);
      stack' := ChaseRuns(table, input, stack[..|stack| - 1] + [e], pos, b, n - 1);
    }
  }

  /** The run comes to a configuration whose top state is on a cycle. */
  ghost predicate Trapped(table: seq<ParserState>, input: seq<Lexeme>, n: nat, stack: seq<Entry>, pos: nat) {
    && RunsTo(table, input, n, stack, pos) && |stack| > 1 && stack[|stack| - 2].state < |table|
    && OnCycle(table, stack[|stack| - 2].state, Lookahead(input, pos).id, Top(stack))
  }

  lemma {:induction false} TrappedGoesOn(table: seq<ParserState>, input: seq<Lexeme>, n: nat, stack: seq<Entry>,
        pos: nat, m: nat)
    requires Trapped(table, input, n, stack, pos)
    ensures Run(table, input, START, m).Running?
  {
    var b := stack[|stack| - 2].state;
    CycleGoesOn(table, b, Lookahead(input, pos).id, Top(stack), m);
    var stack' := ChaseRuns(table, input, stack, pos, b, m);
    RunCompose(table, input, START, n, m);
    RunCompose(table, input, START, m, n);
  }

  // ---------------------------------------------------------------- getting lighter

  /** Unread tokens count double, stack entries once. */
  function Weight(input: seq<Lexeme>, stack: seq<Entry>, pos: nat): int {
    2 * (|input| - pos) + |stack|
  }

  /** A step that goes on lowers the weight, or is a unit reduction. */
  ghost predicate Lighter(table: seq<ParserState>, input: seq<Lexeme>, stack: seq<Entry>, pos: nat, o: Outcome)
    requires o.Running?
  {
    Weight(input, o.stack, o.pos) < Weight(input, stack, pos)
  }

  ghost predicate UnitStep(table: seq<ParserState>, input: seq<Lexeme>, stack: seq<Entry>, pos: nat) {
    && |stack| > 1 && stack[|stack| - 2].state < |table|
    && Chased(table, stack[|stack| - 2].state, Lookahead(input, pos).id, Top(stack)).Some?
  }

  lemma {:induction false} ReductionIsLighter(table: seq<ParserState>, input: seq<Lexeme>, stack: seq<Entry>, pos: nat)
    requires stack != [] && Top(stack) < |table| && Step(table, input, stack, pos).Running?
    requires var actions := table[Top(stack)].actions;
      actions[FindAction(actions, Lookahead(input, pos).id)].stateOrLength < 0
    ensures Lighter(table, input, stack, pos, Step(table, input, stack, pos)) || UnitStep(table, input, stack, pos)
  {
  }

  /** A shift is never on the end of the input. */
  lemma {:induction false} ShiftIsLighter(g: Grammar, sets: seq<set<Item>>, ids: seq<nat>, table: seq<ParserState>,
          input: seq<Lexeme>, n: nat, stack: seq<Entry>, pos: nat)
    requires Proper(g) && Rooted(g) && TableFor(g, sets, ids, table) && RunsTo(table, input, n, stack, pos)
    requires stack != [] && Top(stack) < |table| && Step(table, input, stack, pos).Running?
    requires var actions := table[Top(stack)].actions;
      actions[FindAction(actions, Lookahead(input, pos).id)].stateOrLength >= 0
    ensures Lighter(table, input, stack, pos, Step(table, input, stack, pos))
  {
    ReachableIsGood(g, sets, ids, table, input, n);
    TableFacts(g, sets, ids, table);
    var s := Top(stack);
    var i := FindAction(table[s].actions, Lookahead(input, pos).id);
    ActionEntry(g, sets, ids, table, s, i);
    ShiftKeeps(g, sets, ids, input, stack, pos, table[s].actions[i]);
  }

  lemma {:induction false} StepIsLighter(g: Grammar, sets: seq<set<Item>>, ids: seq<nat>, table: seq<ParserState>,
          input: seq<Lexeme>, n: nat, stack: seq<Entry>, pos: nat)
    requires Proper(g) && Rooted(g) && TableFor(g, sets, ids, table) && RunsTo(table, input, n, stack, pos)
    requires Step(table, input, stack, pos).Running?
    ensures Lighter(table, input, stack, pos, Step(table, input, stack, pos)) || UnitStep(table, input, stack, pos)
  {
    var actions := table[Top(stack)].actions;
    if actions[FindAction(actions, Lookahead(input, pos).id)].stateOrLength < 0 {
      ReductionIsLighter(table, input, stack, pos);
    } else {
      ShiftIsLighter(g, sets, ids, table, input, n, stack, pos);
    }
  }

  // --------------------------------------------------- long chases come upon a cycle

  /** The chase comes twice to the same state within n unit reductions. */
  ghost predicate Revisits(table: seq<ParserState>, b: nat, t: int, s: nat, n: nat)
    requires b < |table|
  {
    exists i: nat, j: nat :: i < j <= n && Meets(table, b, t, s, i, j)
  }

  ghost predicate Meets(table: seq<ParserState>, b: nat, t: int, s: nat, i: nat, j: nat)
    requires b < |table|
  {
    Chase(table, b, t, s, i) == Chase(table, b, t, s, j) && Chase(table, b, t, s, i).Some?
  }

  ghost predicate VisitsBefore(table: seq<ParserState>, b: nat, t: int, s: nat, n: nat, u: nat)
    requires b < |table|
  {
    exists i: nat :: i < n && Chase(table, b, t, s, i) == Some(u)
  }

  /** Without a revisit the n states before the last are as many, all in the table. */
  lemma {:induction false} Visited(table: seq<ParserState>, b: nat, t: int, s: nat, n: nat) returns (c: set<nat>)
    requires b < |table| && Chase(table, b, t, s, n).Some? && !Revisits(table, b, t, s, n)
    ensures |c| == n && forall u :: u in c ==> u < |table| && VisitsBefore(table, b, t, s, n, u)
    decreases n
  {
    if n == 0 {
      c := {};
    } else {
      var m: nat := n - 1;
      ChaseCompose(table, b, t, s, m, 1);
      var last := Chase(table, b, t, s, m).value;
      forall i: nat | i < m
        ensures Chase(table, b, t, s, i) != Some(last)
      {
        assert !Meets(table, b, t, s, i, m);
      }
      c := Visited(table, b, t, s, m);
      assert last !in c;
      c := c + {last};
    }
  }

  lemma {:induction false} SmallSet(c: set<nat>, n: nat)
    requires forall u :: u in c ==> u < n
    ensures |c| <= n
  {
    if n > 0 {
      SmallSet(c - {n - 1}, n - 1);
    } else if u :| u in c {
      assert false;
    }
  }

  /** More unit reductions than there are states come upon a cycle. */
  lemma {:induction false} LongChase(table: seq<ParserState>, b: nat, t: int, s: nat)
    returns (i: nat, u: nat)
    requires b < |table| && Chase(table, b, t, s, |table| + 1).Some?
    ensures Chase(table, b, t, s, i) == Some(u) && OnCycle(table, b, t, u)
  {
    var n := |table| + 1;
    if !Revisits(table, b, t, s, n) {
      var c := Visited(table, b, t, s, n);
      SmallSet(c, |table|);
    }
    var j: nat;
    i, j :| i < j <= n && Meets(table, b, t, s, i, j);
    u := Chase(table, b, t, s, i).value;
    ChaseCompose(table, b, t, s, i, j - i);
  }

  /** A chase that ends has a last state. */
  lemma {:induction false} ChaseEnds(table: seq<ParserState>, b: nat, t: int, s: nat, n: nat) returns (k: nat, u: nat)
    requires b < |table| && Chase(table, b, t, s, n).None?
    ensures k < n && Chase(table, b, t, s, k) == Some(u) && Chased(table, b, t, u).None?
    decreases n
  {
    var next := Chased(table, b, t, s);
    if next.None? {
      k, u := 0, s;
    } else {
      k, u := ChaseEnds(table, b, t, next.value, n - 1);
      k := k + 1;
    }
  }

  // ------------------------------------------------------------ all other runs stop

  ghost predicate NeverTrapped(table: seq<ParserState>, input: seq<Lexeme>) {
    forall n, stack, pos :: !Trapped(table, input, n, stack, pos)
  }

  /** Unit reductions as far as they go; at most one for each state. */
  lemma {:induction false} Settles(table: seq<ParserState>, input: seq<Lexeme>, n: nat, stack: seq<Entry>, pos: nat)
    returns (k: nat, stack': seq<Entry>)
    requires NeverTrapped(table, input) && RunsTo(table, input, n, stack, pos)
    ensures k <= |table| && RunsTo(table, input, n + k, stack', pos) && |stack'| == |stack|
    ensures !UnitStep(table, input, stack', pos)
  {
    if UnitStep(table, input, stack, pos) {
      var b, t, s := stack[|stack| - 2].state, Lookahead(input, pos).id, Top(stack);
      if Chase(table, b, t, s, |table| + 1).Some? {
        var i, u := LongChase(table, b, t, s);
        var now := ChaseRuns(table, input, stack, pos, b, i);
        RunCompose(table, input, START, n, i);
        assert Trapped(table, input, n + i, now, pos);
      }
      var u;
      k, u := ChaseEnds(table, b, t, s, |table| + 1);
      stack' := ChaseRuns(table, input, stack, pos, b, k);
      RunCompose(table, input, START, n, k);
    } else {
      k, stack' := 0, stack;
    }
  }

  /** The run stops, with at most one unit reduction for each state between two steps that
      make it lighter. */
  lemma {:induction false} StopsUntrapped(g: Grammar, sets: seq<set<Item>>, ids: seq<nat>, table: seq<ParserState>,
          input: seq<Lexeme>, n: nat, stack: seq<Entry>, pos: nat)
    returns (m: nat)
    requires Proper(g) && Rooted(g) && TableFor(g, sets, ids, table) && NeverTrapped(table, input)
    requires RunsTo(table, input, n, stack, pos)
    ensures !Run(table, input, START, m).Running?
    ensures m <= n + (|table| + 1) * Weight(input, stack, pos)
    decreases Weight(input, stack, pos)
  {
    hide Proper, Rooted, TableFor, NeverTrapped, UnitStep;
    var k, now := Settles(table, input, n, stack, pos);
    m := n + k + 1;
    RunOneMore(table, input, START, n + k);
    var o := Step(table, input, now, pos);
    RunningWeighs(g, sets, ids, table, input, n, stack, pos);
    if o.Running? {
      StepIsLighter(g, sets, ids, table, input, n + k, now, pos);
      RunningWeighs(g, sets, ids, table, input, m, o.stack, o.pos);
      MoreTime(|table| + 1, Weight(input, o.stack, o.pos), Weight(input, stack, pos));
      m := StopsUntrapped(g, sets, ids, table, input, m, o.stack, o.pos);
    } else {
      MoreTime(|table| + 1, 0, Weight(input, stack, pos));
    }
  }

  lemma {:induction false} RunningWeighs(g: Grammar, sets: seq<set<Item>>, ids: seq<nat>, table: seq<ParserState>,
          input: seq<Lexeme>, n: nat, stack: seq<Entry>, pos: nat)
    requires Proper(g) && Rooted(g) && TableFor(g, sets, ids, table) && RunsTo(table, input, n, stack, pos)
    ensures Weight(input, stack, pos) > 0
  {
    ReachableIsGood(g, sets, ids, table, input, n);
  }

  lemma {:induction false} MoreTime(size: nat, light: int, heavy: int)
    requires light < heavy
    ensures size * light + size <= size * heavy
  {
    assert size * (heavy - light - 1) >= 0;
    assert size * (heavy - light - 1) == size * heavy - size * light - size;
  }

  /** The parser goes on forever on an input exactly when it comes upon a configuration whose
      top state is on a cycle of unit reductions. */
  lemma {:induction false} RunsForeverIff(g: Grammar, sets: seq<set<Item>>, ids: seq<nat>, table: seq<ParserState>,
          input: seq<Lexeme>)
    requires Proper(g) && Rooted(g) && TableFor(g, sets, ids, table)
    ensures (forall n :: Run(table, input, START, n).Running?) <==> !NeverTrapped(table, input)
  {
    hide Proper, Rooted, TableFor, Trapped;
    if n, stack, pos :| Trapped(table, input, n, stack, pos) {
      forall m: nat
        ensures Run(table, input, START, m).Running?
      {
        TrappedGoesOn(table, input, n, stack, pos, m);
      }
    } else {
      assert RunsTo(table, input, 0, [INITIAL_ENTRY], 0);
      var m := StopsUntrapped(g, sets, ids, table, input, 0, [INITIAL_ENTRY], 0);
    }
  }

  /** No token takes a state back to itself by unit reductions, over any state. */
  ghost predicate NoCycles(table: seq<ParserState>) {
    forall b: nat, t, s :: b < |table| ==> !OnCycle(table, b, t, s)
  }

  /** Tables without cycles stop on every input, in time linear in its length. */
  lemma {:induction false} NoCyclesStop(g: Grammar, sets: seq<set<Item>>, ids: seq<nat>, table: seq<ParserState>,
          input: seq<Lexeme>)
    requires Proper(g) && Rooted(g) && TableFor(g, sets, ids, table) && NoCycles(table)
    ensures !Run(table, input, START, (|table| + 1) * (2 * |input| + 1)).Running?
  {
    hide Proper, Rooted, TableFor, OnCycle;
    var bound := (|table| + 1) * (2 * |input| + 1);
    var m := StopsUntrapped(g, sets, ids, table, input, 0, [INITIAL_ENTRY], 0);
    RunCompose(table, input, START, m, bound - m);
  }
}
