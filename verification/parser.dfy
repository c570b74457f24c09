/** The parser: the driver loop over the tables and a stack that it updates in place. */
module Parser {
  import opened Options
  import opened Arrays
  import opened Grammars
  import opened Items
  import opened Tables
  import opened Machine
  import opened Safety
  import opened Soundness
  import opened Completeness
  import opened ExactErrors

  method LookupAction(actions: seq<ParserAction>, token: int) returns (i: nat)
    ensures i == FindAction(actions, token)
  {
    i := 0;
    while i < |actions|
      invariant i <= |actions| && FindAction(actions, token) == i + FindAction(actions[i..], token)
    {
      if actions[i].token == token {
        return;
      }
      i := i + 1;
    }
  }

  /** The state of the first goto for the rule, or the state given. */
  method LookupGoto(gotos: seq<ParserGoto>, rule: nat, state: nat) returns (s: nat)
    ensures s == GotoState(gotos, rule, state)
  {
    var i := 0;
    while i < |gotos|
      invariant i <= |gotos| && GotoState(gotos, rule, state) == GotoState(gotos[i..], rule, state)
    {
      if gotos[i].rule == rule {
        return gotos[i].state;
      }
      i := i + 1;
    }
    return state;
  }

  /** The trees of the entries from `first` on, as handed to a reducer. */
  method PoppedTrees(stack: Array<Entry>, first: nat) returns (trees: seq<Tree>)
    requires stack.Valid() && first <= stack.size
    ensures trees == Trees(stack.Contents()[first..])
  {
    trees := [];
    for i := first to stack.size
      invariant trees == Trees(stack.Contents()[first..i])
    {
      assert stack.Contents()[first..i + 1] == stack.Contents()[first..i] + [stack.Contents()[i]];
      trees := trees + [stack.Get(i).tree];
    }
    assert stack.Contents()[first..stack.size] == stack.Contents()[first..];
  }

  /** Replaces the entries a reduction pops by the reduced one. */
  method PopAndPush(table: seq<ParserState>, stack: Array<Entry>, pos: nat, a: ParserAction)
    requires stack.Valid() && a.stateOrLength < 0 && a.rule != 0 && stack.size > 0
    requires ReduceStep(table, stack.Contents(), pos, a).Running?
    modifies stack, stack.items
    ensures stack.Valid() && stack.items == old(stack.items)
    ensures ReduceStep(table, old(stack.Contents()), pos, a) == Running(stack.Contents(), pos)
  {
    ghost var was := stack.Contents();
    var n := -a.stateOrLength;
    var target, current := stack.Get(stack.size - n), stack.Get(stack.size - 1);
    var base := table[stack.Get(stack.size - n - 1).state];
    var reduced := target.(id := a.rule, last := current.last);
    if a.reducer.Build? {
      var trees := PoppedTrees(stack, stack.size - n);
      reduced := reduced.(tree := Node(a.reducer.rule, a.reducer.variant, trees));
    }
    var state := LookupGoto(base.gotos, a.rule, target.state);
    reduced := reduced.(state := state);
    assert reduced == Reduced(base, was[|was| - n..], a);
    stack.Set(stack.size - n, reduced);
    stack.Resize(stack.size - n + 1);
    assert stack.Contents() == was[..|was| - n] + [reduced];
  }

  lemma {:induction false} StepReached(g: Grammar, sets: seq<set<Item>>, ids: seq<nat>, table: seq<ParserState>,
          input: seq<Lexeme>,
                                       steps: nat, stack: seq<Entry>, pos: nat)
    requires Proper(g) && Rooted(g) && TableFor(g, sets, ids, table) && RunsTo(table, input, steps, stack, pos)
    ensures stack != [] && Top(stack) < |table| && pos <= |input|
    ensures Run(table, input, START, steps + 1) == Step(table, input, stack, pos)
    ensures !Step(table, input, stack, pos).Crashed?
    ensures var o := Step(table, input, stack, pos); o.Running? ==> o.stack != []
  {
    hide TableFor;
    ReachableIsGood(g, sets, ids, table, input, steps);
    RunOneMore(table, input, START, steps);
    TableFacts(g, sets, ids, table);
    TopInRange(g, sets, ids, stack);
    StepKeeps(g, sets, ids, table, input, stack, pos);
  }

  /** A run that is still going has not used up the steps after which it is over. */
  lemma {:induction false} StepsLeft(table: seq<ParserState>, input: seq<Lexeme>, bound: nat, steps: nat)
    requires !Run(table, input, START, bound).Running? && Run(table, input, START, steps).Running?
    ensures steps < bound
  {
    if bound <= steps {
      RunCompose(table, input, START, bound, steps - bound);
    }
  }

  lemma {:induction false} StepByAction(table: seq<ParserState>, input: seq<Lexeme>, stack: seq<Entry>, pos: nat,
          i: nat)
    requires stack != [] && Top(stack) < |table|
    requires i == FindAction(table[Top(stack)].actions, Lookahead(input, pos).id)
    ensures var actions := table[Top(stack)].actions;
      Step(table, input, stack, pos) ==
        if i == |actions| then SyntaxError(pos, Expected(actions))
        else if actions[i].stateOrLength < 0 then ReduceStep(table, stack, pos, actions[i])
        else ShiftStep(input, stack, pos, actions[i].stateOrLength)
  {
  }

  /** One round of the driver loop: shifts or reduces, or finishes with an outcome. */
  method Round(table: seq<ParserState>, input: seq<Lexeme>, stack: Array<Entry>, pos: nat)
    returns (result: Option<Outcome>, pos': nat)
    requires stack.Valid() && stack.size > 0 && Top(stack.Contents()) < |table|
    requires !Step(table, input, stack.Contents(), pos).Crashed?
    modifies stack, stack.items
    ensures stack.Valid() && (stack.items == old(stack.items) || fresh(stack.items))
    ensures result.None? ==> Step(table, input, old(stack.Contents()), pos) == Running(stack.Contents(), pos')
    ensures result.Some? ==> Step(table, input, old(stack.Contents()), pos) == result.value && !result.value.Running?
  {
    ghost var now := stack.Contents();
    pos' := pos;
    var actions := table[stack.Get(stack.size - 1).state].actions;
    var i := LookupAction(actions, Lookahead(input, pos).id);
    StepByAction(table, input, now, pos, i);
    hide Step;
    if i >= |actions| {
      return Some(SyntaxError(pos, Expected(actions))), pos;
    }
    var a := actions[i];
    if a.stateOrLength < 0 {
      if a.rule == 0 {
        return Some(Accepted(stack.Get(stack.size - 1).tree)), pos;
      }
      PopAndPush(table, stack, pos, a);
    } else {
      var l := Lookahead(input, pos);
      stack.Add(Entry(a.stateOrLength, l.id, l.first, l.last, Leaf(l)));
      pos' := if pos < |input| then pos + 1 else pos;
    }
    result := None;
  }

  /** Parses the input; the ghost arguments witness that the tables were generated from a
      grammar and that the run on this input stops. */
  method Parse(table: seq<ParserState>, input: seq<Lexeme>,
               ghost g: Grammar, ghost sets: seq<set<Item>>, ghost ids: seq<nat>, ghost bound: nat)
    returns (outcome: Outcome)
    requires Proper(g) && Rooted(g) && TableFor(g, sets, ids, table) && !Run(table, input, START, bound).Running?
    ensures Finishes(table, input, outcome)
    ensures outcome.Accepted? || outcome.SyntaxError?
  {
    hide Proper, Rooted, TableFor, Step;
    var stack := new Array<Entry>();
    stack.Add(INITIAL_ENTRY);
    var pos := 0;
    ghost var steps := 0;
    while stack.size > 0
      invariant stack.Valid() && fresh(stack.items)
      invariant stack.size > 0 && RunsTo(table, input, steps, stack.Contents(), pos)
      decreases bound - steps
    {
      StepsLeft(table, input, bound, steps);
      StepReached(g, sets, ids, table, input, steps, stack.Contents(), pos);
      var result, next := Round(table, input, stack, pos);
      if result.Some? {
        return result.value;
      }
      pos := next;
      steps := steps + 1;
    }
  }

  /** On conflict-free tables of a productive grammar every input has one outcome: its
      derivation, or an exact error when it has none. */
  lemma {:induction false} OutcomeIsExact(g: Grammar, sets: seq<set<Item>>, ids: seq<nat>, table: seq<ParserState>,
          input: seq<Lexeme>,
                                          o: Outcome)
    requires Rooted(g) && Setup(g, sets, ids, table) && Productive(g) && InputOk(input) && Finishes(table, input, o)
    ensures match o
      case Accepted(tree) => Derives(g, Body(g), tree) && Yield(tree) == input
      case SyntaxError(at, expected) => ExactError(g, table, input, at, expected)
        && forall tree :: Derives(g, Body(g), tree) ==> Yield(tree) != input
      case _ => false
  {
    match o {
      case Accepted(tree) =>
        AcceptsExactly(g, sets, ids, table, input, tree);
      case SyntaxError(at, expected) =>
        ErrorsAreExact(g, sets, ids, table, input, at, expected);
        forall tree | Derives(g, Body(g), tree)
          ensures Yield(tree) != input
        {
          DerivedIsAccepted(g, sets, ids, table, tree);
          if Yield(tree) == input {
            FinishesOnce(table, input, o, Accepted(tree));
          }
        }
      case Crashed =>
        NeverCrashes(g, sets, ids, table, input);
      case Running(_, _) =>
    }
  }
}
