/** The shift-reduce driver as a machine: one step per round of the parser's loop. */
module Machine {
  import opened TokenSets
  import opened Grammars
  import opened Tables

  /** A stack entry: the state, and the token with its identifier, text range and
      the tree its reducer built. */
  datatype Entry = Entry(state: nat, id: int, first: nat, last: nat, tree: Tree)

  const INITIAL_ENTRY := Entry(0, 0, 0, 0, Leaf(Lexeme(0, 0, 0)))

  datatype Outcome =
    | Running(stack: seq<Entry>, pos: nat)
    | Accepted(tree: Tree)
    | SyntaxError(at: nat, expected: seq<int>)
    | Crashed

  /** The token the lexer stands at; at the end of the input it stays at EOF. */
  function Lookahead(input: seq<Lexeme>, pos: nat): Lexeme {
    if pos < |input| then input[pos] else Lexeme(TKN_EOF, 0, 0)
  }

  /** The index of the first action for the token, or the number of actions. */
  function FindAction(actions: seq<ParserAction>, token: int): (i: nat)
    ensures i <= |actions|
    ensures i < |actions| ==> actions[i].token == token
    ensures i == |actions| ==> forall a :: a in actions ==> a.token != token
  {
    if actions == [] then 0
    else if actions[0].token == token then 0
    else
      assert actions == [actions[0]] + actions[1..];
      1 + FindAction(actions[1..], token)
  }

  /** The state of the first goto for the rule; without one the old state stays. */
  function GotoState(gotos: seq<ParserGoto>, rule: nat, prior: nat): (s: nat)
    ensures (exists e :: e in gotos && e.rule == rule) ==> exists e :: e in gotos && e.rule == rule && e.state == s
  {
    if gotos == [] then prior
    else if gotos[0].rule == rule then gotos[0].state
    else
      assert gotos == [gotos[0]] + gotos[1..];
      GotoState(gotos[1..], rule, prior)
  }

  function Trees(entries: seq<Entry>): seq<Tree> {
    seq(|entries|, i requires 0 <= i < |entries| => entries[i].tree)
  }

  function ShiftStep(input: seq<Lexeme>, stack: seq<Entry>, pos: nat, state: nat): Outcome {
    var l := Lookahead(input, pos);
    Running(stack + [Entry(state, l.id, l.first, l.last, Leaf(l))], if pos < |input| then pos + 1 else pos)
  }

  /** The entry that replaces the popped ones. */
  function Reduced(base: ParserState, popped: seq<Entry>, a: ParserAction): Entry
    requires popped != []
  {
    var target := popped[0];
    var tree := match a.reducer
      case NoReducer => target.tree
      case Build(r, v) => Node(r, v, Trees(popped));
    Entry(GotoState(base.gotos, a.rule, target.state), a.rule, target.first, popped[|popped| - 1].last, tree)
  }

  function ReduceStep(table: seq<ParserState>, stack: seq<Entry>, pos: nat, a: ParserAction): Outcome
    requires stack != [] && a.stateOrLength < 0
  {
    var n := -a.stateOrLength;
    if a.rule == 0 then Accepted(stack[|stack| - 1].tree)
    else if |stack| < n + 1 || stack[|stack| - n - 1].state >= |table| then Crashed
    else
      var base := table[stack[|stack| - n - 1].state];
      Running(stack[..|stack| - n] + [Reduced(base, stack[|stack| - n..], a)], pos)
  }

  function Step(table: seq<ParserState>, input: seq<Lexeme>, stack: seq<Entry>, pos: nat): Outcome {
    if stack == [] || stack[|stack| - 1].state >= |table| then Crashed
    else
      var actions := table[stack[|stack| - 1].state].actions;
      var i := FindAction(actions, Lookahead(input, pos).id);
      if i == |actions| then SyntaxError(pos, Expected(actions))
      else if actions[i].stateOrLength < 0 then ReduceStep(table, stack, pos, actions[i])
      else ShiftStep(input, stack, pos, actions[i].stateOrLength)
  }

  /** n steps from an outcome; final outcomes stay as they are. */
  function Run(table: seq<ParserState>, input: seq<Lexeme>, o: Outcome, n: nat): Outcome
    decreases n
  {
    if n == 0 || !o.Running? then o else Run(table, input, Step(table, input, o.stack, o.pos), n - 1)
  }

  const START := Running([INITIAL_ENTRY], 0)

  /** The parser finishes on the input with this outcome. */
  ghost predicate Finishes(table: seq<ParserState>, input: seq<Lexeme>, o: Outcome) {
    !o.Running? && exists n: nat :: Run(table, input, START, n) == o
  }

  lemma {:induction false} RunCompose(table: seq<ParserState>, input: seq<Lexeme>, o: Outcome, m: nat, n: nat)
    ensures Run(table, input, o, m + n) == Run(table, input, Run(table, input, o, m), n)
    decreases m
  {
    if m > 0 && o.Running? {
      RunCompose(table, input, Step(table, input, o.stack, o.pos), m - 1, n);
    }
  }

  /** The outcome after one more step. */
  function Advanced(table: seq<ParserState>, input: seq<Lexeme>, o: Outcome): Outcome {
    if o.Running? then Step(table, input, o.stack, o.pos) else o
  }

  lemma {:induction false} RunOneMore(table: seq<ParserState>, input: seq<Lexeme>, o: Outcome, n: nat)
    ensures Run(table, input, o, n + 1) == Advanced(table, input, Run(table, input, o, n))
  {
    RunCompose(table, input, o, n, 1);
  }

  /** Runs are deterministic: an input has at most one final outcome. */
  lemma {:induction false} FinishesOnce(table: seq<ParserState>, input: seq<Lexeme>, o: Outcome, o': Outcome)
    requires Finishes(table, input, o) && Finishes(table, input, o')
    ensures o == o'
  {
    var m: nat :| Run(table, input, START, m) == o;
    var n: nat :| Run(table, input, START, n) == o';
    if m <= n {
      RunCompose(table, input, START, m, n - m);
    } else {
      RunCompose(table, input, START, n, m - n);
    }
  }
}
