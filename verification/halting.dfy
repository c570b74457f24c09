/** On conflict-free tables of a productive grammar every run stops, unit cycles or not. */
module Halting {
  import opened Grammars
  import opened Items
  import opened Tables
  import opened Machine
  import opened Safety
  import opened Completeness
  import opened Errors
  import opened ExactErrors

  /** The run is still going after m steps and has read at most k lexemes. */
  ghost predicate Lingers(table: seq<ParserState>, input: seq<Lexeme>, m: nat, k: nat) {
    var o := Run(table, input, START, m);
    o.Running? && o.pos <= k
  }

  lemma {:induction false} LingeredBefore(table: seq<ParserState>, input: seq<Lexeme>, m: nat, k: nat)
    requires m > 0 && Lingers(table, input, m, k)
    ensures Lingers(table, input, m - 1, k)
  {
    var o := Run(table, input, START, m);
    var s, p := RunBefore(table, input, m, o.stack, o.pos);
  }

  /** A run that an accepted input shares cannot linger longer than the accepted one. */
  lemma {:induction false} NotLonger(table: seq<ParserState>, input: seq<Lexeme>, other: seq<Lexeme>, k: nat, m: nat,
          t: Tree, n: nat)
    requires Agree(input, other, k + 1) && Run(table, other, START, n) == Accepted(t) && n <= m && m > 0
    ensures !Lingers(table, input, m, k)
  {
    if Lingers(table, input, m, k) {
      LingeredBefore(table, input, m, k);
      var o := Run(table, input, START, m);
      SameRun(table, input, other, k + 1, m, o.stack, o.pos);
      RunCompose(table, other, START, n, m - n);
    }
  }

  lemma {:induction false} AcceptedStays(table: seq<ParserState>, input: seq<Lexeme>, t: Tree, n: nat, m: nat)
    requires Run(table, input, START, n) == Accepted(t) && n <= m
    ensures !Run(table, input, START, m).Running?
  {
    RunCompose(table, input, START, n, m - n);
  }

  /** From any configuration that can step, the run stops or reads another lexeme. */
  lemma {:induction false} MovesOn(g: Grammar, sets: seq<set<Item>>, ids: seq<nat>, table: seq<ParserState>,
          input: seq<Lexeme>,
                                   n: nat, stack: seq<Entry>, pos: nat) returns (m: nat)
    requires Rooted(g) && Setup(g, sets, ids, table) && Productive(g) && InputOk(input)
    requires RunsTo(table, input, n, stack, pos)
    requires Step(table, input, stack, pos).Running?
    ensures !Lingers(table, input, m, pos)
  {
    hide Setup, Lingers;
    StepViable(g, sets, ids, table, input, n, stack, pos);
    var l := Lookahead(input, pos);
    assert pos < |input| ==> l in input;
    var t := SentenceWith(g, input[..pos], l.id, l);
    DerivedIsAccepted(g, sets, ids, table, t);
    var k: nat :| Run(table, Yield(t), START, k) == Accepted(t);
    m := k + 1;
    if pos < |input| {
      assert Yield(t)[..pos + 1] == input[..pos] + [l] == input[..pos + 1];
      NotLonger(table, input, Yield(t), pos, m, t, k);
    } else {
      assert input[..pos] == input;
      AcceptedStays(table, input, t, k, m);
      NotRunning(table, input, m, pos);
    }
  }

  lemma {:induction false} NotRunning(table: seq<ParserState>, input: seq<Lexeme>, m: nat, k: nat)
    requires !Run(table, input, START, m).Running?
    ensures !Lingers(table, input, m, k)
  {
  }

  lemma {:induction false} StopsFrom(g: Grammar, sets: seq<set<Item>>, ids: seq<nat>, table: seq<ParserState>,
          input: seq<Lexeme>,
                                     n: nat, stack: seq<Entry>, pos: nat) returns (m: nat)
    requires Rooted(g) && Setup(g, sets, ids, table) && Productive(g) && InputOk(input)
    requires RunsTo(table, input, n, stack, pos)
    requires pos <= |input|
    ensures !Run(table, input, START, m).Running?
    decreases |input| - pos
  {
    hide Setup;
    RunOneMore(table, input, START, n);
    if Step(table, input, stack, pos).Running? {
      m := MovesOn(g, sets, ids, table, input, n, stack, pos);
      var o := Run(table, input, START, m);
      if o.Running? {
        RunInv(g, sets, ids, table, input, m, o.stack, o.pos);
        m := StopsFrom(g, sets, ids, table, input, m, o.stack, o.pos);
      }
    } else {
      m := n + 1;
    }
  }

  /** Every run stops. */
  lemma {:induction false} ConflictFreeStops(g: Grammar, sets: seq<set<Item>>, ids: seq<nat>, table: seq<ParserState>,
          input: seq<Lexeme>)
    returns (m: nat)
    requires Rooted(g) && Setup(g, sets, ids, table) && Productive(g) && InputOk(input)
    ensures !Run(table, input, START, m).Running?
  {
    assert RunsTo(table, input, 0, [INITIAL_ENTRY], 0);
    m := StopsFrom(g, sets, ids, table, input, 0, [INITIAL_ENTRY], 0);
  }
}
