/** The error theorem: where the parser stops and what it expects. */
module ExactErrors {
  import opened Options
  import opened TokenSets
  import opened Grammars
  import opened Items
  import opened Tables
  import opened Machine
  import opened Safety
  import opened Soundness
  import opened Completeness
  import opened Errors

  // ------------------------------------------------------- runs on similar inputs

  lemma {:induction false} StepMovesOn(table: seq<ParserState>, input: seq<Lexeme>, stack: seq<Entry>, pos: nat)
    requires Step(table, input, stack, pos).Running?
    ensures pos <= Step(table, input, stack, pos).pos <= pos + 1
  {
  }

  ghost predicate RunsTo(table: seq<ParserState>, input: seq<Lexeme>, n: nat, stack: seq<Entry>, pos: nat) {
    Run(table, input, START, n) == Running(stack, pos)
  }

  lemma {:induction false} RunBefore(table: seq<ParserState>, input: seq<Lexeme>, n: nat, stack: seq<Entry>, pos: nat)
    returns (stack': seq<Entry>, pos': nat)
    requires n > 0 && RunsTo(table, input, n, stack, pos)
    ensures RunsTo(table, input, n - 1, stack', pos') && Step(table, input, stack', pos') == Running(stack, pos)
    ensures pos' <= pos <= pos' + 1
  {
    RunOneMore(table, input, START, n - 1);
    var o := Run(table, input, START, n - 1);
    stack', pos' := o.stack, o.pos;
    StepMovesOn(table, input, stack', pos');
  }

  /** The two inputs look the same up to position k. */
  ghost predicate Agree(input: seq<Lexeme>, input': seq<Lexeme>, k: nat) {
    k <= |input| && k <= |input'| && input[..k] == input'[..k]
  }

  lemma {:induction false} AgreeAt(input: seq<Lexeme>, input': seq<Lexeme>, k: nat, pos: nat)
    requires Agree(input, input', k) && pos < k
    ensures pos < |input| && pos < |input'| && Lookahead(input, pos) == Lookahead(input', pos)
  {
    assert input[..k][pos] == input'[..k][pos];
  }

  ghost predicate ReadLess(table: seq<ParserState>, input: seq<Lexeme>, n: nat, k: nat) {
    var o := Run(table, input, START, n);
    o.Running? && o.pos < k
  }

  /** A run that has read less than k lexemes before its last step is the same on both. */
  lemma {:induction false} SameRun(table: seq<ParserState>, input: seq<Lexeme>, input': seq<Lexeme>, k: nat, n: nat,
          stack: seq<Entry>, pos: nat)
    requires Agree(input, input', k) && RunsTo(table, input, n, stack, pos)
    requires n > 0 ==> ReadLess(table, input, n - 1, k)
    ensures RunsTo(table, input', n, stack, pos)
    decreases n
  {
    if n > 0 {
      var stack', pos' := RunBefore(table, input, n, stack, pos);
      if n > 1 {
        var s, p := RunBefore(table, input, n - 1, stack', pos');
      }
      SameRun(table, input, input', k, n - 1, stack', pos');
      AgreeAt(input, input', k, pos');
      RunOneMore(table, input', START, n - 1);
    }
  }

  /** A derived input meets no error in any configuration it reaches. */
  lemma {:induction false} NoErrorOnSentence(g: Grammar, sets: seq<set<Item>>, ids: seq<nat>, table: seq<ParserState>,
          t: Tree,
                                             n: nat, stack: seq<Entry>, pos: nat)
    requires Setup(g, sets, ids, table) && Derives(g, Body(g), t) && RunsTo(table, Yield(t), n, stack, pos)
    ensures !Step(table, Yield(t), stack, pos).SyntaxError?
  {
    DerivedIsAccepted(g, sets, ids, table, t);
    RunOneMore(table, Yield(t), START, n);
    var o := Step(table, Yield(t), stack, pos);
    if o.SyntaxError? {
      assert Run(table, Yield(t), START, n + 1) == o;
      FinishesOnce(table, Yield(t), o, Accepted(t));
    }
  }

  // --------------------------------------------------------------- the three claims

  /** There is no error on a token that continues what was read to a sentence. */
  lemma {:induction false} NoErrorOnViable(g: Grammar, sets: seq<set<Item>>, ids: seq<nat>, table: seq<ParserState>,
          input: seq<Lexeme>,
                                           n: nat, stack: seq<Entry>, pos: nat)
    requires Setup(g, sets, ids, table) && InputOk(input) && RunsTo(table, input, n, stack, pos) && pos <= |input|
    requires Rooted(g) && ViablePrefix(g, Ids(input[..pos]) + [Lookahead(input, pos).id])
    ensures !Step(table, input, stack, pos).SyntaxError?
  {
    hide Setup;
    var l := Lookahead(input, pos);
    assert pos < |input| ==> l in input;
    var t := SentenceWith(g, input[..pos], l.id, l);
    if pos < |input| {
      assert Yield(t)[..pos + 1] == input[..pos] + [l] == input[..pos + 1];
      assert Agree(input, Yield(t), pos + 1);
      if n > 0 {
        var s, p := RunBefore(table, input, n, stack, pos);
      }
      SameRun(table, input, Yield(t), pos + 1, n, stack, pos);
      NoErrorOnSentence(g, sets, ids, table, t, n, stack, pos);
    } else {
      assert input[..pos] == input;
      NoErrorOnSentence(g, sets, ids, table, t, n, stack, pos);
    }
  }

  ghost predicate ErrorAt(table: seq<ParserState>, input: seq<Lexeme>, n: nat, stack: seq<Entry>, pos: nat,
        expected: seq<int>) {
    RunsTo(table, input, n, stack, pos) && Step(table, input, stack, pos) == SyntaxError(pos, expected)
  }

  /** The configuration was just reached by reading a token, or is the first one. */
  ghost predicate JustShifted(table: seq<ParserState>, input: seq<Lexeme>, n: nat, pos: nat) {
    if n == 0 then pos == 0 else
      var o := Run(table, input, START, n - 1);
      o.Running? && pos == o.pos + 1
  }

  lemma {:induction false} RunInv(g: Grammar, sets: seq<set<Item>>, ids: seq<nat>, table: seq<ParserState>,
          input: seq<Lexeme>,
                                  n: nat, stack: seq<Entry>, pos: nat)
    requires Setup(g, sets, ids, table) && RunsTo(table, input, n, stack, pos)
    ensures Inv(g, sets, ids, input, stack, pos) && Top(stack) < |sets| == |table| && pos <= |input|
  {
    ReachableIsGood(g, sets, ids, table, input, n);
    TopInRange(g, sets, ids, stack);
  }

  /** The action a running step takes is one on the next token. */
  lemma {:induction false} StepAction(table: seq<ParserState>, input: seq<Lexeme>, stack: seq<Entry>,
          pos: nat) returns (a: ParserAction)
    requires stack != [] && Top(stack) < |table| && Step(table, input, stack, pos).Running?
    ensures a in table[Top(stack)].actions && a.token == Lookahead(input, pos).id
  {
    a := table[Top(stack)].actions[FindAction(table[Top(stack)].actions, Lookahead(input, pos).id)];
  }

  lemma {:induction false} ActionIsViable(g: Grammar, sets: seq<set<Item>>, ids: seq<nat>, table: seq<ParserState>,
          input: seq<Lexeme>,
                                          stack: seq<Entry>, pos: nat, a: ParserAction)
    requires Rooted(g) && Setup(g, sets, ids, table) && Productive(g)
    requires Inv(g, sets, ids, input, stack, pos) && Top(stack) < |table| && a in table[Top(stack)].actions
    ensures pos <= |input| && ViablePrefix(g, Ids(input[..pos]) + [a.token])
  {
    hide TableFor, ViablePrefix, Productive;
    ActionViable(g, sets, ids, table, input, stack, pos, a);
  }

  lemma {:induction false} StepViable(g: Grammar, sets: seq<set<Item>>, ids: seq<nat>, table: seq<ParserState>,
          input: seq<Lexeme>,
                                      n: nat, stack: seq<Entry>, pos: nat)
    requires Rooted(g) && Setup(g, sets, ids, table) && Productive(g) && RunsTo(table, input, n, stack, pos)
    requires Step(table, input, stack, pos).Running?
    ensures pos <= |input| && ViablePrefix(g, Ids(input[..pos]) + [Lookahead(input, pos).id])
  {
    hide Setup;
    RunInv(g, sets, ids, table, input, n, stack, pos);
    var a := StepAction(table, input, stack, pos);
    ActionIsViable(g, sets, ids, table, input, stack, pos, a);
  }

  /** No reduction is made on the offending token. */
  lemma {:induction false} ErrorJustShifted(g: Grammar, sets: seq<set<Item>>, ids: seq<nat>, table: seq<ParserState>,
          input: seq<Lexeme>,
                                            n: nat, stack: seq<Entry>, pos: nat, expected: seq<int>)
    requires Rooted(g) && Setup(g, sets, ids, table) && Productive(g) && InputOk(input)
    requires ErrorAt(table, input, n, stack, pos, expected)
    ensures JustShifted(table, input, n, pos)
  {
    hide Setup;
    if n > 0 {
      var s, p := RunBefore(table, input, n, stack, pos);
      StepViable(g, sets, ids, table, input, n - 1, s, p);
      RunInv(g, sets, ids, table, input, n, stack, pos);
      if p == pos {
        NoErrorOnViable(g, sets, ids, table, input, n, stack, pos);
      }
    }
  }

  lemma {:induction false} SomeSentence(g: Grammar, sets: seq<set<Item>>, ids: seq<nat>, table: seq<ParserState>)
    requires Rooted(g) && Setup(g, sets, ids, table) && Productive(g)
    ensures ViablePrefix(g, [])
  {
    assert SymbolOk(g, Body(g)) by {
      assert Proper(g);
    }
    hide Setup;
    var t := SomeTree(g, Body(g));
    assert Splits(g, t, [], Ids(Yield(t)) + [TKN_EOF]);
  }

  /** What was read before the error begins a sentence. */
  lemma {:induction false} ReadIsViable(g: Grammar, sets: seq<set<Item>>, ids: seq<nat>, table: seq<ParserState>,
          input: seq<Lexeme>,
                                        n: nat, stack: seq<Entry>, pos: nat)
    requires Rooted(g) && Setup(g, sets, ids, table) && Productive(g) && pos <= |input|
    requires JustShifted(table, input, n, pos) && RunsTo(table, input, n, stack, pos)
    ensures ViablePrefix(g, Ids(input[..pos]))
  {
    hide Setup;
    if n == 0 {
      SomeSentence(g, sets, ids, table);
      assert Ids(input[..0]) == [];
    } else {
      var s, p := RunBefore(table, input, n, stack, pos);
      StepViable(g, sets, ids, table, input, n - 1, s, p);
      assert input[..pos] == input[..p] + [input[p]];
      IdsConcat(input[..p], [input[p]]);
      assert Ids([input[p]]) == [Lookahead(input, p).id];
    }
  }

  /** A token that continues what was read is among the expected ones. */
  lemma {:induction false} ViableIsExpected(g: Grammar, sets: seq<set<Item>>, ids: seq<nat>, table: seq<ParserState>,
          input: seq<Lexeme>,
                                            n: nat, stack: seq<Entry>, pos: nat, expected: seq<int>, tok: int)
    requires Rooted(g) && Setup(g, sets, ids, table) && InputOk(input) && pos <= |input|
    requires ErrorAt(table, input, n, stack, pos, expected) && JustShifted(table, input, n, pos)
    requires ViablePrefix(g, Ids(input[..pos]) + [tok])
    ensures tok in expected
  {
    hide Setup;
    var t := SentenceWith(g, input[..pos], tok, Lexeme(tok, 0, 0));
    assert Yield(t)[..pos] == input[..pos];
    assert Agree(input, Yield(t), pos);
    SameRun(table, input, Yield(t), pos, n, stack, pos);
    NoErrorOnSentence(g, sets, ids, table, t, n, stack, pos);
    var actions := table[Top(stack)].actions;
    var i := FindAction(actions, tok);
    assert i < |actions| && Expected(actions)[i] == tok;
  }

  lemma {:induction false} ExpectedIsViable(g: Grammar, sets: seq<set<Item>>, ids: seq<nat>, table: seq<ParserState>,
          input: seq<Lexeme>,
                                            n: nat, stack: seq<Entry>, pos: nat, expected: seq<int>, tok: int)
    requires Rooted(g) && Setup(g, sets, ids, table) && Productive(g)
    requires ErrorAt(table, input, n, stack, pos, expected) && tok in expected
    ensures pos <= |input| && ViablePrefix(g, Ids(input[..pos]) + [tok])
  {
    hide Setup;
    RunInv(g, sets, ids, table, input, n, stack, pos);
    var actions := table[Top(stack)].actions;
    var i :| 0 <= i < |actions| && Expected(actions)[i] == tok;
    ActionIsViable(g, sets, ids, table, input, stack, pos, actions[i]);
  }

  /** What an error message says is exact: what was read begins a sentence, the next
      token cannot continue it, the expected tokens are those that can, and nothing
      was reduced on the offending token. */
  ghost predicate ExactError(g: Grammar, table: seq<ParserState>, input: seq<Lexeme>, at: nat, expected: seq<int>)
    requires Rooted(g)
  {
    && at <= |input| && ViablePrefix(g, Ids(input[..at]))
    && !ViablePrefix(g, Ids(input[..at]) + [Lookahead(input, at).id])
    && (forall tok :: tok in expected <==> ViablePrefix(g, Ids(input[..at]) + [tok]))
    && (exists n, stack :: ErrorAt(table, input, n, stack, at, expected) && JustShifted(table, input, n, at))
  }

  lemma {:induction false} ErrorReached(table: seq<ParserState>, input: seq<Lexeme>, at: nat, expected: seq<int>,
          n: nat)
    returns (m: nat, stack: seq<Entry>)
    requires Run(table, input, START, n) == SyntaxError(at, expected)
    ensures ErrorAt(table, input, m, stack, at, expected)
    decreases n
  {
    RunOneMore(table, input, START, n - 1);
    var o := Run(table, input, START, n - 1);
    if o.Running? {
      m, stack := n - 1, o.stack;
    } else {
      m, stack := ErrorReached(table, input, at, expected, n - 1);
    }
  }

  lemma {:induction false} ErrorsAreExact(g: Grammar, sets: seq<set<Item>>, ids: seq<nat>, table: seq<ParserState>,
          input: seq<Lexeme>,
                                          at: nat, expected: seq<int>)
    requires Rooted(g) && Setup(g, sets, ids, table) && Productive(g) && InputOk(input)
    requires Finishes(table, input, SyntaxError(at, expected))
    ensures ExactError(g, table, input, at, expected)
  {
    hide Setup;
    var k: nat :| Run(table, input, START, k) == SyntaxError(at, expected);
    var n, stack := ErrorReached(table, input, at, expected, k);
    RunInv(g, sets, ids, table, input, n, stack, at);
    ErrorJustShifted(g, sets, ids, table, input, n, stack, at, expected);
    ReadIsViable(g, sets, ids, table, input, n, stack, at);
    forall tok
      ensures tok in expected <==> ViablePrefix(g, Ids(input[..at]) + [tok])
    {
      if tok in expected {
        ExpectedIsViable(g, sets, ids, table, input, n, stack, at, expected, tok);
      }
      if ViablePrefix(g, Ids(input[..at]) + [tok]) {
        ViableIsExpected(g, sets, ids, table, input, n, stack, at, expected, tok);
      }
    }
    if ViablePrefix(g, Ids(input[..at]) + [Lookahead(input, at).id]) {
      NoErrorOnViable(g, sets, ids, table, input, n, stack, at);
    }
  }
}
