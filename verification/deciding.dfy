/** What generator and parser make of a grammar, read off its rightmost derivations alone. */
module Deciding {
  import opened Options
  import opened TokenSets
  import opened Grammars
  import opened Items
  import opened Leads
  import opened Consolidation
  import opened Expansion
  import opened Automaton
  import opened Exploration
  import opened Tables
  import opened Machine
  import opened Safety
  import opened Soundness
  import opened Completeness
  import opened ExactErrors
  import opened Halting
  import opened Parser
  import opened Validity
  import opened Reached
  import opened Conflicts

  // ------------------------------------------------------ shifts against reductions

  /** After phi one valid item calls for a reduction on a token and another for its shift. */
  ghost predicate ShiftReduceAt(g: Grammar, phi: seq<Symbol>, it: Item, p: Item) {
    && Valid(g, phi, it) && Valid(g, phi, p) && Complete(g, it)
    && Next(g, p).Some? && Next(g, p).value.T? && Next(g, p).value.tok == it.look
  }

  ghost predicate ShiftReduce(g: Grammar) {
    exists phi, it, p :: ShiftReduceAt(g, phi, it, p)
  }

  /** After phi two different variants are complete, whatever their lookaheads. */
  ghost predicate TwoCompleteAt(g: Grammar, phi: seq<Symbol>, it: Item, p: Item) {
    && Valid(g, phi, it) && Valid(g, phi, p) && Complete(g, it) && Complete(g, p)
    && (it.rule != p.rule || it.variant != p.variant)
  }

  ghost predicate TwoComplete(g: Grammar) {
    exists phi, it, p :: TwoCompleteAt(g, phi, it, p)
  }

  lemma {:induction false} LookOfValid(g: Grammar, phi: seq<Symbol>, it: Item)
    requires Valid(g, phi, it)
    ensures it.look > 0
  {
    var pre: seq<Symbol>, w: seq<Symbol> :| ValidBy(g, phi, it, pre, w);
  }

  /** Two valid items lie together in a state. */
  lemma {:induction false} HeldTogether(g: Grammar, ss: seq<State>, phi: seq<Symbol>, it: Item,
        p: Item) returns (s: nat)
    requires Proper(g) && Rooted(g) && Finished(g, ss) && Valid(g, phi, it) && Valid(g, phi, p)
    ensures s < |ss| && it in Sets(ss)[s] && p in Sets(ss)[s]
  {
    hide *;
    LookOfValid(g, phi, it);
    var path := ValidIsSpelled(g, ss, phi, it);
    ValidIsHeld(g, Sets(ss), path, phi, it);
    ValidIsHeld(g, Sets(ss), path, phi, p);
    s := SpelledState(g, ss, path, phi);
  }

  lemma {:induction false} SpelledState(g: Grammar, ss: seq<State>, path: seq<nat>, phi: seq<Symbol>) returns (s: nat)
    requires Spells(g, Sets(ss), path, phi)
    ensures s == path[|phi|] && |Sets(ss)| == |ss|
  {
    s := path[|phi|];
  }

  /** An item held is valid for a string that leads to its state, with its lookahead or,
      when bare, with some. */
  lemma {:induction false} HeldIsValid(g: Grammar, ss: seq<State>, path: seq<nat>, phi: seq<Symbol>, it: Item)
    returns (v: Item)
    requires Proper(g) && Rooted(g) && Productive(g) && Spells(g, Sets(ss), path, phi)
    requires path[|phi|] < |ss| && it in Sets(ss)[path[|phi|]]
    ensures Valid(g, phi, v) && v == it.(look := v.look) && (it.look >= 0 ==> v == it)
  {
    hide Spells, Valid, Proper, Rooted, Productive;
    ItemsJustified(g, Sets(ss), path, phi);
    assert Justified(g, phi, it);
    var b: int :| (if it.look >= 0 then b == it.look else b >= 0) && Valid(g, phi, it.(look := b));
    v := it.(look := b);
  }

  lemma {:induction false} NextAnyLook(g: Grammar, it: Item, b: int)
    ensures Next(g, it.(look := b)) == Next(g, it) && (Complete(g, it.(look := b)) <==> Complete(g, it))
  {
  }

  lemma {:induction false} ClashIsShiftReduce(g: Grammar, ss: seq<State>, s: nat)
    requires Proper(g) && Rooted(g) && Productive(g) && Begun(g, ss) && s < |ss| && Clash(g, Sets(ss)[s])
    ensures ShiftReduce(g)
  {
    var it, p, t: Token :| it in Sets(ss)[s] && p in Sets(ss)[s]
      && Complete(g, it) && it.look == t && Next(g, p) == Some(T(t));
    hide Proper, Rooted, Productive, Begun, Complete, Next, Clash, Spells, Valid;
    var path, phi := EveryStateReached(g, ss, s);
    var it' := HeldIsValid(g, ss, path, phi, it);
    var p' := HeldIsValid(g, ss, path, phi, p);
    NextAnyLook(g, p, p'.look);
    assert ShiftReduceAt(g, phi, it', p');
  }

  lemma {:induction false} ShiftReduceIsClash(g: Grammar, ss: seq<State>) returns (s: nat)
    requires Proper(g) && Rooted(g) && Finished(g, ss) && ShiftReduce(g)
    ensures s < |ss| && Clash(g, Sets(ss)[s])
  {
    var phi, it, p :| ShiftReduceAt(g, phi, it, p);
    hide Proper, Rooted, Finished, Valid, Complete, Next;
    s := HeldTogether(g, ss, phi, it, p);
    var t: Token := Next(g, p).value.tok;
    assert Next(g, p) == Some(T(t));
  }

  /** The tables are conflict-free exactly when no string of symbols has a valid item that
      calls for a reduction on a token and a valid item that calls for its shift. */
  lemma {:induction false} ConflictFreeIff(g: Grammar, ss: seq<State>, table: seq<ParserState>)
    requires Proper(g) && Rooted(g) && Productive(g) && Finished(g, ss) && TokensAsActions(ss, table)
    ensures ConflictFree(table) <==> !ShiftReduce(g)
  {
    ConflictFreeIffNoClash(g, ss, table);
    assert Begun(g, ss);
    hide *;
    if ShiftReduce(g) {
      var s := ShiftReduceIsClash(g, ss);
    }
    if s: nat :| s < |ss| && Clash(g, Sets(ss)[s]) {
      ClashIsShiftReduce(g, ss, s);
    }
  }

  // ------------------------------------------------------------- refused grammars

  lemma {:induction false} BareItem(ss: seq<State>, j: nat, i: nat) returns (it: Item)
    requires j < |ss| && i < |ss[j].leads|
    ensures it == ItemAt(ss[j].leads[i], BARE) && it in Sets(ss)[j]
  {
    it := ItemAt(ss[j].leads[i], BARE);
    assert ss[j].leads[i] in ss[j].leads;
  }

  /** Two leads without a symbol after their dots are complete items of different variants. */
  lemma {:induction false} LeadsComplete(g: Grammar, st: State) returns (i: nat, j: nat)
    requires ReduceConflict(g, st) && AllOk(g, st.leads) && Canonical(st.leads)
    ensures i < |st.leads| && j < |st.leads|
    ensures Complete(g, ItemAt(st.leads[i], BARE)) && Complete(g, ItemAt(st.leads[j], BARE))
    ensures st.leads[i].rule != st.leads[j].rule || st.leads[i].variant != st.leads[j].variant
  {
    i, j :| 0 <= i < j < |st.leads| && LeadSymbol(g, st.leads[i]) == LeadSymbol(g, st.leads[j]) == None;
    assert LeadOk(g, st.leads[i]) && LeadOk(g, st.leads[j]);
    assert CompareCores(st.leads[i], st.leads[j]) < 0;
  }

  lemma {:induction false} RefusalIsTwoComplete(g: Grammar, ss: seq<State>, s: nat)
    requires Proper(g) && Rooted(g) && Productive(g) && Begun(g, ss) && s < |ss| && ReduceConflict(g, ss[s])
    ensures TwoComplete(g)
  {
    assert AllOk(g, ss[s].leads) && Canonical(ss[s].leads);
    hide Proper, Rooted, Productive, Begun, ReduceConflict, Complete, Spells, Valid, Canonical, AllOk;
    var i, j := LeadsComplete(g, ss[s]);
    var it := BareItem(ss, s, i);
    var p := BareItem(ss, s, j);
    var path, phi := EveryStateReached(g, ss, s);
    var it' := HeldIsValid(g, ss, path, phi, it);
    var p' := HeldIsValid(g, ss, path, phi, p);
    NextAnyLook(g, it, it'.look);
    NextAnyLook(g, p, p'.look);
    assert TwoCompleteAt(g, phi, it', p');
  }

  lemma {:induction false} CompleteLead(g: Grammar, st: State, it: Item) returns (i: nat)
    requires it in ItemsOf(st.leads) && Complete(g, it)
    ensures i < |st.leads| && LeadSymbol(g, st.leads[i]) == None
    ensures st.leads[i].rule == it.rule && st.leads[i].variant == it.variant
  {
    var lead, look :| lead in st.leads && look in Looks(lead) && it == ItemAt(lead, look);
    NextOfItemAt(g, lead, look);
    i :| 0 <= i < |st.leads| && st.leads[i] == lead;
  }

  lemma {:induction false} TwoCompleteIsRefused(g: Grammar, ss: seq<State>)
    requires Proper(g) && Rooted(g) && TwoComplete(g)
    ensures !Finished(g, ss)
  {
    var phi, it, p :| TwoCompleteAt(g, phi, it, p);
    if Finished(g, ss) {
      var s := HeldTogether(g, ss, phi, it, p);
      StateDone(g, ss, s);
      var i := CompleteLead(g, ss[s], it);
      var j := CompleteLead(g, ss[s], p);
      assert ReduceConflict(g, ss[s]);
    }
  }

  /** The generator accepts exactly the grammars in which no string of symbols has valid
      complete items of two variants. */
  lemma {:induction false} AcceptedIff(g: Grammar, ok: bool, ss: seq<State>)
    requires Proper(g) && Rooted(g) && Productive(g) && Generated(g, ok, ss)
    ensures ok <==> !TwoComplete(g)
  {
    hide *;
    if ok {
      AcceptedIsFinished(g, ss);
      if TwoComplete(g) {
        TwoCompleteIsRefused(g, ss);
      }
    } else {
      var s := RefusedState(g, ss);
      RefusalIsTwoComplete(g, ss, s);
    }
  }

  lemma {:induction false} AcceptedIsFinished(g: Grammar, ss: seq<State>)
    requires Generated(g, true, ss)
    ensures Finished(g, ss)
  {
  }

  lemma {:induction false} RefusedState(g: Grammar, ss: seq<State>) returns (s: nat)
    requires Generated(g, false, ss)
    ensures Begun(g, ss) && s < |ss| && ReduceConflict(g, ss[s])
  {
    s :| 0 <= s < |ss| && ReduceConflict(g, ss[s]);
  }

  // --------------------------------------------------------------- the whole chain

  /** Of the tables of a grammar without such a clash: the parser finishes on every
      input, with its derivation or with an exact error. */
  lemma {:induction false} GeneratedParserDecides(g: Grammar, ss: seq<State>, ids: seq<nat>, table: seq<ParserState>,
          input: seq<Lexeme>)
    returns (o: Outcome, bound: nat)
    requires Proper(g) && Rooted(g) && Productive(g) && !ShiftReduce(g) && InputOk(input)
    requires Finished(g, ss) && TokensAsActions(ss, table) && TableFor(g, Sets(ss), ids, table)
    ensures Finishes(table, input, o) && !Run(table, input, START, bound).Running?
    ensures Decided(g, table, input, o)
  {
    ConflictFreeIff(g, ss, table);
    bound := ConflictFreeStops(g, Sets(ss), ids, table, input);
    o := Run(table, input, START, bound);
    assert Finishes(table, input, o);
    OutcomeIsExact(g, Sets(ss), ids, table, input, o);
  }

  /** The outcome is a derivation of the input, or an exact error, and then there is none. */
  ghost predicate Decided(g: Grammar, table: seq<ParserState>, input: seq<Lexeme>, o: Outcome)
    requires Rooted(g)
  {
    match o
    case Accepted(tree) => Derives(g, Body(g), tree) && Yield(tree) == input
    case SyntaxError(at, expected) =>
      && ExactError(g, table, input, at, expected)
      && forall tree :: Derives(g, Body(g), tree) ==> Yield(tree) != input
    case _ => false
  }

  /** From a grammar to an answer: generates the tables and parses with them. */
  method GenerateAndParse(g: Grammar, input: seq<Lexeme>)
    returns (ok: bool, table: seq<ParserState>, outcome: Outcome)
    requires Proper(g) && Rooted(g) && Productive(g) && !ShiftReduce(g) && InputOk(input)
    ensures ok <==> !TwoComplete(g)
    ensures ok ==> Finishes(table, input, outcome) && Decided(g, table, input, outcome)
  {
    hide Proper, Productive, ShiftReduce, TwoComplete, Finished, TableFor, TokensAsActions, Decided, Finishes;
    var ids, ss;
    ok, table, ids, ss := MakeTables(g);
    AcceptedIff(g, ok, ss);
    outcome := Crashed;
    if ok {
      ghost var o, bound := GeneratedParserDecides(g, ss, ids, table, input);
      outcome := Parse(table, input, g, Sets(ss), ids, bound);
      FinishesOnce(table, input, outcome, o);
    }
  }
}
