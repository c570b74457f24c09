# Low compiler: a verified model

This project models the front end of the Low compiler and proves what it is for:

- the canonical LR(1) parser generator (`src/parser_generator.c`), for any finite grammar;
- the table-driven shift-reduce parser (`src/parser.c`), for any input;
- the lowering of structured statements to basic blocks (`src/codegen.c`);
- the lexer (`src/lexer.c`);
- the operator ladder of the expression grammar and its reducers (`src/grammar_rules.h`, `src/grammar_rules.c`);
- the dynamic array under all of them (`src/array.c`).

Code that updates state is modelled by classes and methods with loops, each proved against a
function or a predicate; what that function or predicate means is proved by lemmas beside it.

## Layout

| files | content |
|---|---|
| `array.dfy`, `option.dfy` | the dynamic array as a class refining a sequence; its 32-bit growth loop |
| `words.dfy`, `token_set.dfy`, `tokens.dfy` | 32-bit words, bit sets of tokens; the token identifiers |
| `grammar.dfy`, `first.dfy`, `items.dfy` | grammars and derivation trees, FIRST sets, LR(1) items and closures |
| `leads.dfy`, `consolidate.dfy`, `expansion.dfy` | leads (items with token sets), their canonical form and their closure |
| `automaton.dfy`, `explore.dfy`, `tables.dfy` | states, their exploration, the printed tables |
| `machine.dfy`, `safety.dfy`, `soundness.dfy`, `completeness.dfy` | the parser as a state machine, its invariant, soundness and completeness |
| `errors.dfy`, `exact_errors.dfy` | error reports |
| `bound.dfy`, `units.dfy`, `halting.dfy`, `cycles.dfy` | termination, and exactly which runs do not stop |
| `parser.dfy` | the parser loop over the dynamic array |
| `validity.dfy`, `reached.dfy` | the automaton against rightmost derivations |
| `conflicts.dfy`, `resolution.dfy`, `deciding.dfy`, `witnesses.dfy` | when tables have conflicts and which entry wins; which grammars are accepted; two grammars that fail |
| `statements.dfy`, `blocks.dfy`, `lowering.dfy` | statements and their meaning, block graphs and their runs, the code generator |
| `preservation.dfy`, `functions.dfy`, `wellformed.dfy`, `completion.dfy` | the lowering preserves meaning; whole functions; well-formed blocks; which bodies can complete |
| `ladder.dfy`, `precedence.dfy`, `printing.dfy`, `binding.dfy` | the operator ladder, unique derivations, printing and reading back; which operator binds tighter |
| `ladder_tables.dfy`, `reading.dfy` | the ladder is LR(1) and accepted; from a text to a tree |
| `scanning.dfy`, `lexer.dfy`, `respelling.dfy`, `names.dfy` | what the lexer finds, the lexer itself, spelling and reading back; the lexer against the names in the token list |

## Main results

1. **Generator and parser together** (`Deciding.GenerateAndParse`, `Deciding.GeneratedParserDecides`).
   Take any grammar with no empty variant, whose root is referenced nowhere and has a single variant of
   one rule reference, whose variants never mention the end-of-file token, and whose rules all derive
   something. The generator accepts it if and only if no string of symbols has valid complete items of
   two variants (`Deciding.AcceptedIff`), and its tables are free of conflicts if and only if no string
   has a valid item that asks for a reduction and one that asks for a shift on the same token
   (`Deciding.ConflictFreeIff`); both conditions are about rightmost derivations alone. When both hold,
   the parser stops on every input and either returns the input's derivation tree or reports an exact
   error: what was read begins a sentence, the next token cannot go on, and the listed tokens are
   exactly those that can.
2. **The automaton is the canonical one** (`Exploration.Generate`, `Reached.PathsSpellViablePrefixes`,
   `Validity.StateHoldsValidItems`): its paths spell exactly the viable prefixes, and the state
   reached holds exactly the LR(1) items valid for the prefix, as rightmost derivations define them.
3. **Soundness needs no hypothesis on conflicts** (`Soundness.AcceptedIsDerived`,
   `Soundness.NeverCrashes`): with the tables of any grammar the stack is a path of the automaton,
   no reduction pops the bottom entry, every goto exists, and an accepted tree spells the input.
4. **The lowering preserves meaning in both directions** (`Functions.FunctionPreserved`,
   `Functions.BodyMeaning`), also for runs that do not stop, and is never stuck; blocks are well
   formed exactly when the source meets the condition of `WellFormedBlocks.WellFormedIffClean`.
5. **From a text to a tree** (`Reading.ReadText`). For a text of any tokens with whitespace, comments and
   stray characters around them, the lexer delivers the tokens with one semicolon for the newlines after each
   that ends a statement (`Respelling.ReadBackWithGaps`). The ladder meets both conditions of result 1, so
   the parser generated for it (`LadderTables.ReadExpression`) and the reducers find the one tree that the
   tokens print, with nothing assumed. What a token is, is told by the names in the token list
   (`Names.WellSpelledIffNamed`, `Names.NewlineEnds`), and what a tree prints by the tags of the grammar's
   rules (`Binding.Written`, `Binding.TwoOperators`).
6. **Exactly which runs do not stop** (`Cycles.RunsForeverIff`), on any tables of the generator: those that
   come upon a cycle of unit reductions, chased through the gotos of one state on one token.

## Where code and expectation differ

- The check on shift-reduce conflicts at `src/parser_generator.c:406` compares the sizes of two groups
  of which one is always empty, so it never fails; a grammar with such a conflict gets tables with
  two entries for one token. `Deciding.ConflictFreeIff` says for which grammars, and
  `Resolution.ReducesIffFirst` which entry the parser then takes. `Witnesses.MakeChainTables` is a case:
  the generator accepts the grammar, and on one of its sentences the parser runs forever.
- The generator demands at most one complete item in a state (`src/parser_generator.c:407`), which is
  stricter than LR(1): `Deciding.AcceptedIff` says what it accepts, and `Witnesses.RefuseTwins` is an
  LR(1) grammar that it refuses.
- The doubling loop of `array_grow` works in 32-bit words. It reserves what it should exactly when that
  fits a word (`Arrays.GrowsRightIff`), and stops at all exactly when one of its first 32 values is large
  enough (`Arrays.GrowStopsIff`); from an empty array, up to 2^31 items (`Arrays.GrowFromEmptyStopsIff`).
  When the sum of the sizes wraps, nothing is reserved (`Arrays.RoomIffNoWrap`).
- A character that begins no token makes the lexer deliver an empty identifier, and stay where it is,
  when the last token was an identifier (`Respelling.EmptyIffStale`); then the end of the text is never
  reached, and otherwise it is (`Respelling.ReachesEndIff`). `Respelling.DollarIsStuck` is the text `a $`.
- The token list names `==` by `=` (`src/lexer_tokens.h:17`), which error messages print; every other symbol and
  keyword is read exactly from its name (`Names.SymbolIsNamed`, `Names.WordMeans`).
- The missing-return check rejects some bodies that never complete. `Completion.WronglyReportedIff` says
  which, by their syntax; a loop without a condition that no break leaves is always to blame
  (`Completion.OnlyLoopsMislead`), as in `Functions.MissingReturnIsConservative`.

## Model

| member | source | states |
|---|---|---|
| Arrays.Array.constructor | src/array.c:42-50 | a new array is empty |
| Arrays.Array.Reallocate | src/array.c:8-17 | the first items survive, as many as fit |
| Arrays.Array.Grow | src/array.c:19-29 | makes room without changing the contents; the capacity, when it changes, is below twice what is required |
| Arrays.Array.MoveTail | src/array.c:31-38 | the tail is moved as a whole even where source and target overlap |
| Arrays.Array.InsertMany | src/array.c:152-164 | opens a gap of n items, filled when values are given; what was before and behind it is kept |
| Arrays.Array.Insert | src/array.c:135-146 | the contents get the item spliced in at the index |
| Arrays.Array.Add | src/array.c:192-196 | the contents get the item at the end |
| Arrays.Array.AddMany | src/array.c:201-205 | the contents get all items at the end |
| Arrays.Array.Get | src/array.c:92-97 | the item at the index of the contents |
| Arrays.Array.Set | src/array.c:112-117 | one item of the contents is replaced |
| Arrays.Array.SetMany | src/array.c:121-128 | a stretch of the contents is replaced, the rest kept |
| Arrays.Array.EraseRange | src/array.c:178-186 | the range is cut out of the contents |
| Arrays.Array.Erase | src/array.c:168-175 | one item is cut out of the contents |
| Arrays.Array.Resize | src/array.c:73-79 | a prefix of the contents stays; new items may be anything |
| Arrays.Array.Shrink | src/array.c:83-88 | no spare capacity is left, the contents stay |
| Arrays.Array.Remove | src/array.c:208-213 | drops the last item |
| Arrays.Array.Clear | src/array.c:225-229 | drops all items |
| Arrays.Fill | src/array.c:19-29 | n additions to an empty array move fewer than 2n items in all |
| Arrays.GrowsRightIff | src/array.c:24-26 | the 32-bit doubling loop stops at the unbounded result exactly when that fits a word |
| Arrays.GrowStopsIff | src/array.c:24-26 | from any capacity it stops exactly when one of its first 32 values is large enough |
| Arrays.GrowFromEmptyStopsIff | src/array.c:24-26 | from an empty array it stops exactly up to 2^31 items |
| Arrays.GrowFromThree | src/array.c:24-26 | from a capacity of 3 it stops for more |
| Arrays.RoomIffNoWrap | src/array.c:20-28 | in 32-bit arithmetic there is room for what is added exactly when the sum of the sizes does not wrap |
| TokenSets.TokenSetInit | src/parser_generator.c:59-62 | the empty set |
| TokenSets.TokenSetInsert | src/parser_generator.c:69-72 | adds exactly the token to the set the bits denote |
| TokenSets.TokenSetMerge | src/parser_generator.c:74-79 | becomes the union of the two sets |
| TokenSets.EqualTokenSets | src/parser_generator.c:86-93 | true exactly when the bits denote the same set |
| TokenSets.ElemsInjective | src/parser_generator.c:86-93 | different words denote different sets |
| TokenSets.CompareTokenSets | src/parser_generator.c:123-131 | compares the words lexicographically |
| TokenSets.CompareWordsTransitive | src/parser_generator.c:123-131 | that comparison is transitive |
| First.GatherFirst | src/parser_generator.c:240-261 | adds exactly the terminals found by the search that avoids the rules of the chain; stops although rules are recursive |
| First.SearchFindsFirst | src/parser_generator.c:240-261 | from an empty chain the search finds the whole of FIRST, the least fixpoint over left corners |
| First.PathIsSearched | src/parser_generator.c:246-256 | cutting the recursion on the chain loses nothing: a left-corner path without repetition is found |
| First.FirstExact | src/parser_generator.c:238-261 | FIRST holds exactly the tokens that begin a string derived from the symbol |
| Leads.LeadOrder | src/parser_generator.c:134-145 | the comparison of leads is a total order whose zero case is equality |
| Leads.EqualLeads | src/parser_generator.c:114-120 | true exactly for equal leads |
| Leads.EqualSetOfLeads | src/parser_generator.c:148-160 | true exactly for equal sequences of leads |
| Leads.SortLeads | src/parser_generator.c:320-320 | a sorted permutation |
| Leads.SortedIsUnique | src/parser_generator.c:320-320 | there is only one sorted permutation, whatever the sorting algorithm |
| Consolidation.ConsolidateLeads | src/parser_generator.c:318-340 | one lead for each core, strictly sorted, for the same LR(1) items as before |
| Consolidation.CanonicalIsUnique | src/parser_generator.c:148-160 | consolidated leads are equal exactly when they stand for the same items |
| Expansion.ComputeFollow | src/parser_generator.c:280-288 | the tokens that may follow the expanded symbol of a lead |
| Expansion.ExpandLead | src/parser_generator.c:274-311 | appends the missing expansions of one lead and nothing else |
| Expansion.GatherLeads | src/parser_generator.c:264-315 | every lead of the range and every lead appended has its expansions; only forced leads are appended; stops because appended leads are new |
| Expansion.ItemsOfClosure | src/parser_generator.c:264-315 | leads closed as whole token sets stand for exactly the least LR(1) closure at the level of single lookaheads |
| Automaton.CloseLeads | src/parser_generator.c:410-411 | closing and consolidating yields the canonical leads of the least closure of the kernel |
| Automaton.SteppedItems | src/parser_generator.c:397-401 | the collected leads with their dots moved stand for exactly the items advanced over the symbol |
| Exploration.CollectGroup | src/parser_generator.c:368-403 | one group: all leads with the same next symbol, marked as handled, moved or to be reduced |
| Exploration.FindState | src/parser_generator.c:413-418 | the first state with these leads, if there is one |
| Exploration.EnterState | src/parser_generator.c:413-431 | the state for the leads, appended only when no state has them |
| Exploration.ServeReductions | src/parser_generator.c:384-407 | a single complete lead gets its reduction; several are refused |
| Exploration.ServeTransition | src/parser_generator.c:409-451 | the group's symbol gets its one action, to the state that holds the closure of the advanced items |
| Exploration.GatherState | src/parser_generator.c:352-455 | the state gets its actions for all its leads; only new states are appended |
| Exploration.GatherStates | src/parser_generator.c:343-459 | every discovered state is explored; stops because item sets are finitely many and states differ |
| Exploration.InitialState | src/parser_generator.c:478-488 | the first state holds the closure of the root item before the end of file |
| Exploration.Generate | src/parser_generator.c:474-494 | a finished automaton, whose actions come in the order of the leads they serve, or a state with two complete items |
| Reached.StatesDiffer | src/parser_generator.c:413-431 | no two states have the same items |
| Reached.EveryStateReached | src/parser_generator.c:343-459 | every state is reached by a path from the first one |
| Reached.OneTransitionEach | src/parser_generator.c:409-451 | a state has a transition on exactly the symbols after its dots, and only one on each |
| Reached.SpelledOnce | src/parser_generator.c:409-451 | a string of symbols spells at most one path |
| Reached.PathsSpellViablePrefixes | src/parser_generator.c:343-459 | the strings spelled by paths are exactly those for which some LR(1) item is valid |
| Validity.StateHoldsValidItems | src/parser_generator.c:264-459 | the state reached over a string holds exactly the items valid for it |
| Validity.ItemsJustified | src/parser_generator.c:264-315 | every item of the state is valid for the string spelled |
| Validity.ValidIsHeld | src/parser_generator.c:264-315 | every valid item is in the state |
| Tables.AssignRuleId | src/parser_generator.c:462-471 | the same number for the same rule, different numbers for different rules, earlier numbers kept |
| Tables.EmitTokenAction | src/parser_generator.c:538-565 | one entry for each token of the action, in ascending order |
| Tables.EmitEntry | src/parser_generator.c:543-561 | the numbers printed for one token: shift, reduce by a length and rule number, or accept |
| Tables.EmitGotos | src/parser_generator.c:569-574 | one goto for each rule action |
| Tables.EmitTable | src/parser_generator.c:526-580 | the tables of the automaton: every entry justified by items, every item served by an entry, and the first action on a token printed first |
| Tables.MakeTables | src/parser_generator.c:474-580 | tables for the automaton of the grammar, or a state with two complete items |
| Conflicts.NoRepeatsIffDisjoint | src/parser_generator.c:538-565 | a token has one entry exactly when the actions of the state have disjoint token sets |
| Conflicts.ConflictFreeIffNoClash | src/parser_generator.c:405-407 | no token has two entries in a state exactly when no state calls for a shift and a reduction on the same token |
| Resolution.ReducesIffFirst | src/parser_generator.c:364-451 | where a state does, the parser reduces exactly when the complete item comes before the others in the order of the leads |
| Deciding.ConflictFreeIff | src/parser_generator.c:406-406 | the tables are conflict-free exactly when no string of symbols has a valid item that reduces and one that shifts on the same token |
| Deciding.AcceptedIff | src/parser_generator.c:407-407 | the generator accepts exactly the grammars in which no string of symbols has valid complete items of two variants |
| Deciding.GeneratedParserDecides | src/parser.c:18-105 | with the tables of a grammar without such a clash every input gets its derivation tree or an exact error |
| Deciding.GenerateAndParse | src/parser.c:18-105 | generator and parser in a row: accepted or not by that condition, then a derivation tree or an exact error |
| Witnesses.ChainIsAccepted | src/parser_generator.c:406-406 | a grammar that the generator does not refuse |
| Witnesses.ChainClashes | src/parser_generator.c:406-406 | although it calls for a reduction and a shift on the same token |
| Witnesses.ChainRunsForever | src/parser.c:29-100 | and the parser never finishes on one of its sentences |
| Witnesses.MakeChainTables | src/parser_generator.c:405-407 | the generator makes those tables |
| Witnesses.StricterThanLr1 | src/parser_generator.c:407-407 | accepted grammars without conflicts are LR(1), but an LR(1) grammar can have two complete items |
| Witnesses.RefuseTwins | src/parser_generator.c:407-407 | which the generator refuses |
| Parser.LookupAction | src/parser.c:33-35 | the first action for the token |
| Parser.LookupGoto | src/parser.c:82-87 | the first goto for the rule, or the state kept |
| Parser.PoppedTrees | src/parser.c:73-78 | what the popped entries hand to the reducer |
| Parser.PopAndPush | src/parser.c:63-89 | the stack after a reduction is that of the machine's step |
| Parser.Round | src/parser.c:29-100 | one pass of the loop is one step of the machine |
| Parser.Parse | src/parser.c:18-105 | a run that stops ends with a tree or an error, the final outcome of the machine |
| Parser.OutcomeIsExact | src/parser.c:18-105 | on conflict-free tables the outcome is the derivation of the input, or an exact error and there is no derivation |
| Machine.FinishesOnce | src/parser.c:29-100 | an input has at most one outcome |
| Safety.BackTo | src/parser.c:63-67 | the symbols before a dot lie on the stack, and the item with its dot moved back below them |
| Safety.ReduceKeeps | src/parser.c:63-89 | a reduction never pops the bottom entry, finds its goto, and keeps path, trees and text ranges |
| Safety.ShiftKeeps | src/parser.c:90-99 | a shift is never on the end of file and keeps the invariant |
| Safety.GotoFound | src/parser.c:82-87 | the goto after a reduction exists and leads over the reduced rule |
| Safety.AcceptIsSound | src/parser.c:58-61 | on acceptance the stack holds two entries and the upper one derives the body of the root |
| Soundness.StepKeeps | src/parser.c:29-100 | every step from a configuration with the invariant keeps it, accepts soundly, or reports an error |
| Soundness.ReachableIsGood | src/parser.c:29-100 | so does every run of any length |
| Soundness.AcceptedIsDerived | src/parser.c:57-61 | an accepted tree derives the body of the root and spells the whole input |
| Soundness.NeverCrashes | src/parser.c:63-89 | no run pops too much or meets a missing state |
| Completeness.OnlyAction | src/parser.c:33-35 | in a conflict-free table the first action found is the only one |
| Completeness.Drive | src/parser.c:29-100 | the machine rebuilds any derivation of the symbol after a dot and reads exactly its tokens |
| Completeness.DerivedIsAccepted | src/parser.c:29-100 | every derived input is accepted with its derivation |
| Completeness.AcceptsExactly | src/parser.c:29-100 | a tree is returned exactly when it is a derivation of the input |
| Completeness.Unambiguous | src/parser_generator.c:343-459 | a grammar with conflict-free tables has one derivation for each input |
| Errors.TopViable | src/parser.c:30-31 | the items of the top state are viable after the tokens on the stack |
| Errors.ActionViable | src/parser.c:39-52 | every token with an action continues what was read to a sentence |
| Errors.SentenceWith | src/parser.c:39-52 | what was read and a viable token begin a derived input |
| ExactErrors.NoErrorOnViable | src/parser.c:37-54 | no error on a token that continues to a sentence |
| ExactErrors.ErrorJustShifted | src/parser.c:37-54 | nothing is reduced on the offending token |
| ExactErrors.ErrorsAreExact | src/parser.c:37-54 | an error comes at the first token that cannot continue, and lists exactly the tokens that can |
| Bound.StepDrops | src/parser.c:29-100 | every step lowers the weight of unread tokens, stack and unit rank |
| Bound.StopsInTime | src/parser.c:29-100 | with ranked unit variants a run on n tokens takes at most (max + 1) * (2n + 2) steps |
| Units.RankIffAcyclic | src/parser.c:29-100 | such a ranking exists exactly when unit variants form no cycle |
| Cycles.RunsForeverIff | src/parser.c:29-100 | with any tables of the generator, a run never stops exactly when it comes upon a cycle of unit reductions |
| Cycles.NoCyclesStop | src/parser.c:29-100 | tables without such cycles stop on every input, after at most (states + 1) * (2n + 1) steps |
| Halting.ConflictFreeStops | src/parser.c:29-100 | on conflict-free tables every run stops, cycles or not |
| Lowering.Builder.AppendBlock | src/codegen.c:317-319 | a new empty block at the end; the insertion point stays |
| Lowering.Builder.PositionAtEnd | src/codegen.c:324-324 | insertion goes on at the end of the block |
| Lowering.Builder.Build | src/codegen.c:320-320 | the instruction goes to the end of the insertion block |
| Lowering.CodegenStmt | src/codegen.c:260-427 | blocks, insertion point and termination mark are those of the specification, for any nesting |
| Lowering.CodegenCompound | src/codegen.c:273-301 | the items in order; the mark of the inner context is passed on |
| Lowering.CodegenIf | src/codegen.c:303-352 | the if statement, its branches left for the exit unless terminated |
| Lowering.CodegenFor | src/codegen.c:354-398 | the loop, with its targets for break and continue |
| Lowering.CodegenJump | src/codegen.c:400-410 | a branch to the target, refused where there is none |
| Lowering.CodegenFunction | src/codegen.c:546-552 | the function's blocks, completed by a return without value, or the missing-return error; `Completion.VerdictIff` says which |
| Preservation.LowerTouches | src/codegen.c:260-427 | lowering extends the insertion block and appends blocks, and touches no other |
| Preservation.Simulate | src/codegen.c:260-427 | the blocks of a statement have the same events in the same order and end the same way as the statement, whatever is put behind them later |
| Preservation.SimulateLoop | src/codegen.c:361-395 | the same for any number of rounds of a loop, and for a loop that is cut off |
| Preservation.TerminatedNeverCompletes | src/codegen.c:297-298 | a statement that marks its context never completes normally |
| Functions.BodyMeaning | src/codegen.c:546-552 | every execution of the body of an accepted function is that of its blocks |
| Functions.FunctionPreserved | src/codegen.c:546-552 | the blocks return with a history and a value exactly when the body does |
| Functions.NeverStuck | src/codegen.c:327-348 | no run reaches the unreachable point or the open end of a block |
| Functions.NeverFallsOff | src/codegen.c:547-552 | a function that must return a value and passes the check never completes without |
| Functions.LowersIffPlaced | src/codegen.c:400-410 | the assertions on targets fail exactly for a break or continue outside of loops |
| Completion.CanIff | src/codegen.c:260-427 | the syntax of a statement tells exactly how it can end: by completing, breaking, continuing or returning |
| Completion.WronglyReportedIff | src/codegen.c:547-552 | a body is reported although it never completes exactly when it does not mark its context and its syntax lets it not complete |
| Completion.VerdictIff | src/codegen.c:546-552 | from the syntax: a misplaced jump is refused, a non-void function that does not mark its context is reported, all others are accepted |
| Completion.CompletingIsReported | src/codegen.c:547-552 | every body that can complete is reported |
| Completion.OnlyLoopsMislead | src/codegen.c:354-398 | a body reported without need has a loop without a condition that no break leaves |
| WellFormedBlocks.MarkIsTerminates | src/codegen.c:297-349 | the mark depends on the shape of the statement alone |
| WellFormedBlocks.WellFormedIffClean | src/codegen.c:315-395 | every block ends with its only terminator exactly when no code follows a terminated statement in its block and no loop body is terminated |
| Ladder.BinaryKids | src/grammar_rules.h:70-122 | a derivation with an operator of a level: the same level to its left, the level below to its right |
| Printing.ReducersNeverAbort | src/grammar_rules.c:264-419 | every derivation of the ladder reduces to a tree: no reducer meets a token it does not know |
| Precedence.ReadsDerivation | src/grammar_rules.h:6-126 | any derivation is read back from its tokens, whatever follows that does not continue it |
| Precedence.UniqueDerivation | src/grammar_rules.h:10-123 | a token string has at most one derivation from a rule of the ladder |
| Printing.ShowBuilds | src/grammar_rules.h:64-122 | the printed tokens have a derivation that reduces to the tree |
| Printing.ParenthesesNeeded | src/grammar_rules.h:64-122 | where parentheses are printed, the tokens without them have no derivation |
| Printing.RoundTrip | src/grammar_rules.h:64-126 | any spelling of the printed tree has exactly one derivation, and it reduces to the tree |
| Printing.ParsedBack | src/grammar_rules.h:64-126 | the parser with any conflict-free tables of the ladder accepts it and the reducers rebuild the tree |
| LadderTables.LadderIsAccepted | src/grammar_rules.h:10-126 | no string of symbols has valid complete items of two variants of the ladder, so the generator accepts it |
| LadderTables.LadderIsConflictFree | src/grammar_rules.h:10-126 | nor a valid item that reduces and one that shifts on the same token |
| Binding.BinaryTexts | src/grammar_rules.c:387-419 | an operator is reduced from the symbol with its text and from no other token |
| Binding.UnaryTexts | src/grammar_rules.c:264-287 | so is a prefix operator |
| Binding.WrittenIsShown | src/grammar_rules.h:64-126 | the ladder prints trees with parentheses where the tags of the rules ask for them |
| Binding.PrintsOnce | src/grammar_rules.h:64-126 | no tokens print two trees |
| Binding.TwoOperators | src/grammar_rules.h:70-122 | of two operators the one with the smaller tag binds tighter, and of two with the same tag the first |
| Binding.TwoOperatorsReduced | src/grammar_rules.h:70-122 | and so the only derivation is reduced |
| Binding.PrefixFirst | src/grammar_rules.h:38-62 | a prefix operator binds tighter than any operator between operands |
| Binding.PrefixTwice | src/grammar_rules.h:38-62 | prefix operators nest without parentheses |
| LadderTables.ReadExpression | src/grammar_rules.h:10-126 | generating, parsing and reducing finds a tree exactly for the derivable token strings, and gets every tree back that is printed by the tags |
| Reading.ReadTokens | src/lexer.c:133-326 | repeated calls of the lexer deliver the tokens, each over its own text |
| Reading.ReadText | src/parser.c:18-105 | lexer, generated parser and reducers in a row, from a text to its tree |
| LadderTables.LadderIsProductive | src/grammar_rules.h:10-126 | every rule of the ladder derives something |
| Printing.LadderIsProper | src/grammar_rules.h:10-126 | the ladder meets the generator's conditions on grammars |
| Lexing.Lexer.constructor | src/lexer.c:102-110 | before the first character, with the start-of-file token |
| Lexing.Lexer.Step | src/lexer.c:22-31 | one character further, with line number and line start right |
| Lexing.Lexer.Steps | src/lexer.c:33-37 | several characters further |
| Lexing.Lexer.ConsumeOnelineComment | src/lexer.c:40-50 | behind the newline that ends the comment |
| Lexing.Lexer.ConsumeMultilineComment | src/lexer.c:53-66 | behind the first closing mark |
| Lexing.Lexer.MatchKeyword | src/lexer.c:81-85 | true exactly when the text is the keyword |
| Lexing.Lexer.CheckKeywords | src/lexer.c:277-319 | the token that the token list names by the text, or an identifier when none is a keyword with that name |
| Lexing.Lexer.SkipWhitespace | src/lexer.c:142-158 | one character further, or a semicolon for a newline after a terminator; `Names.NewlineEnds` says which tokens are |
| Lexing.Lexer.TakeSymbol | src/lexer.c:162-235 | the longest symbol at the cursor, whose text is the name of its token |
| Lexing.Lexer.ConsumeString | src/lexer.c:237-259 | behind the closing quote, or an invalid token at the end of the text |
| Lexing.Lexer.Next | src/lexer.c:133-326 | the next token, where it begins and ends, with line and column; nothing changes after the end or an error |
| Names.EveryTokenHasName | src/lexer.h:11-19 | the tokens are numbered in the order of the token list, without gaps |
| Names.SymbolIsNamed | src/lexer.c:164-235 | a symbol found has the name of its token for its text, but for == alone, or it is a semicolon inserted for a newline |
| Names.SymbolIsRead | src/lexer.c:164-235 | a symbol standing in a text is read as its token exactly when nothing continues it |
| Names.ApartByName | src/lexer.c:164-235 | nothing does exactly when no longer symbol of the token list and no comment stands there |
| Names.WordMeans | src/lexer.c:277-319 | a word is the keyword token with its name, if there is one, and else an identifier |
| Names.WellSpelledIffNamed | src/lexer_tokens.h:2-101 | the lexer's tables agree with the token list on every text |
| Names.NewlineEnds | src/lexer.c:117-155 | a token before a newline comes back, with a semicolon exactly after identifiers, numbers, strings, break, continue, return, void, ++, --, ), ] and } |
| Names.InvalidIffOpen | src/lexer.c:237-259 | an error is found exactly where a quote opens a string that is not closed, and nothing of the text is left |
| Names.OpenCommentEnds | src/lexer.c:40-66 | a comment without its end reaches to the end of the text |
| Respelling.ReadBack | src/lexer.c:133-326 | tokens spelled with single spaces come back |
| Respelling.ReadBackWithGaps | src/lexer.c:133-326 | with any whitespace, comments and skipped characters between them, or nothing where that keeps them apart, they come back with one semicolon after each terminator that a newline follows |
| Respelling.NewlineRun | src/lexer.c:142-158 | in a run of whitespace the first newline becomes a semicolon exactly after a terminator, and no other one does |
| Respelling.LineSkipped | src/lexer.c:173-177 | a line comment is skipped with its newline, which inserts nothing |
| Respelling.BlockSkipped | src/lexer.c:178-182 | a block comment is skipped up to its first closing mark |
| Respelling.LongestSymbol | src/lexer.c:164-235 | no longer symbol stands at the cursor than the one taken |
| Respelling.ReadBackIffApart | src/lexer.c:162-322 | a token is read back where it stands exactly when what follows does not continue it |
| Respelling.EmptyIffStale | src/lexer.c:277-322 | a token is empty exactly for garbage after an identifier, with only blanks and comments between |
| Respelling.ReachesEndIff | src/lexer.c:133-326 | repeated calls come to the end or to an error exactly when that never happens, and then within length + 1 calls |
| Respelling.DollarIsStuck | src/lexer.c:277-322 | the text "a $" never comes to its end |

## Left out

- Files, memory mapping, linking, options and import paths (`src/main.c`, `src/options.c`): input and output only.
- Expression code generation, types, interfaces, slices and the meaning of LLVM instructions: an expression or the
  declaration of a variable is one abstract event, and a condition is decided by all events so far. That an
  expression may append blocks of its own is not modelled, nor are the other checks of LLVM's function verifier.
- Symbols that declarations put into contexts, and the parameters of functions: they emit nothing that the control flow depends on.
- Preservation.Simulate: the meaning of statements counts loop rounds and is cut off after a given number, in place of an inductive relation; all numbers are covered.
- Text output: the C text of the tables, messages and type descriptions; an error is its position and its list of tokens.
- Reducers of the whole grammar: the parser's reducers build the node of the variant, from which any reducer's result can be computed;
  only those of the ladder are modelled, on values, without the allocation of nodes and their locations.
- Rules and variants are numbered in place of their addresses, which the generator compares; the numbering is arbitrary.
- Arrays.Array.Grow: sizes are unbounded; `Arrays.GrowsRightIff`, `Arrays.GrowStopsIff` and `Arrays.RoomIffNoWrap` say what 32-bit words
  change. That the number of bytes, capacity times item size, can wrap as well is not modelled.
- Arrays.Array.Insert: the form without a value, which leaves the new item as it is, is only in `Arrays.Array.InsertMany`; so is the address returned.
- Arrays.Array.Add: as for insertion, the form without a value is only in `Arrays.Array.InsertMany`.
- Arrays.Array.AddMany: as for insertion, the form without values is only in `Arrays.Array.InsertMany`.
- Tables.EmitEntry: the reducer function and its tag are replaced by the variant they belong to; a variant without a reducer is not told apart.
- Lowering.CodegenStmt: an expression is one event in the block it is inserted in.
- Lowering.CodegenIf: the rejection of a condition that is not boolean belongs to the types, which are left out.
- Precedence.ReadsDerivation: the ladder has identifiers, parentheses and operators, without calls, casts, indexing, literals, assignments and the conditional operator.
- Precedence.UniqueDerivation: in the same part of the expression grammar.
- Printing.RoundTrip: in the same part of the expression grammar.
- Printing.ParsedBack: in the same part of the expression grammar.
- Leads.SortLeads: stands for the C library's `qsort`, by insertion of each lead into a sorted sequence; `Leads.SortedIsUnique` shows that the algorithm does not matter.
- Tables.MakeTables: the failed assertions of the generator become the result `ok == false`.
- Parser.Parse: takes the list of tokens in place of the lexer, which `Reading.ReadTokens` calls beforehand, and a bound after which the run is over; `Bound.StopsInTime` and
  `Halting.ConflictFreeStops` provide one, and `Cycles.RunsForeverIff` says when there is none.
- Lexing.Lexer.constructor: the text is followed by a character that continues neither words nor numbers, because the loops at `src/lexer.c:264` and
  `src/lexer.c:272` do not test for the end; characters beyond ASCII, which the source takes for whitespace where `char` is signed, are garbage here.
- Lexing.Lexer.Next: the checks of symbols and keywords, unrolled by macros in the source, are functions of the characters and a loop over a table;
  characters beyond ASCII as above.
- Disposal of memory, `type_equal` and the programs written in Low itself.
