/** The parser tables: what their entries mean in terms of the items of the states, and
    their emission, state by state and token by token, with rules numbered in the
    order in which they are first printed. The tables of a finished automaton have an
    entry for every item and no entry without one. */
module Tables {
  import opened Options
  import opened Arrays
  import opened TokenSets
  import opened Grammars
  import opened Items
  import opened Leads
  import opened Expansion
  import opened Automaton
  import opened Exploration

  /** The function called on a reduction: it builds the node of a variant. */
  datatype Reducer = NoReducer | Build(rule: nat, variant: nat)

  /** A negative `stateOrLength` reduces that many stack entries to `rule`, or
      accepts when `rule` is 0; otherwise it is the state to shift to. */
  datatype ParserAction = ParserAction(token: int, stateOrLength: int, reducer: Reducer, rule: nat)

  datatype ParserGoto = ParserGoto(rule: nat, state: nat)

  datatype ParserState = ParserState(actions: seq<ParserAction>, gotos: seq<ParserGoto>)

  // ----------------------------------------------------------------- rule identifiers

  /** The identifier of rule r, given the rules in the order of their numbering. */
  ghost predicate HasId(ids: seq<nat>, r: nat, id: int) {
    MAX_TOKENS <= id < MAX_TOKENS + |ids| && ids[id - MAX_TOKENS] == r
  }

  ghost predicate Distinct(ids: seq<nat>) {
    forall i, j :: 0 <= i < j < |ids| ==> ids[i] != ids[j]
  }

  lemma {:induction false} IdsAgree(ids: seq<nat>, r: nat, id: int, r': nat, id': int)
    requires Distinct(ids) && HasId(ids, r, id) && HasId(ids, r', id')
    ensures id == id' <==> r == r'
  {
  }

  method AssignRuleId(ruleIds: Array<nat>, rule: nat) returns (id: nat)
    requires ruleIds.Valid() && Distinct(ruleIds.Contents())
    modifies ruleIds, ruleIds.items
    ensures ruleIds.Valid() && (ruleIds.items == old(ruleIds.items) || fresh(ruleIds.items))
    ensures old(ruleIds.Contents()) <= ruleIds.Contents() && Distinct(ruleIds.Contents())
    ensures HasId(ruleIds.Contents(), rule, id)
  {
    var w := 0;
    while w < ruleIds.size
      invariant w <= ruleIds.size && rule !in ruleIds.Contents()[..w]
    {
      if ruleIds.Get(w) == rule {
        return w + MAX_TOKENS;
      }
      assert ruleIds.Contents()[..w + 1] == ruleIds.Contents()[..w] + [ruleIds.Contents()[w]];
      w := w + 1;
    }
    assert ruleIds.Contents()[..w] == ruleIds.Contents();
    ruleIds.Add(rule);
    return ruleIds.size + MAX_TOKENS - 1;
  }

  // ---------------------------------------------------------------- meaning of tables

  /** Entry a shifts a token over a transition of the automaton. */
  ghost predicate ShiftEntry(g: Grammar, sets: seq<set<Item>>, s: nat, a: ParserAction)
    requires s < |sets|
  {
    && 0 <= a.stateOrLength && 0 < a.token < MAX_TOKENS && a.rule == 0 && a.reducer == NoReducer
    && Transition(g, sets, sets[s], T(a.token), a.stateOrLength)
  }

  /** Entry a reduces, or accepts, by a complete item with the token as lookahead. */
  ghost predicate ReduceEntry(g: Grammar, sets: seq<set<Item>>, ids: seq<nat>, s: nat, a: ParserAction, r: nat, v: nat)
    requires s < |sets|
  {
    && IsVariant(g, r, v) && a.stateOrLength == -|Rhs(g, r, v)| && 0 <= a.token
    && Item(r, v, |Rhs(g, r, v)|, a.token) in sets[s]
    && (if r == g.root then a.rule == 0 && a.reducer == NoReducer
        else HasId(ids, r, a.rule) && a.reducer == Build(r, v))
  }

  ghost predicate GotoEntry(g: Grammar, sets: seq<set<Item>>, ids: seq<nat>, s: nat, e: ParserGoto, r: nat)
    requires s < |sets|
  {
    HasId(ids, r, e.rule) && Transition(g, sets, sets[s], N(r), e.state)
  }

  /** Every entry is justified by the items of the state. */
  ghost predicate StateSound(g: Grammar, sets: seq<set<Item>>, ids: seq<nat>, s: nat, ps: ParserState)
    requires s < |sets|
  {
    && (forall a :: a in ps.actions ==>
          ShiftEntry(g, sets, s, a) || exists r, v :: ReduceEntry(g, sets, ids, s, a, r, v))
    && (forall e :: e in ps.gotos ==> exists r :: GotoEntry(g, sets, ids, s, e, r))
  }

  /** The table has an entry for item `it` of state s. */
  ghost predicate Served(g: Grammar, sets: seq<set<Item>>, ids: seq<nat>, s: nat, ps: ParserState, it: Item)
    requires s < |sets|
  {
    match Next(g, it)
    case Some(T(t)) => exists a :: a in ps.actions && a.token == t && ShiftEntry(g, sets, s, a)
    case Some(N(r)) => exists e :: e in ps.gotos && GotoEntry(g, sets, ids, s, e, r)
    case None => it.look >= 0 ==>
      exists a :: a in ps.actions && a.token == it.look && ReduceEntry(g, sets, ids, s, a, it.rule, it.variant)
  }

  ghost predicate StateFor(g: Grammar, sets: seq<set<Item>>, ids: seq<nat>, s: nat, ps: ParserState)
    requires s < |sets|
  {
    StateSound(g, sets, ids, s, ps) && forall it :: it in sets[s] ==> Served(g, sets, ids, s, ps, it)
  }

  ghost predicate AllItemsOk(g: Grammar, s: set<Item>) {
    forall it :: it in s ==> ItemOk(g, it)
  }

  /** The table of the canonical LR(1) automaton with these item sets. */
  ghost predicate TableFor(g: Grammar, sets: seq<set<Item>>, ids: seq<nat>, table: seq<ParserState>) {
    && |table| == |sets| > 0 && Distinct(ids) && IsClosure(g, StartKernel(g), sets[0])
    && (forall s {:trigger StateFor(g, sets, ids, s, table[s])} ::
          0 <= s < |sets| ==> AllItemsOk(g, sets[s]) && StateFor(g, sets, ids, s, table[s]))
  }

  // ------------------------------------------------------------------------ emission

  /** The tokens of entries, in their order; an error message lists these. */
  function Expected(actions: seq<ParserAction>): seq<int> {
    seq(|actions|, i requires 0 <= i < |actions| => actions[i].token)
  }

  /** The tokens below t of a set, in ascending order. */
  function TokensBelow(s: Bits, t: nat): seq<int>
    requires t <= CAPACITY
  {
    if t == 0 then [] else TokensBelow(s, t - 1) + if Contains(s, t - 1) then [t - 1] else []
  }

  /** The tokens of all actions of a state, action by action. */
  function ActionTokens(acts: seq<TokenAction>): seq<int> {
    if acts == [] then [] else ActionTokens(acts[..|acts| - 1]) + TokensBelow(acts[|acts| - 1].tokens, CAPACITY)
  }

  /** Entry e is one that action a calls for. */
  ghost predicate EntryFor(g: Grammar, ids: seq<nat>, a: TokenAction, e: ParserAction) {
    e.token in Elems(a.tokens) &&
    match a
    case Shift(_, j) => e == ParserAction(e.token, j, NoReducer, 0)
    case Reduce(_, r, v) =>
      && IsVariant(g, r, v) && e.stateOrLength == -|Rhs(g, r, v)|
      && (if r == g.root then e.rule == 0 && e.reducer == NoReducer
          else HasId(ids, r, e.rule) && e.reducer == Build(r, v))
  }

  ghost predicate HasEntry(g: Grammar, ids: seq<nat>, a: TokenAction, out: seq<ParserAction>, t: int) {
    exists e :: e in out && e.token == t && EntryFor(g, ids, a, e)
  }

  /** The entries added to `was` are those of action a for its tokens below t. */
  ghost predicate EmittedBelow(g: Grammar, ids: seq<nat>, a: TokenAction, was: seq<ParserAction>,
        out: seq<ParserAction>, t: int) {
    && was <= out && (forall e :: e in out[|was|..] ==> EntryFor(g, ids, a, e))
    && (forall u :: 0 <= u < t && u in Elems(a.tokens) ==> HasEntry(g, ids, a, out, u))
  }

  /** The entries are those of the given actions. */
  ghost predicate Emitted(g: Grammar, ids: seq<nat>, acts: seq<TokenAction>, out: seq<ParserAction>) {
    && (forall e :: e in out ==> exists a :: a in acts && EntryFor(g, ids, a, e))
    && (forall a, t {:trigger HasEntry(g, ids, a, out, t)} ::
          a in acts && t in Elems(a.tokens) ==> HasEntry(g, ids, a, out, t))
  }

  /** Entry i, the first one on its token, comes from the first action on that token. */
  ghost predicate FromFirst(g: Grammar, ids: seq<nat>, acts: seq<TokenAction>, out: seq<ParserAction>, i: nat)
    requires i < |out|
  {
    exists k :: 0 <= k < |acts| && EntryFor(g, ids, acts[k], out[i]) && NoneOn(acts, k, out[i].token)
  }

  ghost predicate NoneOn(acts: seq<TokenAction>, k: nat, t: int)
    requires k <= |acts|
  {
    forall l :: 0 <= l < k ==> t !in Elems(acts[l].tokens)
  }

  ghost predicate FirstOn(out: seq<ParserAction>, i: nat)
    requires i < |out|
  {
    forall j :: 0 <= j < i ==> out[j].token != out[i].token
  }

  /** Where a token has several entries, the first action on it wins. */
  ghost predicate FirstWins(g: Grammar, ids: seq<nat>, acts: seq<TokenAction>, out: seq<ParserAction>) {
    forall i :: 0 <= i < |out| && FirstOn(out, i) ==> FromFirst(g, ids, acts, out, i)
  }

  ghost predicate EmittedGotos(ids: seq<nat>, acts: seq<RuleAction>, out: seq<ParserGoto>) {
    && |out| == |acts|
    && forall k :: 0 <= k < |acts| ==> HasId(ids, acts[k].rule, out[k].rule) && out[k].state == acts[k].state
  }

  lemma {:induction false} EntryMonotone(g: Grammar, ids: seq<nat>, ids': seq<nat>, a: TokenAction, e: ParserAction)
    requires EntryFor(g, ids, a, e) && ids <= ids'
    ensures EntryFor(g, ids', a, e)
  {
  }

  lemma {:induction false} HasEntryMonotone(g: Grammar, ids: seq<nat>, ids': seq<nat>, a: TokenAction,
          out: seq<ParserAction>, out': seq<ParserAction>, t: int)
    requires HasEntry(g, ids, a, out, t) && ids <= ids' && out <= out'
    ensures HasEntry(g, ids', a, out', t)
  {
    var e :| e in out && e.token == t && EntryFor(g, ids, a, e);
    EntryMonotone(g, ids, ids', a, e);
    assert e in out';
  }

  lemma {:induction false} EmitOne(g: Grammar, ids: seq<nat>, ids': seq<nat>, a: TokenAction, was: seq<ParserAction>,
          out: seq<ParserAction>, e: ParserAction)
    requires EmittedBelow(g, ids, a, was, out, e.token) && ids <= ids' && EntryFor(g, ids', a, e)
    ensures EmittedBelow(g, ids', a, was, out + [e], e.token + 1)
  {
    var out' := out + [e];
    assert out'[|was|..] == out[|was|..] + [e];
    forall x | x in out[|was|..]
      ensures EntryFor(g, ids', a, x)
    {
      EntryMonotone(g, ids, ids', a, x);
    }
    forall u | 0 <= u < e.token && u in Elems(a.tokens)
      ensures HasEntry(g, ids', a, out', u)
    {
      HasEntryMonotone(g, ids, ids', a, out, out', u);
    }
    assert e in out';
  }

  lemma {:induction false} EmittedEntry(g: Grammar, ids: seq<nat>, ids': seq<nat>, acts: seq<TokenAction>,
          was: seq<ParserAction>, e: ParserAction)
    requires Emitted(g, ids, acts, was) && ids <= ids' && e in was
    ensures exists b :: b in acts && EntryFor(g, ids', b, e)
  {
    var b :| b in acts && EntryFor(g, ids, b, e);
    EntryMonotone(g, ids, ids', b, e);
  }

  lemma {:induction false} EmitAction(g: Grammar, ids: seq<nat>, ids': seq<nat>, acts: seq<TokenAction>,
          a: TokenAction, was: seq<ParserAction>, out: seq<ParserAction>)
    requires Emitted(g, ids, acts, was) && ids <= ids' && EmittedBelow(g, ids', a, was, out, CAPACITY)
    ensures Emitted(g, ids', acts + [a], out)
  {
    assert a in acts + [a];
    assert forall b :: b in acts ==> b in acts + [a];
    forall e | e in out
      ensures exists b :: b in acts + [a] && EntryFor(g, ids', b, e)
    {
      assert out == was + out[|was|..];
      if e in was {
        EmittedEntry(g, ids, ids', acts, was, e);
      }
    }
    forall b, t | b in acts + [a] && t in Elems(b.tokens)
      ensures HasEntry(g, ids', b, out, t)
    {
      if b in acts {
        HasEntryMonotone(g, ids, ids', b, was, out, t);
      }
    }
  }

  lemma {:induction false} FromFirstMonotone(g: Grammar, ids: seq<nat>, ids': seq<nat>, acts: seq<TokenAction>,
          acts': seq<TokenAction>, out: seq<ParserAction>, out': seq<ParserAction>, i: nat)
    requires i < |out| && FromFirst(g, ids, acts, out, i) && ids <= ids' && acts <= acts' && out <= out'
    ensures FromFirst(g, ids', acts', out', i)
  {
    var k :| 0 <= k < |acts| && EntryFor(g, ids, acts[k], out[i]) && NoneOn(acts, k, out[i].token);
    EntryMonotone(g, ids, ids', acts[k], out[i]);
    assert NoneOn(acts', k, out[i].token);
  }

  /** A new entry that is the first on its token is the first action's. */
  lemma {:induction false} NewIsFromFirst(g: Grammar, ids: seq<nat>, ids': seq<nat>, acts: seq<TokenAction>,
          a: TokenAction, was: seq<ParserAction>, out: seq<ParserAction>, i: nat)
    requires Emitted(g, ids, acts, was) && EmittedBelow(g, ids', a, was, out, CAPACITY)
    requires |was| <= i < |out| && FirstOn(out, i)
    ensures FromFirst(g, ids', acts + [a], out, i)
  {
    var n, t := |acts|, out[i].token;
    forall e | e in was
      ensures e.token != t
    {
      var j :| 0 <= j < |was| && was[j] == e;
      assert out[j] == was[j];
    }
    forall l | 0 <= l < n
      ensures t !in Elems(acts[l].tokens)
    {
      assert !HasEntry(g, ids, acts[l], was, t);
    }
    assert out[i] in out[|was|..];
    assert (acts + [a])[n] == a && NoneOn(acts + [a], n, t);
  }

  lemma {:induction false} FirstWinsNext(g: Grammar, ids: seq<nat>, ids': seq<nat>, acts: seq<TokenAction>,
          a: TokenAction, was: seq<ParserAction>, out: seq<ParserAction>)
    requires Emitted(g, ids, acts, was) && FirstWins(g, ids, acts, was) && ids <= ids'
    requires EmittedBelow(g, ids', a, was, out, CAPACITY)
    ensures FirstWins(g, ids', acts + [a], out)
  {
    hide Emitted, FromFirst;
    forall i | 0 <= i < |out| && FirstOn(out, i)
      ensures FromFirst(g, ids', acts + [a], out, i)
    {
      if i < |was| {
        assert FirstOn(was, i);
        FromFirstMonotone(g, ids, ids', acts, acts + [a], was, out, i);
      } else {
        NewIsFromFirst(g, ids, ids', acts, a, was, out, i);
      }
    }
  }

  lemma {:induction false} NoTokensYet(s: Bits, was: seq<ParserAction>)
    ensures Expected(was) == Expected(was) + TokensBelow(s, 0)
  {
  }

  lemma {:induction false} ExpectedNext(s: Bits, t: nat, was: seq<ParserAction>, out: seq<ParserAction>,
          e: ParserAction)
    requires t < CAPACITY && Contains(s, t) && e.token == t && Expected(out) == Expected(was) + TokensBelow(s, t)
    ensures Expected(out + [e]) == Expected(was) + TokensBelow(s, t + 1)
  {
    assert Expected(out + [e]) == Expected(out) + [t];
  }

  lemma {:induction false} ExpectedSame(s: Bits, t: nat)
    requires t < CAPACITY && !Contains(s, t)
    ensures TokensBelow(s, t + 1) == TokensBelow(s, t)
  {
  }

  /** Appends the entries of one action, one for each of its tokens. */
  method EmitTokenAction(g: Grammar, ruleIds: Array<nat>, a: TokenAction, was: seq<ParserAction>)
    returns (out: seq<ParserAction>)
    requires ruleIds.Valid() && Distinct(ruleIds.Contents())
    requires a.Reduce? ==> IsVariant(g, a.rule, a.variant)
    modifies ruleIds, ruleIds.items
    ensures ruleIds.Valid() && (ruleIds.items == old(ruleIds.items) || fresh(ruleIds.items))
    ensures old(ruleIds.Contents()) <= ruleIds.Contents() && Distinct(ruleIds.Contents())
    ensures EmittedBelow(g, ruleIds.Contents(), a, was, out, CAPACITY)
    ensures Expected(out) == Expected(was) + TokensBelow(a.tokens, CAPACITY)
  {
    hide Expected, TokensBelow, EntryFor;
    out := was;
    var t := 0;
    NoTokensYet(a.tokens, was);
    while t < CAPACITY
      invariant 0 <= t <= CAPACITY
      invariant ruleIds.Valid() && (ruleIds.items == old(ruleIds.items) || fresh(ruleIds.items))
      invariant old(ruleIds.Contents()) <= ruleIds.Contents() && Distinct(ruleIds.Contents())
      invariant EmittedBelow(g, ruleIds.Contents(), a, was, out, t)
      invariant Expected(out) == Expected(was) + TokensBelow(a.tokens, t)
    {
      if Contains(a.tokens, t) {
        ghost var ids := ruleIds.Contents();
        var e := EmitEntry(g, ruleIds, a, t);
        ExpectedNext(a.tokens, t, was, out, e);
        EmitOne(g, ids, ruleIds.Contents(), a, was, out, e);
        out := out + [e];
      } else {
        ExpectedSame(a.tokens, t);
      }
      t := t + 1;
    }
  }

  method EmitEntry(g: Grammar, ruleIds: Array<nat>, a: TokenAction, t: int) returns (e: ParserAction)
    requires ruleIds.Valid() && Distinct(ruleIds.Contents()) && t in Elems(a.tokens)
    requires a.Reduce? ==> IsVariant(g, a.rule, a.variant)
    modifies ruleIds, ruleIds.items
    ensures ruleIds.Valid() && (ruleIds.items == old(ruleIds.items) || fresh(ruleIds.items))
    ensures old(ruleIds.Contents()) <= ruleIds.Contents() && Distinct(ruleIds.Contents())
    ensures e.token == t && EntryFor(g, ruleIds.Contents(), a, e)
  {
    match a {
      case Reduce(_, rule, variant) =>
        var length := |Rhs(g, rule, variant)|;
        if rule == g.root {
          e := ParserAction(t, -length, NoReducer, 0);
        } else {
          var id := AssignRuleId(ruleIds, rule);
          e := ParserAction(t, -length, Build(rule, variant), id);
        }
      case Shift(_, state) =>
        e := ParserAction(t, state, NoReducer, 0);
    }
  }

  ghost predicate VariantsOk(g: Grammar, acts: seq<TokenAction>) {
    forall a :: a in acts && a.Reduce? ==> IsVariant(g, a.rule, a.variant)
  }

  lemma {:induction false} NothingYet(g: Grammar, ids: seq<nat>)
    ensures FirstWins(g, ids, [], [])
  {
  }

  method EmitActions(g: Grammar, ruleIds: Array<nat>, acts: seq<TokenAction>) returns (out: seq<ParserAction>)
    requires ruleIds.Valid() && Distinct(ruleIds.Contents()) && VariantsOk(g, acts)
    modifies ruleIds, ruleIds.items
    ensures ruleIds.Valid() && (ruleIds.items == old(ruleIds.items) || fresh(ruleIds.items))
    ensures old(ruleIds.Contents()) <= ruleIds.Contents() && Distinct(ruleIds.Contents())
    ensures Emitted(g, ruleIds.Contents(), acts, out) && Expected(out) == ActionTokens(acts)
    ensures FirstWins(g, ruleIds.Contents(), acts, out)
  {
    hide FirstWins, EmittedBelow;
    out := [];
    NothingYet(g, ruleIds.Contents());
    for n := 0 to |acts|
      invariant ruleIds.Valid() && (ruleIds.items == old(ruleIds.items) || fresh(ruleIds.items))
      invariant old(ruleIds.Contents()) <= ruleIds.Contents() && Distinct(ruleIds.Contents())
      invariant Emitted(g, ruleIds.Contents(), acts[..n], out) && Expected(out) == ActionTokens(acts[..n])
      invariant FirstWins(g, ruleIds.Contents(), acts[..n], out)
    {
      ghost var ids := ruleIds.Contents();
      var more := EmitTokenAction(g, ruleIds, acts[n], out);
      EmitAction(g, ids, ruleIds.Contents(), acts[..n], acts[n], out, more);
      FirstWinsNext(g, ids, ruleIds.Contents(), acts[..n], acts[n], out, more);
      assert acts[..n + 1] == acts[..n] + [acts[n]];
      out := more;
    }
    assert acts[..|acts|] == acts;
  }

  method EmitGotos(ruleIds: Array<nat>, acts: seq<RuleAction>) returns (out: seq<ParserGoto>)
    requires ruleIds.Valid() && Distinct(ruleIds.Contents())
    modifies ruleIds, ruleIds.items
    ensures ruleIds.Valid() && (ruleIds.items == old(ruleIds.items) || fresh(ruleIds.items))
    ensures old(ruleIds.Contents()) <= ruleIds.Contents() && Distinct(ruleIds.Contents())
    ensures EmittedGotos(ruleIds.Contents(), acts, out)
  {
    out := [];
    for n := 0 to |acts|
      invariant ruleIds.Valid() && (ruleIds.items == old(ruleIds.items) || fresh(ruleIds.items))
      invariant old(ruleIds.Contents()) <= ruleIds.Contents() && Distinct(ruleIds.Contents())
      invariant EmittedGotos(ruleIds.Contents(), acts[..n], out)
    {
      var id := AssignRuleId(ruleIds, acts[n].rule);
      out := out + [ParserGoto(id, acts[n].state)];
    }
    assert acts[..|acts|] == acts;
  }

  // ------------------------------------------------------------------- whole tables

  ghost predicate EmittedState(g: Grammar, ids: seq<nat>, st: State, ps: ParserState) {
    && Emitted(g, ids, st.tokenActions, ps.actions) && EmittedGotos(ids, st.ruleActions, ps.gotos)
    && Expected(ps.actions) == ActionTokens(st.tokenActions) && FirstWins(g, ids, st.tokenActions, ps.actions)
  }

  lemma {:induction false} EmittedStateMonotone(g: Grammar, ids: seq<nat>, ids': seq<nat>, st: State, ps: ParserState)
    requires EmittedState(g, ids, st, ps) && ids <= ids'
    ensures EmittedState(g, ids', st, ps)
  {
    forall e | e in ps.actions
      ensures exists b :: b in st.tokenActions && EntryFor(g, ids', b, e)
    {
      EmittedEntry(g, ids, ids', st.tokenActions, ps.actions, e);
    }
    forall b, t | b in st.tokenActions && t in Elems(b.tokens)
      ensures HasEntry(g, ids', b, ps.actions, t)
    {
      HasEntryMonotone(g, ids, ids', b, ps.actions, ps.actions, t);
    }
    forall i | 0 <= i < |ps.actions| && FirstOn(ps.actions, i)
      ensures FromFirst(g, ids', st.tokenActions, ps.actions, i)
    {
      FromFirstMonotone(g, ids, ids', st.tokenActions, st.tokenActions, ps.actions, ps.actions, i);
    }
  }

  lemma {:induction false} ReduceEntryFor(g: Grammar, ss: seq<State>, ids: seq<nat>, s: nat, lead: Lead,
          e: ParserAction)
    requires s < |ss| && lead in ss[s].leads && LeadOk(g, lead) && LeadSymbol(g, lead).None?
    requires EntryFor(g, ids, Reduce(lead.terminals, lead.rule, lead.variant), e)
    ensures ReduceEntry(g, Sets(ss), ids, s, e, lead.rule, lead.variant)
  {
    assert ItemAt(lead, e.token) in ItemsOf(ss[s].leads);
  }

  lemma {:induction false} ShiftEntryFor(g: Grammar, ss: seq<State>, ids: seq<nat>, s: nat, a: TokenAction,
          e: ParserAction)
    requires s < |ss| && a.Shift? && ActionSound(g, Sets(ss), ss[s].leads, a) && EntryFor(g, ids, a, e)
    ensures ShiftEntry(g, Sets(ss), s, e)
  {
    var t: Token :| Elems(a.tokens) == {t} && Transition(g, Sets(ss), ItemsOf(ss[s].leads), T(t), a.state);
    assert e.token in {t};
  }

  lemma {:induction false} EmittedIsSound(g: Grammar, ss: seq<State>, ids: seq<nat>, s: nat, ps: ParserState)
    requires s < |ss| && AllOk(g, ss[s].leads) && Done(g, Sets(ss), ss[s]) && EmittedState(g, ids, ss[s], ps)
    ensures StateSound(g, Sets(ss), ids, s, ps)
  {
    hide OnlySeen, NoDuplicates;
    forall e | e in ps.actions
      ensures ShiftEntry(g, Sets(ss), s, e) || exists r, v :: ReduceEntry(g, Sets(ss), ids, s, e, r, v)
    {
      var a :| a in ss[s].tokenActions && EntryFor(g, ids, a, e);
      assert ActionSound(g, Sets(ss), ss[s].leads, a);
      if a.Shift? {
        ShiftEntryFor(g, ss, ids, s, a, e);
      } else {
        var lead :| lead in ss[s].leads && LeadSymbol(g, lead) == None
          && lead.rule == a.rule && lead.variant == a.variant && lead.terminals == a.tokens;
        ReduceEntryFor(g, ss, ids, s, lead, e);
      }
    }
    forall e | e in ps.gotos
      ensures exists r :: GotoEntry(g, Sets(ss), ids, s, e, r)
    {
      var k :| 0 <= k < |ps.gotos| && ps.gotos[k] == e;
      assert ss[s].ruleActions[k] in ss[s].ruleActions;
      assert GotoEntry(g, Sets(ss), ids, s, e, ss[s].ruleActions[k].rule);
    }
  }

  lemma {:induction false} ReductionServed(g: Grammar, ss: seq<State>, ids: seq<nat>, s: nat, ps: ParserState,
          lead: Lead, look: int)
    requires s < |ss| && lead in ss[s].leads && LeadOk(g, lead) && LeadSymbol(g, lead).None?
    requires look >= 0 ==> HasEntry(g, ids, Reduce(lead.terminals, lead.rule, lead.variant), ps.actions, look)
    ensures Served(g, Sets(ss), ids, s, ps, ItemAt(lead, look))
  {
    NextOfItemAt(g, lead, look);
    if look >= 0 {
      var e :| e in ps.actions && e.token == look
        && EntryFor(g, ids, Reduce(lead.terminals, lead.rule, lead.variant), e);
      ReduceEntryFor(g, ss, ids, s, lead, e);
    }
  }

  lemma {:induction false} ShiftServed(g: Grammar, ss: seq<State>, ids: seq<nat>, s: nat, ps: ParserState,
          a: TokenAction, t: Token, it: Item)
    requires s < |ss| && a in ss[s].tokenActions && a.Shift? && Elems(a.tokens) == {t} && Next(g, it) == Some(T(t))
    requires ActionSound(g, Sets(ss), ss[s].leads, a) && Emitted(g, ids, ss[s].tokenActions, ps.actions)
    ensures Served(g, Sets(ss), ids, s, ps, it)
  {
    assert HasEntry(g, ids, a, ps.actions, t);
    var e :| e in ps.actions && e.token == t && EntryFor(g, ids, a, e);
    ShiftEntryFor(g, ss, ids, s, a, e);
  }

  lemma {:induction false} GotoServed(g: Grammar, ss: seq<State>, ids: seq<nat>, s: nat, ps: ParserState,
          b: RuleAction, it: Item)
    requires s < |ss| && b in ss[s].ruleActions && Next(g, it) == Some(N(b.rule))
    requires Transition(g, Sets(ss), Sets(ss)[s], N(b.rule), b.state)
    requires EmittedGotos(ids, ss[s].ruleActions, ps.gotos)
    ensures Served(g, Sets(ss), ids, s, ps, it)
  {
    var k :| 0 <= k < |ss[s].ruleActions| && ss[s].ruleActions[k] == b;
    assert ps.gotos[k] in ps.gotos && GotoEntry(g, Sets(ss), ids, s, ps.gotos[k], b.rule);
  }

  lemma {:induction false} EmittedServes(g: Grammar, ss: seq<State>, ids: seq<nat>, s: nat, ps: ParserState, it: Item)
    requires s < |ss| && AllOk(g, ss[s].leads) && Done(g, Sets(ss), ss[s]) && EmittedState(g, ids, ss[s], ps)
    requires it in Sets(ss)[s]
    ensures Served(g, Sets(ss), ids, s, ps, it)
  {
    hide EmittedGotos, OnlySeen, NoDuplicates;
    var st := ss[s];
    var lead, look :| lead in st.leads && look in Looks(lead) && it == ItemAt(lead, look);
    NextOfItemAt(g, lead, look);
    var m :| 0 <= m < |st.leads| && st.leads[m] == lead;
    assert LeadServed(g, st, m);
    match LeadSymbol(g, lead) {
      case None =>
        assert look >= 0 ==> look in Elems(lead.terminals);
        ReductionServed(g, ss, ids, s, ps, lead, look);
      case Some(T(t)) =>
        var a :| a in st.tokenActions && a.Shift? && Elems(a.tokens) == {t};
        ShiftServed(g, ss, ids, s, ps, a, t, it);
      case Some(N(r)) =>
        var b :| b in st.ruleActions && b.rule == r;
        GotoServed(g, ss, ids, s, ps, b, it);
    }
  }

  lemma {:induction false} EmittedTable(g: Grammar, ss: seq<State>, ids: seq<nat>, table: seq<ParserState>)
    requires Finished(g, ss) && |table| == |ss| && Distinct(ids)
    requires forall s :: 0 <= s < |ss| ==> EmittedState(g, ids, ss[s], table[s])
    ensures TableFor(g, Sets(ss), ids, table)
  {
    forall s | 0 <= s < |ss|
      ensures AllItemsOk(g, Sets(ss)[s]) && StateFor(g, Sets(ss), ids, s, table[s])
    {
      EmittedIsSound(g, ss, ids, s, table[s]);
      forall it | it in Sets(ss)[s]
        ensures Served(g, Sets(ss), ids, s, table[s], it) && ItemOk(g, it)
      {
        EmittedServes(g, ss, ids, s, table[s], it);
        var lead, look :| lead in ss[s].leads && look in Looks(lead) && it == ItemAt(lead, look);
        assert LeadOk(g, lead);
      }
    }
  }

  lemma {:induction false} VariantsOfDone(g: Grammar, ss: seq<State>, s: nat)
    requires s < |ss| && AllOk(g, ss[s].leads) && Done(g, Sets(ss), ss[s])
    ensures VariantsOk(g, ss[s].tokenActions)
  {
    forall a | a in ss[s].tokenActions && a.Reduce?
      ensures IsVariant(g, a.rule, a.variant)
    {
      assert ActionSound(g, Sets(ss), ss[s].leads, a);
    }
  }

  ghost predicate EmittedStates(g: Grammar, ids: seq<nat>, ss: seq<State>, table: seq<ParserState>) {
    |table| <= |ss| && forall s :: 0 <= s < |table| ==> EmittedState(g, ids, ss[s], table[s])
  }

  lemma {:induction false} EmitNext(g: Grammar, ids: seq<nat>, ids': seq<nat>, ss: seq<State>,
          table: seq<ParserState>, ps: ParserState)
    requires EmittedStates(g, ids, ss, table) && ids <= ids' && |table| < |ss|
    requires EmittedState(g, ids', ss[|table|], ps)
    ensures EmittedStates(g, ids', ss, table + [ps])
  {
    forall s | 0 <= s < |table|
      ensures EmittedState(g, ids', ss[s], table[s])
    {
      EmittedStateMonotone(g, ids, ids', ss[s], table[s]);
    }
  }

  method EmitState(g: Grammar, ruleIds: Array<nat>, st: State) returns (ps: ParserState)
    requires ruleIds.Valid() && Distinct(ruleIds.Contents()) && VariantsOk(g, st.tokenActions)
    modifies ruleIds, ruleIds.items
    ensures ruleIds.Valid() && (ruleIds.items == old(ruleIds.items) || fresh(ruleIds.items))
    ensures old(ruleIds.Contents()) <= ruleIds.Contents() && Distinct(ruleIds.Contents())
    ensures EmittedState(g, ruleIds.Contents(), st, ps)
  {
    var actions := EmitActions(g, ruleIds, st.tokenActions);
    ghost var ids := ruleIds.Contents();
    var gotos := EmitGotos(ruleIds, st.ruleActions);
    ps := ParserState(actions, gotos);
    assert EmittedState(g, ids, st.(ruleActions := []), ParserState(actions, []));
    EmittedStateMonotone(g, ids, ruleIds.Contents(), st.(ruleActions := []), ParserState(actions, []));
  }

  /** The entries of each state are on the tokens of its actions, in their order. */
  ghost predicate TokensAsActions(ss: seq<State>, table: seq<ParserState>) {
    |table| == |ss| && forall s :: 0 <= s < |ss| ==> Expected(table[s].actions) == ActionTokens(ss[s].tokenActions)
  }

  ghost predicate FirstActionsWin(g: Grammar, ids: seq<nat>, ss: seq<State>, table: seq<ParserState>) {
    |table| == |ss| && forall s :: 0 <= s < |ss| ==> FirstWins(g, ids, ss[s].tokenActions, table[s].actions)
  }

  /** Prints the states of a finished automaton as parser tables. */
  method EmitTable(g: Grammar, ss: seq<State>) returns (table: seq<ParserState>, ids: seq<nat>)
    requires Finished(g, ss)
    ensures TableFor(g, Sets(ss), ids, table) && TokensAsActions(ss, table) && FirstActionsWin(g, ids, ss, table)
  {
    var ruleIds := new Array<nat>();
    table := [];
    for s := 0 to |ss|
      invariant ruleIds.Valid() && fresh(ruleIds.items) && Distinct(ruleIds.Contents())
      invariant |table| == s && EmittedStates(g, ruleIds.Contents(), ss, table)
    {
      ghost var was := ruleIds.Contents();
      VariantsOfDone(g, ss, s);
      var ps := EmitState(g, ruleIds, ss[s]);
      EmitNext(g, was, ruleIds.Contents(), ss, table, ps);
      table := table + [ps];
    }
    ids := ruleIds.items[..ruleIds.size];
    EmittedTable(g, ss, ids, table);
  }

  /** The generator: grammar in, parser tables out. */
  method MakeTables(g: Grammar) returns (ok: bool, table: seq<ParserState>, ids: seq<nat>, ss: seq<State>)
    requires Proper(g) && Rooted(g)
    ensures Generated(g, ok, ss)
    ensures ok ==> TableFor(g, Sets(ss), ids, table) && TokensAsActions(ss, table)
    ensures ok ==> FirstActionsWin(g, ids, ss, table)
  {
    ok, ss := Generate(g);
    table, ids := [], [];
    if ok {
      table, ids := EmitTable(g, ss);
    }
  }
}
