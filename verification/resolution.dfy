/** Where a reduction and a shift compete for a token, the order of the leads decides. */
module Resolution {
  import opened Options
  import opened TokenSets
  import opened Grammars
  import opened Items
  import opened Leads
  import opened Consolidation
  import opened Automaton
  import opened Exploration
  import opened Tables
  import opened Machine
  import opened Reached
  import opened Conflicts

  /** The order of the leads: by rule, variant and dot. */
  predicate Precedes(it: Item, p: Item) {
    || it.rule < p.rule
    || (it.rule == p.rule && it.variant < p.variant)
    || (it.rule == p.rule && it.variant == p.variant && it.pos < p.pos)
  }

  lemma {:induction false} LeadOf(g: Grammar, st: State, it: Item) returns (m: nat)
    requires it in ItemsOf(st.leads)
    ensures m < |st.leads| && LeadSymbol(g, st.leads[m]) == Next(g, it)
    ensures it == ItemAt(st.leads[m], it.look)
  {
    var lead, look :| lead in st.leads && look in Looks(lead) && it == ItemAt(lead, look);
    NextOfItemAt(g, lead, look);
    m :| 0 <= m < |st.leads| && st.leads[m] == lead;
  }

  lemma {:induction false} LeadsPrecede(st: State, i: nat, j: nat, a: int, b: int)
    requires Canonical(st.leads) && i < |st.leads| && j < |st.leads|
    ensures Precedes(ItemAt(st.leads[i], a), ItemAt(st.leads[j], b)) <==> i < j
  {
    if i < j {
      assert CompareCores(st.leads[i], st.leads[j]) < 0;
    } else if j < i {
      assert CompareCores(st.leads[j], st.leads[i]) < 0;
    }
  }

  /** The first lead with one symbol comes before any with the other. */
  lemma {:induction false} FirstSeen(g: Grammar, st: State, s: Option<Symbol>, t: Option<Symbol>,
        j: nat) returns (i: nat)
    requires SeenFirst(g, st.leads, s, t) && j < |st.leads| && LeadSymbol(g, st.leads[j]) == t
    ensures i < j && LeadSymbol(g, st.leads[i]) == s
  {
    var n :| Seen(g, st.leads, n, s) && !Seen(g, st.leads, n, t);
    i :| 0 <= i < n && i < |st.leads| && LeadSymbol(g, st.leads[i]) == s;
  }

  lemma {:induction false} ActionsInOrder(g: Grammar, st: State, k: nat, l: nat, s: Option<Symbol>, t: Option<Symbol>)
    requires InOrder(g, st) && k < l < |st.tokenActions| && ActsOn(st.tokenActions[k], s)
    requires ActsOn(st.tokenActions[l], t)
    ensures SeenFirst(g, st.leads, s, t)
  {
  }

  lemma {:induction false} OneCompleteLead(g: Grammar, st: State, i: nat, j: nat)
    requires !ReduceConflict(g, st) && i < |st.leads| && j < |st.leads|
    requires LeadSymbol(g, st.leads[i]) == LeadSymbol(g, st.leads[j]) == None
    ensures i == j
  {
    assert !(i < j) && !(j < i);
  }

  /** A reduction that comes before the shift serves an earlier lead. */
  lemma {:induction false} ReductionFirst(g: Grammar, st: State, it: Item, p: Item, t: Token, k: nat, l: nat)
    requires InOrder(g, st) && !ReduceConflict(g, st) && Canonical(st.leads)
    requires it in ItemsOf(st.leads) && p in ItemsOf(st.leads) && Complete(g, it) && Next(g, p) == Some(T(t))
    requires k < l < |st.tokenActions| && ActsOn(st.tokenActions[k], None) && ActsOn(st.tokenActions[l], Some(T(t)))
    ensures Precedes(it, p)
  {
    hide InOrder, ReduceConflict, Canonical, ActsOn, SeenFirst, LeadSymbol;
    ActionsInOrder(g, st, k, l, None, Some(T(t)));
    var i := LeadOf(g, st, it);
    var j := LeadOf(g, st, p);
    var first := FirstSeen(g, st, None, Some(T(t)), j);
    OneCompleteLead(g, st, first, i);
    LeadsPrecede(st, i, j, it.look, p.look);
  }

  /** A shift that comes before the reduction serves an earlier lead. */
  lemma {:induction false} ShiftFirst(g: Grammar, st: State, it: Item, t: Token, k: nat, l: nat) returns (p: Item)
    requires InOrder(g, st) && Canonical(st.leads) && it in ItemsOf(st.leads) && Complete(g, it)
    requires l < k < |st.tokenActions| && ActsOn(st.tokenActions[k], None) && ActsOn(st.tokenActions[l], Some(T(t)))
    ensures p in ItemsOf(st.leads) && Next(g, p) == Some(T(t)) && !Precedes(it, p)
  {
    assert Next(g, it) == None;
    hide InOrder, Canonical, ActsOn, SeenFirst, LeadSymbol, Next, Complete;
    ActionsInOrder(g, st, l, k, Some(T(t)), None);
    var i := LeadOf(g, st, it);
    var j := FirstSeen(g, st, Some(T(t)), None, i);
    p := ItemAt(st.leads[j], BARE);
    assert st.leads[j] in st.leads;
    NextOfItemAt(g, st.leads[j], BARE);
    LeadsPrecede(st, i, j, it.look, BARE);
  }

  // -------------------------------------------------------------------- the entry taken

  /** Action k is the first of the state on token t, and the lookup finds its entry. */
  ghost predicate FirstTaken(g: Grammar, ids: seq<nat>, acts: seq<TokenAction>, out: seq<ParserAction>, t: int,
        k: nat) {
    var i := FindAction(out, t);
    && i < |out| && k < |acts| && EntryFor(g, ids, acts[k], out[i])
    && t in Elems(acts[k].tokens) && forall l :: 0 <= l < k ==> t !in Elems(acts[l].tokens)
  }

  lemma {:induction false} FoundIsFirst(out: seq<ParserAction>, t: int)
    requires FindAction(out, t) < |out|
    ensures FirstOn(out, FindAction(out, t))
  {
    if out[0].token != t {
      FoundIsFirst(out[1..], t);
      var i := FindAction(out, t);
      forall j | 0 <= j < i
        ensures out[j].token != out[i].token
      {
        assert j > 0 ==> out[1..][j - 1] == out[j];
      }
    }
  }

  lemma {:induction false} Taken(g: Grammar, ids: seq<nat>, acts: seq<TokenAction>, out: seq<ParserAction>, t: int)
    returns (k: nat)
    requires FirstWins(g, ids, acts, out) && exists a :: a in out && a.token == t
    ensures FirstTaken(g, ids, acts, out, t, k)
  {
    var i := FindAction(out, t);
    FoundIsFirst(out, t);
    assert FromFirst(g, ids, acts, out, i);
    k :| 0 <= k < |acts| && EntryFor(g, ids, acts[k], out[i]) && NoneOn(acts, k, out[i].token);
  }

  lemma {:induction false} EntryKind(g: Grammar, ids: seq<nat>, a: TokenAction, e: ParserAction)
    requires Proper(g) && EntryFor(g, ids, a, e)
    ensures e.stateOrLength < 0 <==> a.Reduce?
  {
  }

  /** The state has an entry for a complete item with a lookahead. */
  lemma {:induction false} EntryThere(g: Grammar, sets: seq<set<Item>>, ids: seq<nat>, table: seq<ParserState>, s: nat,
          it: Item)
    requires TableFor(g, sets, ids, table) && s < |sets| && it in sets[s] && Complete(g, it) && it.look >= 0
    ensures exists a :: a in table[s].actions && a.token == it.look
  {
    assert StateFor(g, sets, ids, s, table[s]) && Served(g, sets, ids, s, table[s], it);
  }

  lemma {:induction false} DoneFacts(g: Grammar, sets: seq<set<Item>>, st: State)
    requires Done(g, sets, st)
    ensures InOrder(g, st) && NoDuplicates(st) && !ReduceConflict(g, st)
  {
  }

  lemma {:induction false} ShiftActs(g: Grammar, sets: seq<set<Item>>, st: State, k: nat, t: Token)
    requires Done(g, sets, st) && k < |st.tokenActions| && st.tokenActions[k].Shift?
    requires t in Elems(st.tokenActions[k].tokens)
    ensures ActsOn(st.tokenActions[k], Some(T(t)))
  {
    var u := ShiftTokenIs(g, sets, st, k);
    assert t in {u};
  }

  /** Where a complete item and items before a dot ask for the same token, the parser reduces
      if and only if the complete item comes before all of them in the order of the leads. */
  lemma {:induction false} ReducesIffFirst(g: Grammar, ss: seq<State>, ids: seq<nat>, table: seq<ParserState>, s: nat,
          it: Item, t: Token)
    requires Proper(g) && Finished(g, ss) && TableFor(g, Sets(ss), ids, table) && FirstActionsWin(g, ids, ss, table)
    requires s < |ss| && it in Sets(ss)[s] && Complete(g, it) && it.look == t
    ensures FindAction(table[s].actions, t) < |table[s].actions|
    ensures table[s].actions[FindAction(table[s].actions, t)].stateOrLength < 0 <==>
      forall p :: p in Sets(ss)[s] && Next(g, p) == Some(T(t)) ==> Precedes(it, p)
  {
    var st, actions := ss[s], table[s].actions;
    StateDone(g, ss, s);
    EntryThere(g, Sets(ss), ids, table, s, it);
    assert FirstWins(g, ids, st.tokenActions, actions) && Canonical(st.leads);
    hide Proper, Finished, TableFor, FirstActionsWin, FirstWins, Done, InOrder, NoDuplicates, ReduceConflict, Canonical;
    hide Elems, ItemsOf, Next, Complete, EntryFor, Precedes;
    DoneFacts(g, Sets(ss), st);
    var k := Taken(g, ids, st.tokenActions, actions, t);
    EntryKind(g, ids, st.tokenActions[k], actions[FindAction(actions, t)]);
    var r := ReductionOfItem(g, Sets(ss), st, it);
    if st.tokenActions[k].Reduce? {
      forall p | p in Sets(ss)[s] && Next(g, p) == Some(T(t))
        ensures Precedes(it, p)
      {
        var l := ShiftOfItem(g, Sets(ss), st, p, t);
        assert t in {t} && l > k;
        ReductionFirst(g, st, it, p, t, k, l);
      }
    } else {
      ShiftActs(g, Sets(ss), st, k, t);
      var p := ShiftFirst(g, st, it, t, r, k);
    }
  }
}
