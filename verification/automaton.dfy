/** The states of the parser and the exploration that discovers them. */
module Automaton {
  import opened Options
  import opened Arrays
  import opened TokenSets
  import opened Grammars
  import opened Items
  import opened Leads
  import opened Consolidation
  import opened Expansion

  /** What a state does on the tokens of a set. */
  datatype TokenAction =
    | Shift(tokens: Bits, state: nat)
    | Reduce(tokens: Bits, rule: nat, variant: nat)

  datatype RuleAction = RuleAction(rule: nat, state: nat)

  datatype State = State(leads: seq<Lead>, tokenActions: seq<TokenAction>, ruleActions: seq<RuleAction>)

  // ------------------------------------------------------------------ closing leads

  /** Closes the leads and brings them into canonical form. */
  method CloseLeads(g: Grammar, leads: Array<Lead>)
    requires Proper(g) && leads.Valid() && AllOk(g, leads.Contents()) && leads.size > 0
    modifies leads, leads.items
    ensures leads.Valid()
    ensures Canonical(leads.Contents())
    ensures IsClosure(g, old(ItemsOf(leads.Contents())), ItemsOf(leads.Contents()))
  {
    ghost var was := leads.Contents();
    GatherLeads(g, leads, 0, leads.size);
    ghost var s := leads.Contents();
    forall lead | lead in s
      ensures Expanded(g, lead, s)
    {
      var j :| 0 <= j < |s| && s[j] == lead;
    }
    ItemsOfClosure(g, was, s);
    ConsolidateLeads(leads);
  }

  // ------------------------------------------------------------- moving over a symbol

  /** The leads with `sym` after their dot, in order. */
  function WithSymbol(g: Grammar, s: seq<Lead>, sym: Option<Symbol>): seq<Lead> {
    if s == [] then []
    else
      var rest, last := WithSymbol(g, s[..|s| - 1], sym), s[|s| - 1];
      if LeadSymbol(g, last) == sym then rest + [last] else rest
  }

  function Stepped(s: seq<Lead>): seq<Lead> {
    seq(|s|, i requires 0 <= i < |s| => s[i].(position := s[i].position + 1))
  }

  lemma {:induction false} WithSymbolMembers(g: Grammar, s: seq<Lead>, sym: Option<Symbol>)
    ensures forall lead :: lead in WithSymbol(g, s, sym) <==> lead in s && LeadSymbol(g, lead) == sym
  {
    if s != [] {
      WithSymbolMembers(g, s[..|s| - 1], sym);
      assert s == s[..|s| - 1] + [s[|s| - 1]];
    }
  }

  lemma {:induction false} NoneWithSymbol(g: Grammar, s: seq<Lead>, sym: Option<Symbol>)
    requires forall lead :: lead in s ==> LeadSymbol(g, lead) != sym
    ensures WithSymbol(g, s, sym) == []
  {
    if s != [] {
      NoneWithSymbol(g, s[..|s| - 1], sym);
    }
  }

  lemma {:induction false} NextOfItemAt(g: Grammar, lead: Lead, look: int)
    ensures Next(g, ItemAt(lead, look)) == LeadSymbol(g, lead)
  {
  }

  lemma {:induction false} SteppedItem(g: Grammar, s: seq<Lead>, x: Symbol, it: Item)
    requires it in ItemsOf(Stepped(WithSymbol(g, s, Some(x))))
    ensures it in Advance(g, ItemsOf(s), x)
  {
    var w := WithSymbol(g, s, Some(x));
    WithSymbolMembers(g, s, Some(x));
    var lead, look :| lead in Stepped(w) && look in Looks(lead) && it == ItemAt(lead, look);
    var i :| 0 <= i < |w| && Stepped(w)[i] == lead;
    NextOfItemAt(g, w[i], look);
    assert ItemAt(w[i], look) in ItemsOf(s);
  }

  lemma {:induction false} AdvancedItem(g: Grammar, s: seq<Lead>, x: Symbol, it: Item)
    requires it in Advance(g, ItemsOf(s), x)
    ensures it in ItemsOf(Stepped(WithSymbol(g, s, Some(x))))
  {
    var w := WithSymbol(g, s, Some(x));
    WithSymbolMembers(g, s, Some(x));
    var p :| p in ItemsOf(s) && Next(g, p) == Some(x) && it == p.(pos := p.pos + 1);
    var lead, look :| lead in s && look in Looks(lead) && p == ItemAt(lead, look);
    NextOfItemAt(g, lead, look);
    var i :| 0 <= i < |w| && w[i] == lead;
    assert Stepped(w)[i] in Stepped(w);
    assert it == ItemAt(Stepped(w)[i], look);
  }

  lemma {:induction false} SteppedItems(g: Grammar, s: seq<Lead>, x: Symbol)
    ensures ItemsOf(Stepped(WithSymbol(g, s, Some(x)))) == Advance(g, ItemsOf(s), x)
  {
    forall it
      ensures it in ItemsOf(Stepped(WithSymbol(g, s, Some(x)))) <==> it in Advance(g, ItemsOf(s), x)
    {
      if it in ItemsOf(Stepped(WithSymbol(g, s, Some(x)))) {
        SteppedItem(g, s, x, it);
      }
      if it in Advance(g, ItemsOf(s), x) {
        AdvancedItem(g, s, x, it);
      }
    }
  }

  lemma {:induction false} SteppedOk(g: Grammar, s: seq<Lead>, x: Symbol)
    ensures AllOk(g, Stepped(WithSymbol(g, s, Some(x))))
  {
    WithSymbolMembers(g, s, Some(x));
    var w := WithSymbol(g, s, Some(x));
    forall lead | lead in Stepped(w)
      ensures LeadOk(g, lead)
    {
      var i :| 0 <= i < |w| && Stepped(w)[i] == lead;
      assert w[i] in w;
    }
  }

  // --------------------------------------------------------------- correct automata

  /** The item sets of the states. */
  ghost function Sets(ss: seq<State>): seq<set<Item>> {
    seq(|ss|, j requires 0 <= j < |ss| => ItemsOf(ss[j].leads))
  }

  /** There is a transition on x from item set s to the j-th item set. */
  ghost predicate Transition(g: Grammar, sets: seq<set<Item>>, s: set<Item>, x: Symbol, j: nat) {
    j < |sets| && IsGoto(g, s, x, sets[j]) && Advance(g, s, x) != {}
  }

  ghost predicate ActionSound(g: Grammar, sets: seq<set<Item>>, leads: seq<Lead>, a: TokenAction) {
    match a
    case Shift(tokens, j) =>
      exists t: Token :: Elems(tokens) == {t} && Transition(g, sets, ItemsOf(leads), T(t), j)
    case Reduce(tokens, r, v) =>
      exists lead :: lead in leads && LeadSymbol(g, lead) == None
        && lead.rule == r && lead.variant == v && lead.terminals == tokens
  }

  /** Lead number m has its action. */
  ghost predicate LeadServed(g: Grammar, st: State, m: nat)
    requires m < |st.leads|
  {
    var lead := st.leads[m];
    match LeadSymbol(g, lead)
    case None => Reduce(lead.terminals, lead.rule, lead.variant) in st.tokenActions
    case Some(T(t)) => exists a :: a in st.tokenActions && a.Shift? && Elems(a.tokens) == {t}
    case Some(N(r)) => exists a :: a in st.ruleActions && a.rule == r
  }

  /** One of the first n leads has `sym` after its dot. */
  ghost predicate Seen(g: Grammar, leads: seq<Lead>, n: nat, sym: Option<Symbol>) {
    exists m :: 0 <= m < n && m < |leads| && LeadSymbol(g, leads[m]) == sym
  }

  /** The symbol an action belongs to; None for reductions. */
  ghost predicate ActsOn(a: TokenAction, sym: Option<Symbol>) {
    match a
    case Shift(tokens, _) => sym.Some? && sym.value.T? && Elems(tokens) == {sym.value.tok}
    case Reduce(_, _, _) => sym.None?
  }

  /** Every action's symbol was seen among the first n leads. */
  ghost predicate OnlySeen(g: Grammar, st: State, n: nat) {
    && (forall k, sym :: 0 <= k < |st.tokenActions| && ActsOn(st.tokenActions[k], sym) ==> Seen(g, st.leads, n, sym))
    && (forall k :: 0 <= k < |st.ruleActions| ==> Seen(g, st.leads, n, Some(N(st.ruleActions[k].rule))))
  }

  /** No symbol has two actions. */
  ghost predicate NoDuplicates(st: State) {
    && (forall k, l, sym :: 0 <= k < l < |st.tokenActions| && ActsOn(st.tokenActions[k], sym)
          ==> !ActsOn(st.tokenActions[l], sym))
    && (forall k, l :: 0 <= k < l < |st.ruleActions| ==> st.ruleActions[k].rule != st.ruleActions[l].rule)
  }

  /** Among the leads s comes after a dot, or at the end for None, before t does. */
  ghost predicate SeenFirst(g: Grammar, leads: seq<Lead>, s: Option<Symbol>, t: Option<Symbol>) {
    exists n :: Seen(g, leads, n, s) && !Seen(g, leads, n, t)
  }

  /** The actions come in the order of the first leads they serve. */
  ghost predicate InOrder(g: Grammar, st: State) {
    forall k, l, s, t :: 0 <= k < l < |st.tokenActions| ==>
      ActsOn(st.tokenActions[k], s) && ActsOn(st.tokenActions[l], t) ==> SeenFirst(g, st.leads, s, t)
  }

  /** The actions of a state are right as far as its first n leads go. */
  ghost predicate DoneUpTo(g: Grammar, sets: seq<set<Item>>, st: State, n: nat) {
    && n <= |st.leads|
    && (forall a :: a in st.tokenActions ==> ActionSound(g, sets, st.leads, a))
    && (forall a :: a in st.ruleActions ==> Transition(g, sets, ItemsOf(st.leads), N(a.rule), a.state))
    && (forall m :: 0 <= m < n ==> LeadServed(g, st, m))
    && OnlySeen(g, st, n) && NoDuplicates(st) && InOrder(g, st)
  }

  /** Two different complete items: the reduce-reduce conflict the generator rejects. */
  ghost predicate ReduceConflict(g: Grammar, st: State) {
    exists i, j :: 0 <= i < j < |st.leads|
      && LeadSymbol(g, st.leads[i]) == LeadSymbol(g, st.leads[j]) == None
  }

  /** The state has exactly one action for every symbol after a dot, leading to the
      closure of the advanced items, and one reduction if it has a complete item. */
  ghost predicate Done(g: Grammar, sets: seq<set<Item>>, st: State) {
    DoneUpTo(g, sets, st, |st.leads|) && !ReduceConflict(g, st)
  }

  ghost predicate HasParent(g: Grammar, sets: seq<set<Item>>, j: nat) {
    exists i, x :: 0 <= i < j && i < |sets| && Transition(g, sets, sets[i], x, j)
  }

  /** States have canonical, pairwise different leads, and all but the first are
      entered by a transition from an earlier one. */
  ghost predicate Explored(g: Grammar, ss: seq<State>) {
    && (forall j :: 0 <= j < |ss| ==> Canonical(ss[j].leads) && AllOk(g, ss[j].leads))
    && (forall i, j :: 0 <= i < j < |ss| ==> ss[i].leads != ss[j].leads)
    && (forall j :: 0 < j < |ss| ==> HasParent(g, Sets(ss), j))
  }

  /** Later states were appended and no state's leads changed. */
  ghost predicate Extends(was: seq<State>, now: seq<State>) {
    |was| <= |now| && forall j :: 0 <= j < |was| ==> now[j].leads == was[j].leads
  }

  predicate Untouched(st: State) {
    st.tokenActions == [] && st.ruleActions == []
  }

  // ------------------------------------------------------------------------- lemmas

  lemma {:induction false} ExtendsSets(was: seq<State>, now: seq<State>)
    requires Extends(was, now)
    ensures Sets(was) <= Sets(now)
  {
    forall j | 0 <= j < |was|
      ensures Sets(was)[j] == Sets(now)[j]
    {
      assert now[j].leads == was[j].leads;
    }
  }

  lemma {:induction false} TransitionMonotone(g: Grammar, sets: seq<set<Item>>, sets': seq<set<Item>>, s: set<Item>,
          x: Symbol, j: nat)
    requires Transition(g, sets, s, x, j) && sets <= sets'
    ensures Transition(g, sets', s, x, j)
  {
  }

  lemma {:induction false} DoneMonotone(g: Grammar, sets: seq<set<Item>>, sets': seq<set<Item>>, st: State, n: nat)
    requires DoneUpTo(g, sets, st, n) && sets <= sets'
    ensures DoneUpTo(g, sets', st, n)
  {
    forall a | a in st.tokenActions
      ensures ActionSound(g, sets', st.leads, a)
    {
      assert ActionSound(g, sets, st.leads, a);
      if a.Shift? {
        var t: Token :| Elems(a.tokens) == {t} && Transition(g, sets, ItemsOf(st.leads), T(t), a.state);
        TransitionMonotone(g, sets, sets', ItemsOf(st.leads), T(t), a.state);
      }
    }
    forall a | a in st.ruleActions
      ensures Transition(g, sets', ItemsOf(st.leads), N(a.rule), a.state)
    {
      TransitionMonotone(g, sets, sets', ItemsOf(st.leads), N(a.rule), a.state);
    }
  }

  lemma {:induction false} ParentMonotone(g: Grammar, sets: seq<set<Item>>, sets': seq<set<Item>>, j: nat)
    requires HasParent(g, sets, j) && sets <= sets'
    ensures HasParent(g, sets', j)
  {
    var i, x :| 0 <= i < j && i < |sets| && Transition(g, sets, sets[i], x, j);
    TransitionMonotone(g, sets, sets', sets[i], x, j);
    assert sets'[i] == sets[i];
  }
}
