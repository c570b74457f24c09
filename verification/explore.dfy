/** The exploration of the automaton. States are taken in the order of their discovery;
    within a state, one group of leads with the same next symbol at a time gets its
    action, and the state it leads to is looked up among the known ones or appended.
    When nothing new was discovered the automaton is finished. */
module Exploration {
  import opened Options
  import opened Arrays
  import opened TokenSets
  import opened Grammars
  import opened Items
  import opened Leads
  import opened Consolidation
  import opened Expansion
  import opened Automaton

  // ------------------------------------------------------------------ lead groups

  /** The flags mark the leads whose symbol occurs among the first n leads. */
  ghost predicate HandledOk(g: Grammar, leads: seq<Lead>, n: nat, handled: seq<bool>) {
    |handled| == |leads| && forall k :: 0 <= k < |leads| ==>
      (handled[k] <==> Seen(g, leads, n, LeadSymbol(g, leads[k])))
  }

  /** Flags in the middle of collecting the group of lead n. */
  ghost predicate Collecting(g: Grammar, leads: seq<Lead>, n: nat, k: nat, was: seq<bool>, handled: seq<bool>)
    requires n < |leads|
  {
    && |handled| == |was| == |leads| && k <= |leads|
    && (forall j :: 0 <= j < k ==> (handled[j] <==> was[j] || (LeadSymbol(g, leads[j]) == LeadSymbol(g, leads[n]))))
    && (forall j :: k <= j < |leads| ==> handled[j] == was[j])
  }

  lemma {:induction false} CollectedIsHandled(g: Grammar, leads: seq<Lead>, n: nat, was: seq<bool>, handled: seq<bool>)
    requires n < |leads| && HandledOk(g, leads, n, was) && Collecting(g, leads, n, |leads|, was, handled)
    ensures HandledOk(g, leads, n + 1, handled)
  {
    forall k | 0 <= k < |leads|
      ensures handled[k] <==> Seen(g, leads, n + 1, LeadSymbol(g, leads[k]))
    {
      SeenNext(g, leads, n, LeadSymbol(g, leads[k]));
    }
  }

  lemma {:induction false} SeenNext(g: Grammar, leads: seq<Lead>, n: nat, sym: Option<Symbol>)
    requires n < |leads|
    ensures Seen(g, leads, n + 1, sym) <==> Seen(g, leads, n, sym) || LeadSymbol(g, leads[n]) == sym
  {
    if Seen(g, leads, n, sym) {
      var m :| 0 <= m < n && m < |leads| && LeadSymbol(g, leads[m]) == sym;
      assert 0 <= m < n + 1;
    }
  }

  lemma {:induction false} StartCollecting(g: Grammar, leads: seq<Lead>, n: nat, handled: seq<bool>)
    requires n < |leads| && HandledOk(g, leads, n, handled) && !handled[n]
    ensures WithSymbol(g, leads[..n], LeadSymbol(g, leads[n])) == []
    ensures Collecting(g, leads, n, n, handled, handled)
  {
    forall lead | lead in leads[..n]
      ensures LeadSymbol(g, lead) != LeadSymbol(g, leads[n])
    {
      var m :| 0 <= m < n && leads[m] == lead;
    }
    NoneWithSymbol(g, leads[..n], LeadSymbol(g, leads[n]));
  }

  /** The part of the group of `sym` found among `leads`. */
  ghost predicate Group(g: Grammar, leads: seq<Lead>, sym: Option<Symbol>, shift: seq<Lead>, reduce: seq<Lead>) {
    if sym.None? then shift == [] && reduce == WithSymbol(g, leads, sym)
    else shift == Stepped(WithSymbol(g, leads, sym)) && reduce == []
  }

  lemma {:induction false} EmptyGroup(g: Grammar, leads: seq<Lead>, n: nat)
    requires n < |leads| && WithSymbol(g, leads[..n], LeadSymbol(g, leads[n])) == []
    ensures Group(g, leads[..n], LeadSymbol(g, leads[n]), [], [])
  {
  }

  lemma {:induction false} GroupNext(g: Grammar, leads: seq<Lead>, k: nat, sym: Option<Symbol>, shift: seq<Lead>,
          reduce: seq<Lead>)
    requires k < |leads| && Group(g, leads[..k], sym, shift, reduce)
    ensures LeadSymbol(g, leads[k]) != sym ==> Group(g, leads[..k + 1], sym, shift, reduce)
    ensures LeadSymbol(g, leads[k]) == sym ==>
      if sym.None? then Group(g, leads[..k + 1], sym, shift, reduce + [leads[k]])
      else Group(g, leads[..k + 1], sym, shift + [leads[k].(position := leads[k].position + 1)], reduce)
  {
    assert leads[..k + 1][..k] == leads[..k];
    assert leads[..k + 1][k] == leads[k];
  }

  lemma {:induction false} CollectNext(g: Grammar, leads: seq<Lead>, n: nat, k: nat, was: seq<bool>, handled: seq<bool>)
    requires n <= k < |leads| && HandledOk(g, leads, n, was) && !was[n] && Collecting(g, leads, n, k, was, handled)
    ensures LeadSymbol(g, leads[k]) == LeadSymbol(g, leads[n]) ==>
      !handled[k] && Collecting(g, leads, n, k + 1, was, handled[k := true])
    ensures LeadSymbol(g, leads[k]) != LeadSymbol(g, leads[n]) ==>
      Collecting(g, leads, n, k + 1, was, handled)
  {
    assert was[n] <==> Seen(g, leads, n, LeadSymbol(g, leads[n]));
    assert was[k] <==> Seen(g, leads, n, LeadSymbol(g, leads[k]));
  }

  /** Collects the unhandled leads with the same next symbol as lead n: those to
      shift, with their dot moved, or those to reduce. */
  method CollectGroup(g: Grammar, leads: seq<Lead>, n: nat, handled: array<bool>)
    returns (shiftLeads: Array<Lead>, reduceLeads: seq<Lead>)
    requires n < |leads| && HandledOk(g, leads, n, handled[..]) && !handled[n]
    modifies handled
    ensures fresh(shiftLeads) && fresh(shiftLeads.items) && shiftLeads.Valid()
    ensures HandledOk(g, leads, n + 1, handled[..])
    ensures Group(g, leads, LeadSymbol(g, leads[n]), shiftLeads.Contents(), reduceLeads)
  {
    ghost var was := handled[..];
    assert handled.Length == |leads|;
    hide Group, HandledOk, Seen;
    shiftLeads := new Array<Lead>();
    reduceLeads := [];
    var sym := LeadSymbol(g, leads[n]);
    StartCollecting(g, leads, n, was);
    EmptyGroup(g, leads, n);
    for k := n to |leads|
      invariant fresh(shiftLeads) && fresh(shiftLeads.items) && shiftLeads.Valid()
      invariant Collecting(g, leads, n, k, was, handled[..])
      invariant Group(g, leads[..k], sym, shiftLeads.Contents(), reduceLeads)
    {
      CollectNext(g, leads, n, k, was, handled[..]);
      GroupNext(g, leads, k, sym, shiftLeads.Contents(), reduceLeads);
      if !handled[k] && LeadSymbol(g, leads[k]) == sym {
        ghost var flags := handled[..];
        handled[k] := true;
        assert handled[..] == flags[k := true];
        if sym.None? {
          reduceLeads := reduceLeads + [leads[k]];
        } else {
          shiftLeads.Add(leads[k].(position := leads[k].position + 1));
        }
      }
    }
    assert leads[..|leads|] == leads;
    CollectedIsHandled(g, leads, n, was, handled[..]);
  }

  // ------------------------------------------------------------- serving the leads

  lemma {:induction false} ServedStays(g: Grammar, st: State, st': State, m: nat)
    requires st'.leads == st.leads && m < |st.leads| && LeadServed(g, st, m)
    requires st.tokenActions <= st'.tokenActions && st.ruleActions <= st'.ruleActions
    ensures LeadServed(g, st', m)
  {
    assert forall a :: a in st.tokenActions ==> a in st'.tokenActions;
    assert forall a :: a in st.ruleActions ==> a in st'.ruleActions;
  }

  lemma {:induction false} AllServedStay(g: Grammar, st: State, st': State, n: nat)
    requires st'.leads == st.leads && n < |st.leads|
    requires forall m :: 0 <= m < n ==> LeadServed(g, st, m)
    requires LeadServed(g, st', n)
    requires st.tokenActions <= st'.tokenActions && st.ruleActions <= st'.ruleActions
    ensures forall m :: 0 <= m < n + 1 ==> LeadServed(g, st', m)
  {
    forall m | 0 <= m < n
      ensures LeadServed(g, st', m)
    {
      ServedStays(g, st, st', m);
    }
  }

  lemma {:induction false} SeenGrows(g: Grammar, st: State, n: nat)
    requires OnlySeen(g, st, n) && n < |st.leads|
    ensures OnlySeen(g, st, n + 1)
  {
    forall k, sym | 0 <= k < |st.tokenActions| && ActsOn(st.tokenActions[k], sym)
      ensures Seen(g, st.leads, n + 1, sym)
    {
      SeenNext(g, st.leads, n, sym);
    }
    forall k | 0 <= k < |st.ruleActions|
      ensures Seen(g, st.leads, n + 1, Some(N(st.ruleActions[k].rule)))
    {
      SeenNext(g, st.leads, n, Some(N(st.ruleActions[k].rule)));
    }
  }

  lemma {:induction false} ActsOnOne(a: TokenAction, s: Option<Symbol>, t: Option<Symbol>)
    requires ActsOn(a, s) && ActsOn(a, t)
    ensures s == t
  {
    if a.Shift? {
      assert s.value.tok in {t.value.tok};
    }
  }

  lemma {:induction false} TokenActionNew(g: Grammar, st: State, n: nat, a: TokenAction)
    requires OnlySeen(g, st, n) && NoDuplicates(st) && InOrder(g, st) && n < |st.leads|
    requires ActsOn(a, LeadSymbol(g, st.leads[n])) && !Seen(g, st.leads, n, LeadSymbol(g, st.leads[n]))
    ensures OnlySeen(g, st.(tokenActions := st.tokenActions + [a]), n + 1)
    ensures NoDuplicates(st.(tokenActions := st.tokenActions + [a]))
    ensures InOrder(g, st.(tokenActions := st.tokenActions + [a]))
  {
    var sym := LeadSymbol(g, st.leads[n]);
    SeenGrows(g, st, n);
    SeenNext(g, st.leads, n, sym);
    forall other | ActsOn(a, other)
      ensures other == sym
    {
      ActsOnOne(a, other, sym);
    }
  }

  lemma {:induction false} RuleActionNew(g: Grammar, st: State, n: nat, a: RuleAction)
    requires OnlySeen(g, st, n) && NoDuplicates(st) && n < |st.leads|
    requires LeadSymbol(g, st.leads[n]) == Some(N(a.rule)) && !Seen(g, st.leads, n, Some(N(a.rule)))
    ensures OnlySeen(g, st.(ruleActions := st.ruleActions + [a]), n + 1)
    ensures NoDuplicates(st.(ruleActions := st.ruleActions + [a]))
  {
    SeenGrows(g, st, n);
    SeenNext(g, st.leads, n, Some(N(a.rule)));
  }

  lemma {:induction false} AppendTokenAction(g: Grammar, sets: seq<set<Item>>, st: State, n: nat, a: TokenAction)
    requires DoneUpTo(g, sets, st, n) && n < |st.leads|
    requires ActionSound(g, sets, st.leads, a)
    requires ActsOn(a, LeadSymbol(g, st.leads[n])) && !Seen(g, st.leads, n, LeadSymbol(g, st.leads[n]))
    requires a.Reduce? ==> a == Reduce(st.leads[n].terminals, st.leads[n].rule, st.leads[n].variant)
    ensures DoneUpTo(g, sets, st.(tokenActions := st.tokenActions + [a]), n + 1)
  {
    var st' := st.(tokenActions := st.tokenActions + [a]);
    assert a in st'.tokenActions;
    AllServedStay(g, st, st', n);
    TokenActionNew(g, st, n, a);
  }

  lemma {:induction false} AppendRuleAction(g: Grammar, sets: seq<set<Item>>, st: State, n: nat, a: RuleAction)
    requires DoneUpTo(g, sets, st, n) && n < |st.leads|
    requires Transition(g, sets, ItemsOf(st.leads), N(a.rule), a.state)
    requires LeadSymbol(g, st.leads[n]) == Some(N(a.rule)) && !Seen(g, st.leads, n, Some(N(a.rule)))
    ensures DoneUpTo(g, sets, st.(ruleActions := st.ruleActions + [a]), n + 1)
  {
    var st' := st.(ruleActions := st.ruleActions + [a]);
    assert a in st'.ruleActions;
    AllServedStay(g, st, st', n);
    RuleActionNew(g, st, n, a);
  }

  /** A lead whose symbol was seen before needs nothing new. */
  lemma {:induction false} ServedBefore(g: Grammar, sets: seq<set<Item>>, st: State, n: nat)
    requires DoneUpTo(g, sets, st, n) && n < |st.leads|
    requires Seen(g, st.leads, n, LeadSymbol(g, st.leads[n]))
    requires LeadSymbol(g, st.leads[n]).None? ==> !ReduceConflict(g, st)
    ensures DoneUpTo(g, sets, st, n + 1)
  {
    var sym := LeadSymbol(g, st.leads[n]);
    var m :| 0 <= m < n && LeadSymbol(g, st.leads[m]) == sym;
    assert LeadServed(g, st, m);
    assert LeadServed(g, st, n);
    SeenGrows(g, st, n);
  }

  /** A lead array has a single lead with this symbol exactly when no two have it. */
  lemma {:induction false} OneWithSymbol(g: Grammar, s: seq<Lead>, sym: Option<Symbol>)
    ensures |WithSymbol(g, s, sym)| > 1 <==>
      exists i, j :: 0 <= i < j < |s| && LeadSymbol(g, s[i]) == LeadSymbol(g, s[j]) == sym
  {
    if s != [] {
      var n := |s| - 1;
      var t := s[..n];
      OneWithSymbol(g, t, sym);
      WithSymbolMembers(g, t, sym);
      if |WithSymbol(g, t, sym)| > 1 {
        var i, j :| 0 <= i < j < |t| && LeadSymbol(g, t[i]) == LeadSymbol(g, t[j]) == sym;
        assert LeadSymbol(g, s[i]) == LeadSymbol(g, s[j]) == sym;
      } else if |WithSymbol(g, s, sym)| > 1 {
        var lead := WithSymbol(g, t, sym)[0];
        assert lead in WithSymbol(g, t, sym);
        var i :| 0 <= i < n && t[i] == lead;
        assert LeadSymbol(g, s[i]) == LeadSymbol(g, s[n]) == sym;
      }
      forall i, j | 0 <= i < j < |s| && LeadSymbol(g, s[i]) == LeadSymbol(g, s[j]) == sym
        ensures |WithSymbol(g, s, sym)| > 1
      {
        assert s[i] == t[i] && s[i] in t;
        assert s[i] in WithSymbol(g, t, sym);
        if j < n {
          assert LeadSymbol(g, t[i]) == LeadSymbol(g, t[j]) == sym;
        }
      }
    }
  }

  // ------------------------------------------------------------- discovering states

  method FindState(states: Array<State>, leads: seq<Lead>) returns (k: nat)
    requires states.Valid()
    ensures k <= states.size
    ensures k < states.size ==> states.Contents()[k].leads == leads
    ensures k == states.size ==> forall j :: 0 <= j < states.size ==> states.Contents()[j].leads != leads
  {
    k := 0;
    while k < states.size
      invariant k <= states.size
      invariant forall j :: 0 <= j < k ==> states.Contents()[j].leads != leads
    {
      var equal := EqualSetOfLeads(leads, states.Get(k).leads);
      if equal {
        return;
      }
      k := k + 1;
    }
  }

  lemma {:induction false} AddState(g: Grammar, ss: seq<State>, st: State, i: nat, x: Symbol)
    requires Explored(g, ss) && i < |ss|
    requires Canonical(st.leads) && AllOk(g, st.leads)
    requires forall j :: 0 <= j < |ss| ==> ss[j].leads != st.leads
    requires IsGoto(g, ItemsOf(ss[i].leads), x, ItemsOf(st.leads)) && Advance(g, ItemsOf(ss[i].leads), x) != {}
    ensures Explored(g, ss + [st]) && Extends(ss, ss + [st])
  {
    var all := ss + [st];
    ExtendsSets(ss, all);
    forall j | 0 < j < |all|
      ensures HasParent(g, Sets(all), j)
    {
      if j < |ss| {
        ParentMonotone(g, Sets(ss), Sets(all), j);
      } else {
        assert Sets(all)[i] == ItemsOf(ss[i].leads) && Sets(all)[j] == ItemsOf(st.leads);
        assert Transition(g, Sets(all), Sets(all)[i], x, j);
      }
    }
  }

  /** The index of the state with these leads, which is appended when it is new. */
  method EnterState(g: Grammar, states: Array<State>, i: nat, ghost x: Symbol, leads: seq<Lead>) returns (k: nat)
    requires states.Valid() && Explored(g, states.Contents()) && i < states.size
    requires Canonical(leads) && AllOk(g, leads)
    requires IsGoto(g, ItemsOf(states.Contents()[i].leads), x, ItemsOf(leads))
    requires Advance(g, ItemsOf(states.Contents()[i].leads), x) != {}
    modifies states, states.items
    ensures states.Valid() && (states.items == old(states.items) || fresh(states.items))
    ensures Explored(g, states.Contents())
    ensures old(states.Contents()) <= states.Contents()
    ensures forall j :: old(states.size) <= j < states.size ==> Untouched(states.Contents()[j])
    ensures Transition(g, Sets(states.Contents()), ItemsOf(states.Contents()[i].leads), x, k)
  {
    k := FindState(states, leads);
    if k == states.size {
      var st := State(leads, [], []);
      AddState(g, states.Contents(), st, i, x);
      states.Add(st);
    }
    assert Sets(states.Contents())[k] == ItemsOf(leads);
  }

  // ----------------------------------------------------------- exploring one state

  /** State i is served as far as its first n leads, and nothing else was touched
      since the states were `was`, except that new ones were appended. */
  ghost predicate Working(g: Grammar, was: seq<State>, now: seq<State>, i: nat, n: nat) {
    && i < |was| && Explored(g, now) && Extends(was, now)
    && (forall j :: 0 <= j < |was| && j != i ==> now[j] == was[j])
    && (forall j :: |was| <= j < |now| ==> Untouched(now[j]))
    && DoneUpTo(g, Sets(now), now[i], n)
    && (Seen(g, now[i].leads, n, None) ==> !ReduceConflict(g, now[i]))
  }

  lemma {:induction false} SameLeadsExplored(g: Grammar, ss: seq<State>, i: nat, st: State)
    requires Explored(g, ss) && i < |ss| && st.leads == ss[i].leads
    ensures Explored(g, ss[i := st]) && Sets(ss[i := st]) == Sets(ss) && Extends(ss, ss[i := st])
  {
    var all := ss[i := st];
    assert forall j :: 0 <= j < |ss| ==> all[j].leads == ss[j].leads;
    assert Sets(all) == Sets(ss);
  }

  /** State i gets further actions that serve its lead n. */
  lemma {:induction false} WorkOn(g: Grammar, was: seq<State>, now: seq<State>, i: nat, n: nat, st: State)
    requires Working(g, was, now, i, n) && n < |now[i].leads| && st.leads == now[i].leads
    requires DoneUpTo(g, Sets(now), st, n + 1)
    requires LeadSymbol(g, st.leads[n]).None? ==> !ReduceConflict(g, st)
    ensures Working(g, was, now[i := st], i, n + 1)
  {
    SameLeadsExplored(g, now, i, st);
    SeenNext(g, st.leads, n, None);
    assert ReduceConflict(g, st) <==> ReduceConflict(g, now[i]);
  }

  lemma {:induction false} WorkWithMore(g: Grammar, was: seq<State>, now: seq<State>, next: seq<State>, i: nat, n: nat)
    requires Working(g, was, now, i, n) && Explored(g, next) && now <= next
    requires forall j :: |now| <= j < |next| ==> Untouched(next[j])
    ensures Working(g, was, next, i, n)
  {
    assert Extends(now, next);
    ExtendsSets(now, next);
    DoneMonotone(g, Sets(now), Sets(next), now[i], n);
  }

  function Reductions(leads: seq<Lead>): seq<TokenAction> {
    seq(|leads|, k requires 0 <= k < |leads| => Reduce(leads[k].terminals, leads[k].rule, leads[k].variant))
  }

  lemma {:induction false} OneReduction(g: Grammar, was: seq<State>, now: seq<State>, i: nat, n: nat)
    requires Working(g, was, now, i, n) && n < |now[i].leads|
    requires LeadSymbol(g, now[i].leads[n]).None? && !Seen(g, now[i].leads, n, None)
    requires |WithSymbol(g, now[i].leads, None)| <= 1
    ensures var st := now[i].(tokenActions := now[i].tokenActions + Reductions(WithSymbol(g, now[i].leads, None)));
      Working(g, was, now[i := st], i, n + 1)
  {
    var st := now[i];
    var lead := st.leads[n];
    WithSymbolMembers(g, st.leads, None);
    OneWithSymbol(g, st.leads, None);
    assert lead in WithSymbol(g, st.leads, None);
    var a := Reduce(lead.terminals, lead.rule, lead.variant);
    assert Reductions(WithSymbol(g, st.leads, None)) == [a];
    assert ActionSound(g, Sets(now), st.leads, a);
    AppendTokenAction(g, Sets(now), st, n, a);
    WorkOn(g, was, now, i, n, st.(tokenActions := st.tokenActions + [a]));
  }

  /** Reduces for the group of complete leads; fails when there are several. */
  method ServeReductions(g: Grammar, states: Array<State>, ghost was: seq<State>, i: nat, ghost n: nat,
        reduceLeads: seq<Lead>)
    returns (ok: bool)
    requires states.Valid() && Working(g, was, states.Contents(), i, n)
    requires n < |states.Contents()[i].leads| && LeadSymbol(g, states.Contents()[i].leads[n]).None?
    requires !Seen(g, states.Contents()[i].leads, n, None)
    requires reduceLeads == WithSymbol(g, states.Contents()[i].leads, None)
    modifies states.items
    ensures states.Valid() && Extends(old(states.Contents()), states.Contents())
    ensures ok ==> Working(g, was, states.Contents(), i, n + 1)
    ensures !ok ==> Explored(g, states.Contents()) && ReduceConflict(g, states.Contents()[i])
  {
    ghost var now := states.Contents();
    var st := states.Get(i);
    st := st.(tokenActions := st.tokenActions + Reductions(reduceLeads));
    OneWithSymbol(g, st.leads, None);
    SameLeadsExplored(g, now, i, st);
    if |reduceLeads| <= 1 {
      OneReduction(g, was, now, i, n);
    }
    states.Set(i, st);
    ok := |reduceLeads| <= 1;
  }

  lemma {:induction false} OneTransition(g: Grammar, was: seq<State>, now: seq<State>, i: nat, n: nat, tokens: Bits,
          k: nat)
    requires Working(g, was, now, i, n) && n < |now[i].leads|
    requires LeadSymbol(g, now[i].leads[n]).Some? && !Seen(g, now[i].leads, n, LeadSymbol(g, now[i].leads[n]))
    requires Transition(g, Sets(now), ItemsOf(now[i].leads), LeadSymbol(g, now[i].leads[n]).value, k)
    requires LeadSymbol(g, now[i].leads[n]).value.T? ==> Elems(tokens) == {LeadSymbol(g, now[i].leads[n]).value.tok}
    ensures Working(g, was, now[i := WithTransition(now[i], LeadSymbol(g, now[i].leads[n]).value, tokens, k)], i, n + 1)
  {
    var st, x := now[i], LeadSymbol(g, now[i].leads[n]).value;
    match x {
      case T(t) =>
        AppendTokenAction(g, Sets(now), st, n, Shift(tokens, k));
      case N(r) =>
        AppendRuleAction(g, Sets(now), st, n, RuleAction(r, k));
    }
    WorkOn(g, was, now, i, n, WithTransition(st, x, tokens, k));
  }

  function WithTransition(st: State, x: Symbol, tokens: Bits, k: nat): State {
    match x
    case T(_) => st.(tokenActions := st.tokenActions + [Shift(tokens, k)])
    case N(r) => st.(ruleActions := st.ruleActions + [RuleAction(r, k)])
  }

  method Singleton(x: Symbol) returns (tokens: Bits)
    ensures x.T? ==> Elems(tokens) == {x.tok}
  {
    var bits := TokenSetInit();
    if x.T? {
      TokenSetInsert(bits, x.tok);
    }
    tokens := bits[..];
  }

  /** Enters the state reached by the moved leads and records the transition. */
  method ServeTransition(g: Grammar, states: Array<State>, ghost was: seq<State>, i: nat, ghost n: nat,
                         x: Symbol, shiftLeads: Array<Lead>)
    requires Proper(g) && states.Valid() && Working(g, was, states.Contents(), i, n)
    requires n < |states.Contents()[i].leads| && LeadSymbol(g, states.Contents()[i].leads[n]) == Some(x)
    requires !Seen(g, states.Contents()[i].leads, n, Some(x))
    requires shiftLeads.Valid()
    requires shiftLeads.Contents() == Stepped(WithSymbol(g, states.Contents()[i].leads, Some(x)))
    modifies states, states.items, shiftLeads, shiftLeads.items
    ensures states.Valid() && (states.items == old(states.items) || fresh(states.items))
    ensures Working(g, was, states.Contents(), i, n + 1)
    ensures Extends(old(states.Contents()), states.Contents())
  {
    hide Explored, DoneUpTo;
    ghost var now := states.Contents();
    var tokens := Singleton(x);
    StepOver(g, now[i].leads, n, x);
    CloseLeads(g, shiftLeads);
    CloseOk(g, Advance(g, ItemsOf(now[i].leads), x), shiftLeads.Contents());
    var k := EnterState(g, states, i, x, shiftLeads.items[..shiftLeads.size]);
    ghost var next := states.Contents();
    WorkWithMore(g, was, now, next, i, n);
    OneTransition(g, was, next, i, n, tokens, k);
    states.Set(i, WithTransition(states.Get(i), x, tokens, k));
    assert Extends(now, states.Contents());
  }

  lemma {:induction false} StepOver(g: Grammar, leads: seq<Lead>, n: nat, x: Symbol)
    requires n < |leads| && LeadSymbol(g, leads[n]) == Some(x)
    ensures Stepped(WithSymbol(g, leads, Some(x))) != [] && AllOk(g, Stepped(WithSymbol(g, leads, Some(x))))
    ensures ItemsOf(Stepped(WithSymbol(g, leads, Some(x)))) == Advance(g, ItemsOf(leads), x) != {}
  {
    WithSymbolMembers(g, leads, Some(x));
    assert leads[n] in WithSymbol(g, leads, Some(x));
    SteppedItems(g, leads, x);
    SteppedOk(g, leads, x);
    NoItemsIff(Stepped(WithSymbol(g, leads, Some(x))));
  }

  lemma {:induction false} CloseOk(g: Grammar, kernel: set<Item>, leads: seq<Lead>)
    requires IsClosure(g, kernel, ItemsOf(leads)) && forall it :: it in kernel ==> ItemOk(g, it)
    ensures AllOk(g, leads)
  {
    ItemsOk(g, kernel, ItemsOf(leads));
    forall lead | lead in leads
      ensures LeadOk(g, lead)
    {
      assert ItemAt(lead, BARE) in ItemsOf(leads);
    }
  }

  /** The exploration of state i, whose leads are copied, before lead n. */
  ghost predicate Exploring(g: Grammar, was: seq<State>, now: seq<State>, i: nat, n: nat, leads: seq<Lead>,
        handled: seq<bool>) {
    Working(g, was, now, i, n) && now[i].leads == leads && HandledOk(g, leads, n, handled)
  }

  /** Serves every lead with the symbol of lead n. */
  method ServeGroup(g: Grammar, states: Array<State>, ghost was: seq<State>, i: nat, n: nat,
                    leads: seq<Lead>, handled: array<bool>) returns (ok: bool)
    requires Proper(g) && states.Valid() && n < |leads|
    requires Exploring(g, was, states.Contents(), i, n, leads, handled[..]) && !handled[n]
    modifies states, states.items, handled
    ensures states.Valid() && (states.items == old(states.items) || fresh(states.items))
    ensures ok ==> Exploring(g, was, states.Contents(), i, n + 1, leads, handled[..])
    ensures Explored(g, states.Contents()) && Extends(was, states.Contents())
    ensures !ok ==> ReduceConflict(g, states.Contents()[i])
  {
    ghost var now := states.Contents();
    assert !Seen(g, leads, n, LeadSymbol(g, leads[n]));
    var shiftLeads, reduceLeads := CollectGroup(g, leads, n, handled);
    match LeadSymbol(g, leads[n]) {
      case None =>
        ok := ServeReductions(g, states, was, i, n, reduceLeads);
      case Some(x) =>
        ServeTransition(g, states, was, i, n, x, shiftLeads);
        ok := true;
    }
    ExtendsTransitive(was, now, states.Contents());
  }

  lemma {:induction false} StartExploring(g: Grammar, ss: seq<State>, i: nat, handled: seq<bool>)
    requires Explored(g, ss) && i < |ss| && Untouched(ss[i])
    requires |handled| == |ss[i].leads| && forall k :: 0 <= k < |handled| ==> !handled[k]
    ensures Exploring(g, ss, ss, i, 0, ss[i].leads, handled)
  {
  }

  lemma {:induction false} ExploreHandled(g: Grammar, was: seq<State>, now: seq<State>, i: nat, n: nat,
          leads: seq<Lead>, handled: seq<bool>)
    requires Exploring(g, was, now, i, n, leads, handled) && n < |leads| && handled[n]
    ensures Exploring(g, was, now, i, n + 1, leads, handled)
  {
    ServedBefore(g, Sets(now), now[i], n);
    SeenNext(g, leads, n, None);
    HandledNext(g, leads, n, handled);
  }

  /** Gives state i its actions, discovering the states they lead to. */
  method GatherState(g: Grammar, states: Array<State>, i: nat) returns (ok: bool)
    requires Proper(g) && states.Valid() && Explored(g, states.Contents())
    requires i < states.size && Untouched(states.Contents()[i])
    modifies states, states.items
    ensures states.Valid() && (states.items == old(states.items) || fresh(states.items))
    ensures Explored(g, states.Contents()) && Extends(old(states.Contents()), states.Contents())
    ensures ok ==> Working(g, old(states.Contents()), states.Contents(), i, |states.Contents()[i].leads|)
    ensures !ok ==> ReduceConflict(g, states.Contents()[i])
  {
    hide Exploring, Explored, DoneUpTo, Extends;
    ghost var was := states.Contents();
    var leads := states.Get(i).leads;
    var handled := new bool[|leads|](_ => false);
    StartExploring(g, was, i, handled[..]);
    var n := 0;
    while n < |leads|
      invariant n <= |leads| && handled.Length == |leads|
      invariant states.Valid() && (states.items == old(states.items) || fresh(states.items))
      invariant Exploring(g, was, states.Contents(), i, n, leads, handled[..])
    {
      if handled[n] {
        ExploreHandled(g, was, states.Contents(), i, n, leads, handled[..]);
      } else {
        ok := ServeGroup(g, states, was, i, n, leads, handled);
        if !ok {
          return;
        }
      }
      n := n + 1;
    }
    ok := true;
    ExploringIsWorking(g, was, states.Contents(), i, n, leads, handled[..]);
  }

  lemma {:induction false} ExploringIsWorking(g: Grammar, was: seq<State>, now: seq<State>, i: nat, n: nat,
          leads: seq<Lead>, handled: seq<bool>)
    requires Exploring(g, was, now, i, n, leads, handled)
    ensures Working(g, was, now, i, n) && i < |now| && now[i].leads == leads && Explored(g, now) && Extends(was, now)
  {
  }

  lemma {:induction false} ExtendsTransitive(s: seq<State>, t: seq<State>, u: seq<State>)
    requires Extends(s, t) && Extends(t, u)
    ensures Extends(s, u)
  {
    forall j | 0 <= j < |s|
      ensures u[j].leads == s[j].leads
    {
      assert t[j].leads == s[j].leads;
    }
  }

  lemma {:induction false} HandledNext(g: Grammar, leads: seq<Lead>, n: nat, handled: seq<bool>)
    requires n < |leads| && HandledOk(g, leads, n, handled) && handled[n]
    ensures HandledOk(g, leads, n + 1, handled)
  {
    forall k | 0 <= k < |leads|
      ensures handled[k] <==> Seen(g, leads, n + 1, LeadSymbol(g, leads[k]))
    {
      SeenNext(g, leads, n, LeadSymbol(g, leads[k]));
    }
  }

  // -------------------------------------------------------------------- termination

  ghost function AllLooks(): set<int> {
    set b | BARE <= b < CAPACITY && IsLook(b)
  }

  predicate IsLook(b: int) { BARE <= b < CAPACITY }

  /** Every item that can ever occur. */
  ghost function AllItems(g: Grammar): set<Item> {
    set r: nat, v: nat, p: nat, b: int
      | 0 <= r < |g.rules| && 0 <= v < |g.rules[r]| && 0 <= p <= |g.rules[r][v]| && b in AllLooks()
      :: Item(r, v, p, b)
  }

  ghost function ItemSets(g: Grammar): set<set<Item>> {
    set s | s <= AllItems(g)
  }

  ghost function KnownSets(ss: seq<State>): set<set<Item>> {
    set st | st in ss :: ItemsOf(st.leads)
  }

  lemma {:induction false} ItemsWithin(g: Grammar, leads: seq<Lead>)
    requires AllOk(g, leads)
    ensures ItemsOf(leads) in ItemSets(g)
  {
    forall it | it in ItemsOf(leads)
      ensures it in AllItems(g)
    {
      var lead, look :| lead in leads && look in Looks(lead) && it == ItemAt(lead, look);
      assert LeadOk(g, lead) && IsLook(look);
    }
  }

  /** New states use up part of the finitely many item sets. */
  lemma {:induction false} NewStatesShrink(g: Grammar, was: seq<State>, now: seq<State>)
    requires Explored(g, now) && Extends(was, now) && |was| < |now|
    ensures ItemSets(g) - KnownSets(now) < ItemSets(g) - KnownSets(was)
  {
    var st := now[|was|];
    ItemsWithin(g, st.leads);
    forall j | 0 <= j < |was|
      ensures ItemsOf(was[j].leads) != ItemsOf(st.leads)
    {
      assert now[j].leads == was[j].leads;
      CanonicalIsUnique(now[j].leads, st.leads);
    }
    assert ItemsOf(st.leads) !in KnownSets(was);
    assert st in now && ItemsOf(st.leads) in KnownSets(now);
    forall s | s in KnownSets(was)
      ensures s in KnownSets(now)
    {
      var w :| w in was && ItemsOf(w.leads) == s;
      var j :| 0 <= j < |was| && was[j] == w;
      assert now[j] in now;
    }
  }

  // ------------------------------------------------------------ exploring all states

  ghost predicate AllDone(g: Grammar, ss: seq<State>, lo: nat, hi: nat) {
    forall j :: lo <= j < hi && j < |ss| ==> Done(g, Sets(ss), ss[j])
  }

  ghost predicate AllUntouched(ss: seq<State>, lo: nat, hi: nat) {
    forall j :: lo <= j < hi && j < |ss| ==> Untouched(ss[j])
  }

  ghost predicate SameBefore(was: seq<State>, now: seq<State>, n: nat) {
    n <= |was| && n <= |now| && was[..n] == now[..n]
  }

  /** The states from `index` to i are done, later ones untouched, earlier ones kept. */
  ghost predicate Swept(g: Grammar, was: seq<State>, now: seq<State>, index: nat, i: nat) {
    && index <= i <= |was| && Explored(g, now) && Extends(was, now)
    && AllDone(g, now, index, i) && AllUntouched(now, i, |now|)
    && SameBefore(was, now, index)
  }

  lemma {:induction false} SweepOne(g: Grammar, was: seq<State>, now: seq<State>, next: seq<State>, index: nat, i: nat)
    requires Swept(g, was, now, index, i) && i < |was|
    requires i < |next| && Working(g, now, next, i, |next[i].leads|)
    ensures Swept(g, was, next, index, i + 1)
  {
    ExtendsSets(now, next);
    forall j | index <= j < i + 1
      ensures Done(g, Sets(next), next[j])
    {
      if j < i {
        DoneMonotone(g, Sets(now), Sets(next), now[j], |now[j].leads|);
      }
    }
    assert forall j :: 0 <= j < |was| ==> next[j].leads == now[j].leads == was[j].leads;
  }

  lemma {:induction false} SweepRest(g: Grammar, was: seq<State>, now: seq<State>, end: seq<State>, index: nat, i: nat)
    requires Swept(g, was, now, index, i)
    requires AllDone(g, end, |was|, |end|) && Extends(now, end) && SameBefore(now, end, |was|)
    ensures AllDone(g, end, index, i) && Extends(was, end) && SameBefore(was, end, index)
  {
    ExtendsSets(now, end);
    forall j | index <= j < i
      ensures Done(g, Sets(end), end[j])
    {
      assert end[j] == end[..|was|][j] == now[..|was|][j] == now[j];
      DoneMonotone(g, Sets(now), Sets(end), now[j], |now[j].leads|);
    }
    assert was[..index] == now[..index] == now[..|was|][..index] == end[..|was|][..index];
    assert forall j :: 0 <= j < |was| ==> end[j].leads == now[j].leads == was[j].leads;
  }

  lemma {:induction false} DoneJoined(g: Grammar, ss: seq<State>, lo: nat, mid: nat, hi: nat)
    requires AllDone(g, ss, lo, mid) && AllDone(g, ss, mid, hi)
    ensures AllDone(g, ss, lo, hi)
  {
  }

  /** Gives the `length` states from `index` on their actions, and then every state
      this discovers; fails on a reduce-reduce conflict. */
  method GatherStates(g: Grammar, states: Array<State>, index: nat, length: nat) returns (ok: bool)
    requires Proper(g) && states.Valid() && Explored(g, states.Contents())
    requires index < states.size && index + length <= states.size
    requires AllUntouched(states.Contents(), index, states.size)
    modifies states, states.items
    ensures states.Valid() && (states.items == old(states.items) || fresh(states.items))
    ensures Explored(g, states.Contents()) && Extends(old(states.Contents()), states.Contents())
    ensures SameBefore(old(states.Contents()), states.Contents(), index) || !ok
    ensures ok ==> AllDone(g, states.Contents(), index, index + length)
    ensures ok ==> AllDone(g, states.Contents(), old(states.size), states.size)
    ensures !ok ==> exists j :: 0 <= j < states.size && ReduceConflict(g, states.Contents()[j])
    decreases ItemSets(g) - KnownSets(states.Contents())
  {
    ghost var was := states.Contents();
    var firstNew := states.size;
    var i := index;
    while i < index + length
      invariant index <= i <= index + length
      invariant states.Valid() && (states.items == old(states.items) || fresh(states.items))
      invariant Swept(g, was, states.Contents(), index, i)
    {
      ghost var now := states.Contents();
      ok := GatherState(g, states, i);
      if !ok {
        ExtendsTransitive(was, now, states.Contents());
        return;
      }
      SweepOne(g, was, now, states.Contents(), index, i);
      i := i + 1;
    }
    ok := true;
    if firstNew < states.size {
      ghost var now := states.Contents();
      NewStatesShrink(g, was, now);
      ok := GatherStates(g, states, firstNew, states.size - firstNew);
      if ok {
        DoneJoined(g, states.Contents(), firstNew, |now|, states.size);
        SweepRest(g, was, now, states.Contents(), index, i);
      } else {
        ExtendsTransitive(was, now, states.Contents());
      }
    }
  }

  /** The initial state of a grammar. */
  method InitialState(g: Grammar) returns (st: State)
    requires Proper(g) && Rooted(g)
    ensures Canonical(st.leads) && AllOk(g, st.leads) && Untouched(st)
    ensures IsClosure(g, StartKernel(g), ItemsOf(st.leads))
  {
    var bits := TokenSetInit();
    TokenSetInsert(bits, TKN_EOF);
    var rootLead := Lead(g.root, 0, 0, bits[..]);
    var leads := new Array<Lead>();
    leads.Add(rootLead);
    StartItems(g, rootLead);
    CloseLeads(g, leads);
    CloseOk(g, StartKernel(g), leads.Contents());
    st := State(leads.items[..leads.size], [], []);
  }

  lemma {:induction false} StartItems(g: Grammar, lead: Lead)
    requires lead.rule == g.root && lead.variant == 0 && lead.position == 0 && Elems(lead.terminals) == {TKN_EOF}
    ensures ItemsOf([lead]) == StartKernel(g)
  {
    assert Looks(lead) == {BARE, TKN_EOF};
    forall it
      ensures it in ItemsOf([lead]) <==> it in StartKernel(g)
    {
      OneLead(lead, it);
    }
  }

  /** States discovered from the initial one. */
  ghost predicate Begun(g: Grammar, ss: seq<State>) {
    ss != [] && Explored(g, ss) && IsClosure(g, StartKernel(g), ItemsOf(ss[0].leads))
  }

  /** The finished automaton of a grammar. */
  ghost predicate Finished(g: Grammar, ss: seq<State>) {
    Begun(g, ss) && AllDone(g, ss, 0, |ss|)
  }

  /** What the generator comes to: a finished automaton, or a state with two complete items. */
  ghost predicate Generated(g: Grammar, ok: bool, ss: seq<State>) {
    if ok then Finished(g, ss) else Begun(g, ss) && exists j :: 0 <= j < |ss| && ReduceConflict(g, ss[j])
  }

  /** The states of the canonical LR(1) automaton, unless some state holds two
      different complete items. */
  method Generate(g: Grammar) returns (ok: bool, ss: seq<State>)
    requires Proper(g) && Rooted(g)
    ensures Generated(g, ok, ss)
  {
    var initial := InitialState(g);
    var states := new Array<State>();
    states.Add(initial);
    ok := GatherStates(g, states, 0, 1);
    ss := states.items[..states.size];
    if ok {
      DoneJoined(g, ss, 0, 1, |ss|);
    }
  }
}
