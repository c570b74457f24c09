/** When the tables are conflict-free: the generator misses a shift and a reduction on the same token. */
module Conflicts {
  import opened Options
  import opened TokenSets
  import opened Grammars
  import opened Items
  import opened Leads
  import opened Expansion
  import opened Automaton
  import opened Exploration
  import opened Tables
  import opened Completeness
  import opened Reached

  // ------------------------------------------------------------------ token sequences

  ghost predicate NoRepeats(s: seq<int>) {
    forall i, j :: 0 <= i < j < |s| ==> s[i] != s[j]
  }

  lemma {:induction false} NoRepeatsConcat(a: seq<int>, b: seq<int>)
    ensures NoRepeats(a + b) <==> NoRepeats(a) && NoRepeats(b) && forall x :: x in a ==> x !in b
  {
    var s := a + b;
    if NoRepeats(s) {
      forall i, j | 0 <= i < j < |b|
        ensures b[i] != b[j]
      {
        assert s[|a| + i] == b[i] && s[|a| + j] == b[j];
      }
      forall x | x in a
        ensures x !in b
      {
        var i :| 0 <= i < |a| && a[i] == x;
        forall j | 0 <= j < |b|
          ensures b[j] != x
        {
          assert s[i] == x && s[|a| + j] == b[j];
        }
      }
      forall i, j | 0 <= i < j < |a|
        ensures a[i] != a[j]
      {
        assert s[i] == a[i] && s[j] == a[j];
      }
    }
    if NoRepeats(a) && NoRepeats(b) && forall x :: x in a ==> x !in b {
      forall i, j | 0 <= i < j < |s|
        ensures s[i] != s[j]
      {
        if i < |a| <= j {
          assert s[i] == a[i] && a[i] in a && s[j] == b[j - |a|] && b[j - |a|] in b;
        }
      }
    }
  }

  lemma {:induction false} TokensBelowMembers(s: Bits, t: nat)
    requires t <= CAPACITY
    ensures NoRepeats(TokensBelow(s, t)) && forall x :: x in TokensBelow(s, t) <==> x in Elems(s) && x < t
  {
    if t > 0 {
      TokensBelowMembers(s, t - 1);
      NoRepeatsConcat(TokensBelow(s, t - 1), if Contains(s, t - 1) then [t - 1] else []);
      assert t - 1 in Elems(s) <==> Contains(s, t - 1);
    }
  }

  ghost predicate Disjoint(acts: seq<TokenAction>) {
    forall k, l :: 0 <= k < l < |acts| ==> Elems(acts[k].tokens) !! Elems(acts[l].tokens)
  }

  lemma {:induction false} ActionTokensMembers(acts: seq<TokenAction>, x: int)
    ensures x in ActionTokens(acts) <==> exists k :: 0 <= k < |acts| && x in Elems(acts[k].tokens)
    decreases |acts|
  {
    hide TokensBelow, NoRepeats, Elems;
    if acts != [] {
      var n := |acts| - 1;
      ActionTokensMembers(acts[..n], x);
      TokensBelowMembers(acts[n].tokens, CAPACITY);
      if k :| 0 <= k < n && x in Elems(acts[k].tokens) {
        assert acts[..n][k] == acts[k];
      }
    }
  }

  /** No token has two entries exactly when the token sets of the actions are disjoint. */
  lemma {:induction false} NoRepeatsIffDisjoint(acts: seq<TokenAction>)
    ensures NoRepeats(ActionTokens(acts)) <==> Disjoint(acts)
    decreases |acts|
  {
    if acts != [] {
      var n := |acts| - 1;
      var front, last := acts[..n], TokensBelow(acts[n].tokens, CAPACITY);
      NoRepeatsIffDisjoint(front);
      TokensBelowMembers(acts[n].tokens, CAPACITY);
      NoRepeatsConcat(ActionTokens(front), last);
      forall x
        ensures x in ActionTokens(front) <==> exists k :: 0 <= k < n && x in Elems(front[k].tokens)
      {
        ActionTokensMembers(front, x);
      }
      DisjointSplit(acts);
    }
  }

  lemma {:induction false} DisjointSplit(acts: seq<TokenAction>)
    requires acts != []
    ensures var n := |acts| - 1;
      Disjoint(acts) <==>
        Disjoint(acts[..n]) && forall k :: 0 <= k < n ==> Elems(acts[..n][k].tokens) !! Elems(acts[n].tokens)
  {
    var n := |acts| - 1;
    assert forall k :: 0 <= k < n ==> acts[..n][k] == acts[k];
  }

  // ------------------------------------------------------------------------- conflicts

  /** The item set calls for a reduction and for a shift on the same token. */
  ghost predicate Clash(g: Grammar, s: set<Item>) {
    exists it, p, t: Token :: it in s && p in s && Complete(g, it) && it.look == t && Next(g, p) == Some(T(t))
  }

  ghost predicate ClashingActions(st: State, k: nat, l: nat) {
    && k < |st.tokenActions| && l < |st.tokenActions| && st.tokenActions[k].Reduce? && st.tokenActions[l].Shift?
    && !(Elems(st.tokenActions[k].tokens) !! Elems(st.tokenActions[l].tokens))
  }

  lemma {:induction false} ShiftTokenIs(g: Grammar, sets: seq<set<Item>>, st: State, k: nat) returns (t: Token)
    requires Done(g, sets, st) && k < |st.tokenActions| && st.tokenActions[k].Shift?
    ensures Elems(st.tokenActions[k].tokens) == {t} && ActsOn(st.tokenActions[k], Some(T(t)))
  {
    var a := st.tokenActions[k];
    assert a in st.tokenActions && ActionSound(g, sets, st.leads, a);
    t :| Elems(a.tokens) == {t} && Transition(g, sets, ItemsOf(st.leads), T(t), a.state);
  }

  lemma {:induction false} ShiftsDisjoint(g: Grammar, sets: seq<set<Item>>, st: State, k: nat, l: nat)
    requires Done(g, sets, st) && k < l < |st.tokenActions| && st.tokenActions[k].Shift? && st.tokenActions[l].Shift?
    ensures Elems(st.tokenActions[k].tokens) !! Elems(st.tokenActions[l].tokens)
  {
    var t := ShiftTokenIs(g, sets, st, k);
    var u := ShiftTokenIs(g, sets, st, l);
    assert NoDuplicates(st);
    assert !ActsOn(st.tokenActions[l], Some(T(t)));
  }

  lemma {:induction false} OneReduction(st: State, k: nat, l: nat)
    requires NoDuplicates(st) && k < l < |st.tokenActions| && st.tokenActions[k].Reduce?
    ensures st.tokenActions[l].Shift?
  {
    assert ActsOn(st.tokenActions[k], None);
    assert !ActsOn(st.tokenActions[l], None);
  }

  /** Two actions of a finished state overlap only if one reduces and the other shifts. */
  lemma {:induction false} OverlapIsClash(g: Grammar, sets: seq<set<Item>>, st: State, k: nat, l: nat)
    requires Done(g, sets, st) && k < l < |st.tokenActions|
    requires !(Elems(st.tokenActions[k].tokens) !! Elems(st.tokenActions[l].tokens))
    ensures ClashingActions(st, k, l) || ClashingActions(st, l, k)
  {
    assert NoDuplicates(st);
    if st.tokenActions[k].Reduce? {
      OneReduction(st, k, l);
    } else if st.tokenActions[l].Shift? {
      ShiftsDisjoint(g, sets, st, k, l);
    }
  }

  lemma {:induction false} ReducedItem(g: Grammar, sets: seq<set<Item>>, st: State, k: nat, t: int) returns (it: Item)
    requires Done(g, sets, st) && AllOk(g, st.leads) && k < |st.tokenActions| && st.tokenActions[k].Reduce?
    requires t in Elems(st.tokenActions[k].tokens)
    ensures it in ItemsOf(st.leads) && Complete(g, it) && it.look == t
  {
    var a := st.tokenActions[k];
    assert a in st.tokenActions && ActionSound(g, sets, st.leads, a);
    var lead :| lead in st.leads && LeadSymbol(g, lead) == None
      && lead.rule == a.rule && lead.variant == a.variant && lead.terminals == a.tokens;
    it := ItemAt(lead, t);
    assert LeadOk(g, lead) && t in Looks(lead);
    NextOfItemAt(g, lead, t);
  }

  lemma {:induction false} ShiftedItem(g: Grammar, sets: seq<set<Item>>, st: State, k: nat, t: Token) returns (p: Item)
    requires Done(g, sets, st) && k < |st.tokenActions| && ActsOn(st.tokenActions[k], Some(T(t)))
    ensures p in ItemsOf(st.leads) && Next(g, p) == Some(T(t))
  {
    assert OnlySeen(g, st, |st.leads|);
    assert Seen(g, st.leads, |st.leads|, Some(T(t)));
    var m :| 0 <= m < |st.leads| && LeadSymbol(g, st.leads[m]) == Some(T(t));
    NextOfItemAt(g, st.leads[m], BARE);
    p := ItemAt(st.leads[m], BARE);
  }

  lemma {:induction false} ClashOfActions(g: Grammar, ss: seq<State>, s: nat, k: nat, l: nat)
    requires s < |ss| && Done(g, Sets(ss), ss[s]) && AllOk(g, ss[s].leads) && ClashingActions(ss[s], k, l)
    ensures Clash(g, Sets(ss)[s])
  {
    var st := ss[s];
    var t := ShiftTokenIs(g, Sets(ss), st, l);
    var x :| x in Elems(st.tokenActions[k].tokens) && x in Elems(st.tokenActions[l].tokens);
    assert x in {t};
    hide Done, ActsOn, Elems, Next, Complete, ItemsOf;
    var it := ReducedItem(g, Sets(ss), st, k, t);
    var p := ShiftedItem(g, Sets(ss), st, l, t);
    assert Sets(ss)[s] == ItemsOf(st.leads);
  }

  lemma {:induction false} ReductionOfItem(g: Grammar, sets: seq<set<Item>>, st: State, it: Item) returns (k: nat)
    requires Done(g, sets, st) && it in ItemsOf(st.leads) && Complete(g, it) && it.look >= 0
    ensures k < |st.tokenActions| && st.tokenActions[k].Reduce? && it.look in Elems(st.tokenActions[k].tokens)
  {
    var lead, look :| lead in st.leads && look in Looks(lead) && it == ItemAt(lead, look);
    NextOfItemAt(g, lead, look);
    var m :| 0 <= m < |st.leads| && st.leads[m] == lead;
    assert LeadServed(g, st, m);
    hide Done, OnlySeen, NoDuplicates, ActionSound;
    k :| 0 <= k < |st.tokenActions| && st.tokenActions[k] == Reduce(lead.terminals, lead.rule, lead.variant);
  }

  lemma {:induction false} ShiftOfItem(g: Grammar, sets: seq<set<Item>>, st: State, p: Item, t: Token) returns (l: nat)
    requires Done(g, sets, st) && p in ItemsOf(st.leads) && Next(g, p) == Some(T(t))
    ensures l < |st.tokenActions| && st.tokenActions[l].Shift? && Elems(st.tokenActions[l].tokens) == {t}
  {
    var n := AdvancedLead(g, st.leads, T(t), p);
    assert LeadServed(g, st, n);
    var b :| b in st.tokenActions && b.Shift? && Elems(b.tokens) == {t};
    l :| 0 <= l < |st.tokenActions| && st.tokenActions[l] == b;
  }

  lemma {:induction false} ActionsOfClash(g: Grammar, ss: seq<State>, s: nat) returns (k: nat, l: nat)
    requires s < |ss| && Done(g, Sets(ss), ss[s]) && Clash(g, Sets(ss)[s])
    ensures ClashingActions(ss[s], k, l)
  {
    var it, p, t: Token :| it in Sets(ss)[s] && p in Sets(ss)[s]
      && Complete(g, it) && it.look == t && Next(g, p) == Some(T(t));
    assert Sets(ss)[s] == ItemsOf(ss[s].leads);
    hide Done, Elems, Next, Complete, ItemsOf;
    k := ReductionOfItem(g, Sets(ss), ss[s], it);
    l := ShiftOfItem(g, Sets(ss), ss[s], p, t);
  }

  lemma {:induction false} StateDisjointIff(g: Grammar, ss: seq<State>, s: nat)
    requires s < |ss| && Done(g, Sets(ss), ss[s]) && AllOk(g, ss[s].leads)
    ensures Disjoint(ss[s].tokenActions) <==> !Clash(g, Sets(ss)[s])
  {
    var acts := ss[s].tokenActions;
    if Clash(g, Sets(ss)[s]) {
      var k, l := ActionsOfClash(g, ss, s);
      if k < l {
        assert !(Elems(acts[k].tokens) !! Elems(acts[l].tokens));
      } else {
        assert !(Elems(acts[l].tokens) !! Elems(acts[k].tokens));
      }
    }
    if k, l :| 0 <= k < l < |acts| && !(Elems(acts[k].tokens) !! Elems(acts[l].tokens)) {
      OverlapIsClash(g, Sets(ss), ss[s], k, l);
      if ClashingActions(ss[s], k, l) {
        ClashOfActions(g, ss, s, k, l);
      } else {
        ClashOfActions(g, ss, s, l, k);
      }
    }
  }

  /** The tables are conflict-free exactly when no state of the canonical automaton calls
      for a shift and a reduction on the same token. */
  lemma {:induction false} ConflictFreeIffNoClash(g: Grammar, ss: seq<State>, table: seq<ParserState>)
    requires Finished(g, ss) && TokensAsActions(ss, table)
    ensures ConflictFree(table) <==> forall s :: 0 <= s < |ss| ==> !Clash(g, Sets(ss)[s])
  {
    forall s | 0 <= s < |ss|
      ensures NoRepeats(Expected(table[s].actions)) <==> !Clash(g, Sets(ss)[s])
    {
      StateDone(g, ss, s);
      NoRepeatsIffDisjoint(ss[s].tokenActions);
      StateDisjointIff(g, ss, s);
    }
    RepeatsAreConflicts(table);
  }

  lemma {:induction false} RepeatsAreConflicts(table: seq<ParserState>)
    ensures ConflictFree(table) <==> forall s :: 0 <= s < |table| ==> NoRepeats(Expected(table[s].actions))
  {
    forall s | 0 <= s < |table|
      ensures NoRepeats(Expected(table[s].actions)) <==>
        forall i, j :: 0 <= i < j < |table[s].actions| ==> table[s].actions[i].token != table[s].actions[j].token
    {
      var e := Expected(table[s].actions);
      assert forall i :: 0 <= i < |e| ==> e[i] == table[s].actions[i].token;
    }
  }
}
