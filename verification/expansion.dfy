/** The closure of a lead array: leads are appended until every lead with a rule after
    its dot finds its expansions in the array. Leads are expanded as whole token
    sets, before they are merged; at the level of single lookaheads the result is
    the least closure all the same. */
module Expansion {
  import opened Options
  import opened Arrays
  import opened TokenSets
  import opened Grammars
  import opened First
  import opened Items
  import opened Leads

  /** The whole lookahead set that a lead hands to its expansions. */
  ghost function FollowTokens(g: Grammar, lead: Lead): set<int>
    requires LeadSymbol(g, lead).Some?
  {
    var rhs := Rhs(g, lead.rule, lead.variant);
    if lead.position + 1 < |rhs| then FirstSet(g, rhs[lead.position + 1]) else Elems(lead.terminals)
  }

  ghost predicate ExpandsLead(g: Grammar, lead: Lead, e: Lead) {
    && LeadSymbol(g, lead) == Some(N(e.rule)) && e.position == 0
    && IsVariant(g, e.rule, e.variant) && Elems(e.terminals) == FollowTokens(g, lead)
  }

  ghost predicate HasExpansion(g: Grammar, lead: Lead, s: seq<Lead>, variant: nat) {
    exists e :: e in s && ExpandsLead(g, lead, e) && e.variant == variant
  }

  /** The expansions of `lead` into the first n variants of the rule after its dot are in s. */
  ghost predicate ExpandedUpTo(g: Grammar, lead: Lead, s: seq<Lead>, r: nat, n: nat) {
    forall v: nat :: v < n && IsVariant(g, r, v) ==> HasExpansion(g, lead, s, v)
  }

  /** All expansions of `lead` are in s. */
  ghost predicate Expanded(g: Grammar, lead: Lead, s: seq<Lead>) {
    forall r: nat :: LeadSymbol(g, lead) == Some(N(r)) && r < |g.rules|
      ==> ExpandedUpTo(g, lead, s, r, |g.rules[r]|)
  }

  lemma {:induction false} ExpansionPresent(g: Grammar, lead: Lead, s: seq<Lead>, e: Lead)
    requires Expanded(g, lead, s) && ExpandsLead(g, lead, e)
    ensures e in s
  {
    assert HasExpansion(g, lead, s, e.variant);
    var f :| f in s && ExpandsLead(g, lead, f) && f.variant == e.variant;
    ElemsInjective(e.terminals, f.terminals);
  }

  ghost predicate LeadsClosed(g: Grammar, s: set<Lead>) {
    forall lead, e :: lead in s && ExpandsLead(g, lead, e) ==> e in s
  }

  ghost predicate Within(leads: seq<Lead>, c: set<Lead>) {
    forall lead :: lead in leads ==> lead in c
  }

  /** Every closed set of leads around `from` contains `to`. */
  ghost predicate Forced(g: Grammar, from: seq<Lead>, to: seq<Lead>) {
    forall c :: LeadsClosed(g, c) && Within(from, c) ==> Within(to, c)
  }

  ghost predicate AllOk(g: Grammar, leads: seq<Lead>) {
    forall lead :: lead in leads ==> LeadOk(g, lead)
  }

  // ------------------------------------------------------- from leads to their items

  lemma {:induction false} ExpansionItems(g: Grammar, lead: Lead, e: Lead)
    requires ExpandsLead(g, lead, e)
    ensures forall it :: it in ItemsOf([e]) ==> exists p :: p in ItemsOf([lead]) && Expands(g, p, it)
  {
    forall it | it in ItemsOf([e])
      ensures exists p :: p in ItemsOf([lead]) && Expands(g, p, it)
    {
      assert it == ItemAt(e, it.look) && it.look in Looks(e);
      var last := lead.position + 1 == |Rhs(g, lead.rule, lead.variant)|;
      var p := ItemAt(lead, if last then it.look else BARE);
      assert p in ItemsOf([lead]) && Expands(g, p, it);
    }
  }

  lemma {:induction false} ItemExpansion(g: Grammar, lead: Lead, e: Lead, p: Item, it: Item)
    requires p in ItemsOf([lead]) && Expands(g, p, it)
    requires ExpandsLead(g, lead, e) && e.rule == it.rule && e.variant == it.variant
    ensures it in ItemsOf([e])
  {
    assert it.look in Looks(e);
    assert it == ItemAt(e, it.look);
  }

  /** The items of a least closed lead array form the LR(1) closure of the kernel's
      items, although whole lookahead sets were handed on at a time. */
  lemma {:induction false} ItemsOfClosure(g: Grammar, kernel: seq<Lead>, s: seq<Lead>)
    requires forall lead :: lead in kernel ==> lead in s
    requires forall lead :: lead in s ==> Expanded(g, lead, s)
    requires Forced(g, kernel, s)
    ensures IsClosure(g, ItemsOf(kernel), ItemsOf(s))
  {
    forall p, it | p in ItemsOf(s) && Expands(g, p, it)
      ensures it in ItemsOf(s)
    {
      var lead, look :| lead in s && look in Looks(lead) && p == ItemAt(lead, look);
      assert p in ItemsOf([lead]);
      assert Expanded(g, lead, s) && HasExpansion(g, lead, s, it.variant);
      var e :| e in s && ExpandsLead(g, lead, e) && e.variant == it.variant;
      ItemExpansion(g, lead, e, p, it);
    }
    forall c | ItemsOf(kernel) <= c && Closed(g, c)
      ensures ItemsOf(s) <= c
    {
      ForcedItems(g, kernel, s, c);
    }
  }

  lemma {:induction false} ForcedItems(g: Grammar, kernel: seq<Lead>, s: seq<Lead>, c: set<Item>)
    requires Forced(g, kernel, s) && ItemsOf(kernel) <= c && Closed(g, c)
    requires forall lead :: lead in kernel ==> lead in s
    requires forall lead :: lead in s ==> Expanded(g, lead, s)
    ensures ItemsOf(s) <= c
  {
    var d := set lead | lead in s && ItemsOf([lead]) <= c;
    forall lead, e | lead in d && ExpandsLead(g, lead, e)
      ensures e in d
    {
      ExpansionPresent(g, lead, s, e);
      ExpansionItems(g, lead, e);
    }
    forall lead | lead in kernel
      ensures lead in d
    {
      forall it | it in ItemsOf([lead])
        ensures it in c
      {
        assert it in ItemsOf(kernel);
      }
    }
    assert LeadsClosed(g, d) && Within(kernel, d);
    forall it | it in ItemsOf(s)
      ensures it in c
    {
      var lead, look :| lead in s && look in Looks(lead) && it == ItemAt(lead, look);
      assert lead in d;
      assert it in ItemsOf([lead]);
    }
  }

  // -------------------------------------------------------------------- termination

  /** A lead with its bit pattern replaced by the set it denotes. */
  datatype AbstractLead = AbstractLead(rule: nat, variant: nat, position: nat, tokens: set<int>)

  ghost function Abstract(lead: Lead): AbstractLead {
    AbstractLead(lead.rule, lead.variant, lead.position, Elems(lead.terminals))
  }

  ghost function AllTokens(): set<int> {
    set t | 0 <= t < CAPACITY && IsCapacityToken(t)
  }

  predicate IsCapacityToken(t: int) { 0 <= t < CAPACITY }

  /** Everything that can ever be appended. */
  ghost function Universe(g: Grammar): set<AbstractLead> {
    set r: nat, v: nat, ts: set<int> | 0 <= r < |g.rules| && 0 <= v < |g.rules[r]| && ts <= AllTokens()
      :: AbstractLead(r, v, 0, ts)
  }

  ghost function Known(leads: seq<Lead>): set<AbstractLead> {
    set lead | lead in leads :: Abstract(lead)
  }

  lemma {:induction false} AbstractInjective(a: Lead, b: Lead)
    ensures Abstract(a) == Abstract(b) <==> a == b
  {
    ElemsInjective(a.terminals, b.terminals);
  }

  /** Appending leads not seen before uses up part of the universe. */
  lemma {:induction false} NewLeadsShrink(g: Grammar, was: seq<Lead>, added: seq<Lead>)
    requires added != []
    requires forall e :: e in added ==> e !in was && IsVariant(g, e.rule, e.variant) && e.position == 0
    ensures Universe(g) - Known(was + added) < Universe(g) - Known(was)
  {
    var e := added[0];
    forall lead | lead in was
      ensures Abstract(lead) != Abstract(e)
    {
      AbstractInjective(lead, e);
    }
    assert Elems(e.terminals) <= AllTokens();
    assert Abstract(e) in Universe(g) && Abstract(e) !in Known(was);
    assert e in was + added && Abstract(e) in Known(was + added);
    forall a | a in Known(was)
      ensures a in Known(was + added)
    {
      var lead :| lead in was && Abstract(lead) == a;
      assert lead in was + added;
    }
  }

  // ------------------------------------------------------------------ the procedures

  method ComputeFollow(g: Grammar, lead: Lead) returns (follow: Bits)
    requires Proper(g) && LeadSymbol(g, lead).Some?
    ensures Elems(follow) == FollowTokens(g, lead)
  {
    var bits := TokenSetInit();
    if lead.position + 1 == |Rhs(g, lead.rule, lead.variant)| {
      TokenSetMerge(bits, lead.terminals);
    } else {
      var tn := Rhs(g, lead.rule, lead.variant)[lead.position + 1];
      GatherFirst(g, bits, tn, Bottom);
      SearchFindsFirst(g, tn);
    }
    follow := bits[..];
  }

  method FindLead(leads: Array<Lead>, nl: Lead) returns (m: nat)
    requires leads.Valid()
    ensures m <= leads.size
    ensures m == leads.size <==> nl !in leads.Contents()
  {
    m := 0;
    while m < leads.size
      invariant m <= leads.size && nl !in leads.Contents()[..m]
    {
      var equal := EqualLeads(leads.Get(m), nl);
      if equal {
        return;
      }
      assert leads.Contents()[..m + 1] == leads.Contents()[..m] + [leads.Contents()[m]];
      m := m + 1;
    }
    assert leads.Contents()[..m] == leads.Contents();
  }

  /** The leads added since the contents were `was` are new expansions of `lead`. */
  ghost predicate AddsExpansions(g: Grammar, lead: Lead, was: seq<Lead>, now: seq<Lead>) {
    was <= now && forall e :: e in now[|was|..] ==> e !in was && ExpandsLead(g, lead, e)
  }

  lemma {:induction false} AddExpansion(g: Grammar, lead: Lead, was: seq<Lead>, now: seq<Lead>, e: Lead, r: nat, v: nat)
    requires AddsExpansions(g, lead, was, now) && ExpandedUpTo(g, lead, now, r, v)
    requires ExpandsLead(g, lead, e) && e.variant == v && e.rule == r
    ensures AddsExpansions(g, lead, was, if e in now then now else now + [e])
    ensures ExpandedUpTo(g, lead, if e in now then now else now + [e], r, v + 1)
  {
    var next := if e in now then now else now + [e];
    assert next[|was|..] == if e in now then now[|was|..] else now[|was|..] + [e];
    assert forall x :: x in was ==> x in now;
    forall u: nat | u < v + 1 && IsVariant(g, r, u)
      ensures HasExpansion(g, lead, next, u)
    {
      if u < v {
        assert HasExpansion(g, lead, now, u);
        var f :| f in now && ExpandsLead(g, lead, f) && f.variant == u;
        assert f in next;
      } else {
        assert e in next;
      }
    }
  }

  /** Appends the missing expansions of the lead at index i. */
  method ExpandLead(g: Grammar, leads: Array<Lead>, i: nat)
    requires Proper(g) && leads.Valid() && i < leads.size && LeadOk(g, leads.Contents()[i])
    modifies leads, leads.items
    ensures leads.Valid() && (leads.items == old(leads.items) || fresh(leads.items))
    ensures AddsExpansions(g, old(leads.Contents())[i], old(leads.Contents()), leads.Contents())
    ensures Expanded(g, old(leads.Contents())[i], leads.Contents())
  {
    ghost var was := leads.Contents();
    var lead := leads.Get(i);
    var tc := LeadSymbol(g, lead);
    if tc.None? || tc.value.T? {
      return;
    }
    var r := tc.value.rule;
    var follow := ComputeFollow(g, lead);
    assert r < |g.rules| by {
      assert SymbolOk(g, Rhs(g, lead.rule, lead.variant)[lead.position]);
    }
    for v := 0 to |g.rules[r]|
      invariant leads.Valid() && (leads.items == old(leads.items) || fresh(leads.items))
      invariant AddsExpansions(g, lead, was, leads.Contents())
      invariant ExpandedUpTo(g, lead, leads.Contents(), r, v)
    {
      var nl := Lead(r, v, 0, follow);
      assert IsVariant(g, r, v);
      AddExpansion(g, lead, was, leads.Contents(), nl, r, v);
      var m := FindLead(leads, nl);
      if m == leads.size {
        leads.Add(nl);
      }
    }
  }

  // Progress of the closure: what was appended, and which leads are dealt with.

  ghost predicate AddedLead(g: Grammar, was: seq<Lead>, e: Lead) {
    e !in was && IsVariant(g, e.rule, e.variant) && e.position == 0
  }

  ghost predicate Grown(g: Grammar, was: seq<Lead>, now: seq<Lead>) {
    && was <= now && Forced(g, was, now)
    && forall e :: e in now[|was|..] ==> AddedLead(g, was, e)
  }

  ghost predicate ExpandedRange(g: Grammar, s: seq<Lead>, lo: nat, hi: nat) {
    forall j :: lo <= j < hi && j < |s| ==> Expanded(g, s[j], s)
  }

  lemma {:induction false} ExpandedMonotone(g: Grammar, lead: Lead, s: seq<Lead>, t: seq<Lead>)
    requires Expanded(g, lead, s) && s <= t
    ensures Expanded(g, lead, t)
  {
    forall r: nat, v: nat | LeadSymbol(g, lead) == Some(N(r)) && IsVariant(g, r, v)
      ensures HasExpansion(g, lead, t, v)
    {
      assert ExpandedUpTo(g, lead, s, r, |g.rules[r]|);
      assert HasExpansion(g, lead, s, v);
      var e :| e in s && ExpandsLead(g, lead, e) && e.variant == v;
      assert e in t;
    }
  }

  lemma {:induction false} RangeMonotone(g: Grammar, s: seq<Lead>, t: seq<Lead>, lo: nat, hi: nat)
    requires ExpandedRange(g, s, lo, hi) && hi <= |s| && s <= t
    ensures ExpandedRange(g, t, lo, hi)
  {
    forall j | lo <= j < hi
      ensures Expanded(g, t[j], t)
    {
      ExpandedMonotone(g, s[j], s, t);
    }
  }

  lemma {:induction false} GrownByExpansions(g: Grammar, was: seq<Lead>, now: seq<Lead>, next: seq<Lead>, lead: Lead)
    requires Grown(g, was, now) && lead in now && AddsExpansions(g, lead, now, next)
    ensures Grown(g, was, next)
  {
    forall e | e in next[|was|..]
      ensures AddedLead(g, was, e)
    {
      assert forall x :: x in was ==> x in now;
      assert next[|was|..] == now[|was|..] + next[|now|..];
    }
    forall c | LeadsClosed(g, c) && Within(was, c)
      ensures Within(next, c)
    {
      assert Within(now, c);
      assert next == now + next[|now|..];
    }
  }

  lemma {:induction false} GrownTransitive(g: Grammar, s: seq<Lead>, t: seq<Lead>, u: seq<Lead>)
    requires Grown(g, s, t) && Grown(g, t, u)
    ensures Grown(g, s, u)
  {
    forall e | e in u[|s|..]
      ensures AddedLead(g, s, e)
    {
      assert u[|s|..] == t[|s|..] + u[|t|..];
      assert forall x :: x in s ==> x in t;
    }
    forall c | LeadsClosed(g, c) && Within(s, c)
      ensures Within(u, c)
    {
      assert Within(t, c);
    }
  }

  /** The loop state of the closure when the leads from `index` to i are expanded. */
  ghost predicate Gathered(g: Grammar, was: seq<Lead>, now: seq<Lead>, index: nat, i: nat) {
    Grown(g, was, now) && AllOk(g, now) && i <= |was| && ExpandedRange(g, now, index, i)
  }

  lemma {:induction false} GatherOne(g: Grammar, was: seq<Lead>, now: seq<Lead>, next: seq<Lead>, index: nat, i: nat)
    requires Gathered(g, was, now, index, i) && i < |was|
    requires AddsExpansions(g, now[i], now, next) && Expanded(g, now[i], next)
    ensures Gathered(g, was, next, index, i + 1)
  {
    GrownByExpansions(g, was, now, next, now[i]);
    RangeMonotone(g, now, next, index, i);
    assert next == now + next[|now|..];
  }

  lemma {:induction false} GatherRest(g: Grammar, was: seq<Lead>, now: seq<Lead>, end: seq<Lead>, index: nat, i: nat)
    requires Gathered(g, was, now, index, i) && Grown(g, now, end)
    requires ExpandedRange(g, end, |was|, |now|) && ExpandedRange(g, end, |now|, |end|)
    ensures Grown(g, was, end)
    ensures ExpandedRange(g, end, index, i) && ExpandedRange(g, end, |was|, |end|)
  {
    GrownTransitive(g, was, now, end);
    RangeMonotone(g, now, end, index, i);
  }

  lemma {:induction false} GatherShrinks(g: Grammar, was: seq<Lead>, now: seq<Lead>)
    requires Grown(g, was, now) && |was| < |now|
    ensures Universe(g) - Known(now) < Universe(g) - Known(was)
  {
    assert now == was + now[|was|..];
    NewLeadsShrink(g, was, now[|was|..]);
  }

  /** Expands the `length` leads from `index` on, and then every lead this appends. */
  method GatherLeads(g: Grammar, leads: Array<Lead>, index: nat, length: nat)
    requires Proper(g) && leads.Valid() && AllOk(g, leads.Contents())
    requires index < leads.size && index + length <= leads.size
    modifies leads, leads.items
    ensures leads.Valid() && (leads.items == old(leads.items) || fresh(leads.items))
    ensures AllOk(g, leads.Contents())
    ensures Grown(g, old(leads.Contents()), leads.Contents())
    ensures ExpandedRange(g, leads.Contents(), index, index + length)
    ensures ExpandedRange(g, leads.Contents(), old(leads.size), leads.size)
    decreases Universe(g) - Known(leads.Contents())
  {
    ghost var was := leads.Contents();
    var firstNew := leads.size;
    var i := index;
    while i < index + length
      invariant index <= i <= index + length
      invariant leads.Valid() && (leads.items == old(leads.items) || fresh(leads.items))
      invariant Gathered(g, was, leads.Contents(), index, i)
    {
      ghost var now := leads.Contents();
      ExpandLead(g, leads, i);
      GatherOne(g, was, now, leads.Contents(), index, i);
      i := i + 1;
    }
    if firstNew < leads.size {
      ghost var now := leads.Contents();
      GatherShrinks(g, was, now);
      GatherLeads(g, leads, firstNew, leads.size - firstNew);
      GatherRest(g, was, now, leads.Contents(), index, i);
    }
  }
}
