/** Leads: item cores with a set of lookaheads, their order, and their closure as
    the generator computes it on an array it keeps appending to. */
module Leads {
  import opened Options
  import opened Arrays
  import opened TokenSets
  import opened Grammars
  import opened Items

  datatype Lead = Lead(rule: nat, variant: nat, position: nat, terminals: Bits)

  function LeadSymbol(g: Grammar, lead: Lead): Option<Symbol> {
    Next(g, Item(lead.rule, lead.variant, lead.position, BARE))
  }

  predicate LeadOk(g: Grammar, lead: Lead) {
    ItemOk(g, Item(lead.rule, lead.variant, lead.position, BARE))
  }

  // ------------------------------------------------------------ what leads stand for

  ghost function Looks(lead: Lead): set<int> {
    Elems(lead.terminals) + {BARE}
  }

  function ItemAt(lead: Lead, look: int): Item {
    Item(lead.rule, lead.variant, lead.position, look)
  }

  ghost function ItemsOf(leads: seq<Lead>): set<Item> {
    set lead, look | lead in leads && look in Looks(lead) :: ItemAt(lead, look)
  }

  predicate SameCore(a: Lead, b: Lead) {
    a.rule == b.rule && a.variant == b.variant && a.position == b.position
  }

  lemma {:induction false} ItemsOfConcat(a: seq<Lead>, b: seq<Lead>)
    ensures ItemsOf(a + b) == ItemsOf(a) + ItemsOf(b)
  {
  }

  // ------------------------------------------------------------------------ ordering

  function CompareCores(a: Lead, b: Lead): (c: int)
    ensures c == 0 <==> SameCore(a, b)
  {
    if a.rule < b.rule then -1
    else if a.rule > b.rule then 1
    else if a.variant < b.variant then -1
    else if a.variant > b.variant then 1
    else if a.position < b.position then -1
    else if a.position > b.position then 1
    else 0
  }

  function CompareLeads(a: Lead, b: Lead): int {
    var c := CompareCores(a, b);
    if c != 0 then c else CompareWords(a.terminals, b.terminals)
  }

  /** The comparison is a total order, and only equal leads compare as 0. */
  lemma {:induction false} LeadOrder(a: Lead, b: Lead, c: Lead)
    ensures CompareLeads(a, b) == 0 <==> a == b
    ensures CompareLeads(a, b) <= 0 || CompareLeads(b, a) <= 0
    ensures CompareLeads(a, b) <= 0 && CompareLeads(b, a) <= 0 ==> a == b
    ensures CompareLeads(a, b) <= 0 && CompareLeads(b, c) <= 0 ==> CompareLeads(a, c) <= 0
  {
    CompareWordsAntisymmetric(a.terminals, b.terminals);
    if SameCore(a, b) && SameCore(b, c) && CompareLeads(a, b) <= 0 && CompareLeads(b, c) <= 0 {
      CompareWordsTransitive(a.terminals, b.terminals, c.terminals);
    }
  }

  method EqualLeads(a: Lead, b: Lead) returns (equal: bool)
    ensures equal <==> a == b
  {
    ElemsInjective(a.terminals, b.terminals);
    if SameCore(a, b) {
      equal := EqualTokenSets(a.terminals, b.terminals);
    } else {
      equal := false;
    }
  }

  method EqualSetOfLeads(a: seq<Lead>, b: seq<Lead>) returns (equal: bool)
    ensures equal <==> a == b
  {
    if |a| != |b| {
      return false;
    }
    for i := 0 to |a|
      invariant a[..i] == b[..i]
    {
      var same := EqualLeads(a[i], b[i]);
      if !same {
        return false;
      }
    }
    assert a[..|a|] == a && b[..|b|] == b;
    return true;
  }

  // ------------------------------------------------------------------------- sorting

  ghost predicate AtMostAll(x: Lead, s: seq<Lead>) {
    forall y :: y in s ==> CompareLeads(x, y) <= 0
  }

  ghost predicate Sorted(s: seq<Lead>) {
    s != [] ==> AtMostAll(s[0], s[1..]) && Sorted(s[1..])
  }

  function SortedInsert(x: Lead, s: seq<Lead>): (r: seq<Lead>)
    ensures multiset(r) == multiset{x} + multiset(s)
  {
    if s == [] || CompareLeads(x, s[0]) <= 0 then [x] + s
    else
      assert s == [s[0]] + s[1..];
      [s[0]] + SortedInsert(x, s[1..])
  }

  lemma {:induction false} SortedInsertSorts(x: Lead, s: seq<Lead>)
    requires Sorted(s)
    ensures Sorted(SortedInsert(x, s))
  {
    if s == [] || CompareLeads(x, s[0]) <= 0 {
      forall y | y in s
        ensures CompareLeads(x, y) <= 0
      {
        LeadOrder(x, s[0], y);
        LeadOrder(s[0], s[0], s[0]);
      }
      assert ([x] + s)[1..] == s;
    } else {
      SortedInsertSorts(x, s[1..]);
      var rest := SortedInsert(x, s[1..]);
      LeadOrder(s[0], x, x);
      forall y | y in rest
        ensures CompareLeads(s[0], y) <= 0
      {
        assert y in multiset(rest);
      }
      assert ([s[0]] + rest)[1..] == rest;
    }
  }

  function Arranged(s: seq<Lead>): (r: seq<Lead>)
    ensures multiset(r) == multiset(s) && |r| == |s|
  {
    if s == [] then [] else
      var r := SortedInsert(s[0], Arranged(s[1..]));
      assert s == [s[0]] + s[1..];
      assert |r| == |multiset(r)| == |multiset(s)|;
      r
  }

  lemma {:induction false} ArrangedIsSorted(s: seq<Lead>)
    ensures Sorted(Arranged(s))
  {
    if s != [] {
      ArrangedIsSorted(s[1..]);
      SortedInsertSorts(s[0], Arranged(s[1..]));
    }
  }

  /** The C library's `qsort` under `compare_leads`; that order is total, so the
      sorted arrangement is the same whatever algorithm produces it. */
  method SortLeads(leads: Array<Lead>)
    requires leads.Valid()
    modifies leads.items
    ensures leads.Valid() && Sorted(leads.Contents())
    ensures multiset(leads.Contents()) == old(multiset(leads.Contents()))
  {
    var s := Arranged(leads.items[..leads.size]);
    ArrangedIsSorted(leads.Contents());
    leads.SetMany(0, s);
    assert leads.Contents() == s;
  }

  lemma {:induction false} HeadsAgree(a: seq<Lead>, b: seq<Lead>)
    requires Sorted(a) && Sorted(b) && multiset(a) == multiset(b) && a != [] && b != []
    ensures a[0] == b[0]
  {
    assert a == [a[0]] + a[1..] && b == [b[0]] + b[1..];
    assert a[0] in multiset(b) && b[0] in multiset(a);
    LeadOrder(a[0], b[0], b[0]);
    LeadOrder(a[0], a[0], a[0]);
  }

  lemma {:induction false} MultisetOfTail(s: seq<Lead>)
    requires s != []
    ensures multiset(s[1..]) == multiset(s) - multiset{s[0]}
  {
    assert s == [s[0]] + s[1..];
  }

  lemma {:induction false} SortedIsUnique(a: seq<Lead>, b: seq<Lead>)
    requires Sorted(a) && Sorted(b) && multiset(a) == multiset(b)
    ensures a == b
  {
    if a == [] {
      assert |b| == |multiset(b)| == 0;
    } else {
      assert |b| == |multiset(b)| == |multiset(a)| == |a|;
      HeadsAgree(a, b);
      MultisetOfTail(a);
      MultisetOfTail(b);
      SortedIsUnique(a[1..], b[1..]);
      assert a == [a[0]] + a[1..] && b == [b[0]] + b[1..];
    }
  }
}
