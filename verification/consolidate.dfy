/** The canonical form of a lead array: sorted by core, one lead per core. */
module Consolidation {
  import opened Arrays
  import opened Words
  import opened TokenSets
  import opened Items
  import opened Leads

  ghost predicate Canonical(s: seq<Lead>) {
    forall i, j :: 0 <= i < j < |s| ==> CompareCores(s[i], s[j]) < 0
  }

  // ------------------------------------------------------------------- uniqueness

  lemma {:induction false} LeadOfItem(s: seq<Lead>, lead: Lead, look: int) returns (i: nat)
    requires ItemAt(lead, look) in ItemsOf(s)
    ensures i < |s| && SameCore(s[i], lead) && look in Looks(s[i])
  {
    var l, k :| l in s && k in Looks(l) && ItemAt(lead, look) == ItemAt(l, k);
    i :| 0 <= i < |s| && s[i] == l;
  }

  lemma {:induction false} FirstCoreIsLeast(s: seq<Lead>, i: nat)
    requires Canonical(s) && i < |s|
    ensures CompareCores(s[0], s[i]) <= 0
    ensures SameCore(s[0], s[i]) ==> i == 0
  {
  }

  /** The heads of canonical arrays with the same items have the same core. */
  lemma {:induction false} SameFirstCore(a: seq<Lead>, b: seq<Lead>)
    requires Canonical(a) && Canonical(b) && ItemsOf(a) == ItemsOf(b) && a != [] && b != []
    ensures SameCore(a[0], b[0])
  {
    assert ItemAt(a[0], BARE) in ItemsOf(a) && ItemAt(b[0], BARE) in ItemsOf(b);
    var i := LeadOfItem(b, a[0], BARE);
    var j := LeadOfItem(a, b[0], BARE);
    FirstCoreIsLeast(b, i);
    FirstCoreIsLeast(a, j);
  }

  lemma {:induction false} LooksIncluded(a: seq<Lead>, b: seq<Lead>)
    requires Canonical(b) && ItemsOf(a) == ItemsOf(b) && a != [] && b != [] && SameCore(a[0], b[0])
    ensures Looks(a[0]) <= Looks(b[0])
  {
    forall t | t in Looks(a[0])
      ensures t in Looks(b[0])
    {
      assert ItemAt(a[0], t) in ItemsOf(a);
      var i := LeadOfItem(b, a[0], t);
      FirstCoreIsLeast(b, i);
    }
  }

  lemma {:induction false} SameFirstLead(a: seq<Lead>, b: seq<Lead>)
    requires Canonical(a) && Canonical(b) && ItemsOf(a) == ItemsOf(b) && a != [] && b != []
    ensures a[0] == b[0]
  {
    SameFirstCore(a, b);
    LooksIncluded(a, b);
    LooksIncluded(b, a);
    assert Elems(a[0].terminals) == Looks(a[0]) - {BARE} && Elems(b[0].terminals) == Looks(b[0]) - {BARE};
    ElemsInjective(a[0].terminals, b[0].terminals);
  }

  lemma {:induction false} ItemsOfTail(s: seq<Lead>)
    requires Canonical(s) && s != []
    ensures ItemsOf(s[1..]) == ItemsOf(s) - ItemsOf([s[0]])
  {
    assert s == [s[0]] + s[1..];
    ItemsOfConcat([s[0]], s[1..]);
    forall it | it in ItemsOf(s[1..])
      ensures it !in ItemsOf([s[0]])
    {
      var lead, look :| lead in s[1..] && look in Looks(lead) && it == ItemAt(lead, look);
      var j :| 0 <= j < |s[1..]| && s[1..][j] == lead;
      FirstCoreIsLeast(s, j + 1);
    }
  }

  lemma {:induction false} NoItemsIff(s: seq<Lead>)
    ensures ItemsOf(s) == {} <==> s == []
  {
    if s != [] {
      assert ItemAt(s[0], BARE) in ItemsOf(s);
    }
  }

  /** Canonical arrays are equal exactly when they stand for the same items. */
  lemma {:induction false} CanonicalIsUnique(a: seq<Lead>, b: seq<Lead>)
    requires Canonical(a) && Canonical(b)
    ensures a == b <==> ItemsOf(a) == ItemsOf(b)
  {
    if ItemsOf(a) == ItemsOf(b) {
      if a == [] || b == [] {
        NoItemsIff(a);
        NoItemsIff(b);
      } else {
        SameFirstLead(a, b);
        ItemsOfTail(a);
        ItemsOfTail(b);
        CanonicalIsUnique(a[1..], b[1..]);
        assert a == [a[0]] + a[1..] && b == [b[0]] + b[1..];
      }
    }
  }

  // ---------------------------------------------------------------------- merging

  lemma {:induction false} SortedPair(s: seq<Lead>, i: nat, j: nat)
    requires Sorted(s) && i < j < |s|
    ensures CompareLeads(s[i], s[j]) <= 0
  {
    if i > 0 {
      SortedPair(s[1..], i - 1, j - 1);
    } else {
      assert s[j] == s[1..][j - 1];
    }
  }

  lemma {:induction false} ItemsOfUnion(a: Lead, b: Lead, m: Lead)
    requires SameCore(a, b) && SameCore(a, m) && Elems(m.terminals) == Elems(a.terminals) + Elems(b.terminals)
    ensures ItemsOf([m]) == ItemsOf([a]) + ItemsOf([b])
  {
    forall it
      ensures it in ItemsOf([m]) <==> it in ItemsOf([a]) || it in ItemsOf([b])
    {
      OneLead(m, it);
      OneLead(a, it);
      OneLead(b, it);
    }
  }

  lemma {:induction false} OneLead(lead: Lead, it: Item)
    ensures it in ItemsOf([lead]) <==> it == ItemAt(lead, it.look) && it.look in Looks(lead)
  {
  }

  lemma {:induction false} SameCoresCanonical(r: seq<Lead>, q: seq<Lead>)
    requires Canonical(r) && |q| == |r| && forall i :: 0 <= i < |r| ==> SameCore(r[i], q[i])
    ensures Canonical(q)
  {
    forall i, j | 0 <= i < j < |q|
      ensures CompareCores(q[i], q[j]) < 0
    {
      assert SameCore(r[i], q[i]) && SameCore(r[j], q[j]);
    }
  }

  /** Lead `next` absorbed by the last lead of r. */
  lemma {:induction false} AbsorbNext(r: seq<Lead>, next: Lead, m: Lead)
    requires Canonical(r) && r != [] && SameCore(r[|r| - 1], next) && SameCore(next, m)
    requires Elems(m.terminals) == Elems(r[|r| - 1].terminals) + Elems(next.terminals)
    ensures Canonical(r[|r| - 1 := m])
    ensures ItemsOf(r[|r| - 1 := m]) == ItemsOf(r) + ItemsOf([next])
  {
    var n := |r| - 1;
    SameCoresCanonical(r, r[n := m]);
    assert r == r[..n] + [r[n]] && r[n := m] == r[..n] + [m];
    ItemsOfConcat(r[..n], [r[n]]);
    ItemsOfConcat(r[..n], [m]);
    ItemsOfUnion(r[n], next, m);
  }

  /** Lead `next`, of a greater core, kept as it is. */
  lemma {:induction false} KeepNext(r: seq<Lead>, next: Lead)
    requires Canonical(r) && r != [] && CompareCores(r[|r| - 1], next) < 0
    ensures Canonical(r + [next]) && ItemsOf(r + [next]) == ItemsOf(r) + ItemsOf([next])
  {
    ItemsOfConcat(r, [next]);
    var q := r + [next];
    forall i, j | 0 <= i < j < |q|
      ensures CompareCores(q[i], q[j]) < 0
    {
      if j == |r| && i < |r| - 1 {
        assert CompareCores(r[i], r[|r| - 1]) < 0;
      }
    }
  }

  method MergedTerminals(a: Bits, b: Bits) returns (r: Bits)
    ensures Elems(r) == Elems(a) + Elems(b)
  {
    var bits := new Word[WORDS](i requires 0 <= i < WORDS => a[i]);
    assert bits[..] == a;
    TokenSetMerge(bits, b);
    r := bits[..];
  }

  ghost predicate PartlyMerged(s: seq<Lead>, now: seq<Lead>, lo: nat, li: nat) {
    && lo < li <= |s| && |now| == |s| && now[li..] == s[li..]
    && Canonical(now[..lo + 1]) && ItemsOf(now[..lo + 1]) == ItemsOf(s[..li])
    && SameCore(now[lo], s[li - 1])
  }

  lemma {:induction false} MergeStep(s: seq<Lead>, now: seq<Lead>, lo: nat, li: nat, after: seq<Lead>, lo': nat)
    requires Sorted(s) && PartlyMerged(s, now, lo, li) && li < |s| && |after| == |now|
    requires SameCore(now[li], now[lo]) ==>
      && lo' == lo && SameCore(after[lo], now[lo]) && after == now[lo := after[lo]]
      && Elems(after[lo].terminals) == Elems(now[lo].terminals) + Elems(now[li].terminals)
    requires !SameCore(now[li], now[lo]) ==> lo' == lo + 1 && after == now[lo + 1 := now[li]]
    ensures PartlyMerged(s, after, lo', li + 1)
  {
    var r, next := now[..lo + 1], s[li];
    assert next == now[li..][0] == now[li];
    assert s[..li + 1] == s[..li] + [next];
    ItemsOfConcat(s[..li], [next]);
    assert after[li + 1..] == now[li + 1..] == now[li..][1..] == s[li..][1..] == s[li + 1..];
    SortedPair(s, li - 1, li);
    if SameCore(now[li], now[lo]) {
      AbsorbNext(r, next, after[lo]);
      assert after[..lo + 1] == r[lo := after[lo]];
    } else {
      KeepNext(r, next);
      assert after[..lo + 2] == r + [next];
    }
  }

  lemma {:induction false} MergeBegins(s: seq<Lead>)
    requires s != []
    ensures PartlyMerged(s, s, 0, 1)
  {
    assert s[..1] == [s[0]];
  }

  lemma {:induction false} MergeEnds(s: seq<Lead>, now: seq<Lead>, lo: nat)
    requires PartlyMerged(s, now, lo, |s|)
    ensures Canonical(now[..lo + 1]) && ItemsOf(now[..lo + 1]) == ItemsOf(s)
  {
    assert s[..|s|] == s;
  }

  lemma {:induction false} SameItems(s: seq<Lead>, was: seq<Lead>)
    requires multiset(s) == multiset(was)
    ensures ItemsOf(s) == ItemsOf(was)
  {
    assert forall l :: l in s <==> l in multiset(s);
    assert forall l :: l in was <==> l in multiset(was);
  }

  lemma {:induction false} FewAreCanonical(s: seq<Lead>)
    requires |s| < 2
    ensures Canonical(s)
  {
  }

  ghost predicate Merging(s: seq<Lead>, now: seq<Lead>, lo: nat, li: nat) {
    PartlyMerged(s, now, lo, li) && lo < li <= |now| == |s|
  }

  /** Sorts the leads and merges, in place, those with equal cores. */
  method ConsolidateLeads(leads: Array<Lead>)
    requires leads.Valid()
    modifies leads, leads.items
    ensures leads.Valid() && leads.items == old(leads.items)
    ensures Canonical(leads.Contents())
    ensures ItemsOf(leads.Contents()) == old(ItemsOf(leads.Contents()))
  {
    hide Canonical, ItemsOf, Sorted, PartlyMerged;
    ghost var was := leads.Contents();
    SortLeads(leads);
    ghost var s := leads.Contents();
    SameItems(s, was);
    if leads.size >= 2 {
      var lo, li := 0, 1;
      MergeBegins(s);
      while li != leads.size
        invariant leads.Valid() && leads.items == old(leads.items)
        invariant Merging(s, leads.Contents(), lo, li)
        decreases leads.size - li
      {
        ghost var now, lo0 := leads.Contents(), lo;
        if SameCore(leads.Get(li), leads.Get(lo)) {
          var merged := MergedTerminals(leads.Get(lo).terminals, leads.Get(li).terminals);
          leads.Set(lo, leads.Get(lo).(terminals := merged));
        } else {
          lo := lo + 1;
          leads.Set(lo, leads.Get(li));
        }
        MergeStep(s, now, lo0, li, leads.Contents(), lo);
        li := li + 1;
      }
      MergeEnds(s, leads.Contents(), lo);
      leads.Resize(lo + 1);
    } else {
      FewAreCanonical(s);
    }
  }
}
