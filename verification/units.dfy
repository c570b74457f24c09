/** Rankings of the rules exist exactly when the unit variants form no cycle. */
module Units {
  import opened Grammars
  import opened Bound

  ghost predicate UnitEdge(g: Grammar, r: nat, b: nat) {
    b < |g.rules| && exists v: nat :: IsVariant(g, r, v) && Rhs(g, r, v) == [N(b)]
  }

  /** p descends through unit variants. */
  ghost predicate UnitPath(g: Grammar, p: seq<nat>)
    decreases |p|
  {
    p != [] && (|p| > 1 ==> UnitEdge(g, p[0], p[1]) && UnitPath(g, p[1..]))
  }

  /** No rule derives itself through unit variants alone. */
  ghost predicate UnitsAcyclic(g: Grammar) {
    forall p :: UnitPath(g, p) && |p| > 1 ==> p[0] != p[|p| - 1]
  }

  lemma {:induction false} RuleOfPath(g: Grammar, p: seq<nat>, i: nat)
    requires UnitPath(g, p) && i < |p| && p[0] < |g.rules|
    ensures p[i] < |g.rules|
    decreases i
  {
    if i > 0 {
      RuleOfPath(g, p[1..], i - 1);
    }
  }

  lemma {:induction false} PartOfRest(p: seq<nat>, i: nat, j: nat)
    requires 0 < i <= j <= |p|
    ensures p[1..][i - 1..j - 1] == p[i..j]
  {
  }

  lemma {:induction false} PathPart(g: Grammar, p: seq<nat>, i: nat, j: nat)
    requires UnitPath(g, p) && i < j <= |p|
    ensures UnitPath(g, p[i..j])
    decreases i, j
  {
    if i > 0 {
      PathPart(g, p[1..], i - 1, j - 1);
      PartOfRest(p, i, j);
    } else if j > 1 {
      PathPart(g, p[1..], 0, j - 1);
      assert p[..j][1..] == p[1..][..j - 1];
    }
  }

  lemma {:induction false} DistinctIsShort(p: seq<nat>, n: nat)
    requires forall i :: 0 <= i < |p| ==> p[i] < n
    requires forall i, j :: 0 <= i < j < |p| ==> p[i] != p[j]
    ensures |p| <= n
    decreases n
  {
    if n == 0 {
    } else if n - 1 in p {
      var k :| 0 <= k < |p| && p[k] == n - 1;
      var q := p[..k] + p[k + 1..];
      forall i, j | 0 <= i < j < |q|
        ensures q[i] != q[j]
      {
        assert q[i] == p[if i < k then i else i + 1] && q[j] == p[if j < k then j else j + 1];
      }
      DistinctIsShort(q, n - 1);
      assert |q| == |p| - 1;
    } else {
      DistinctIsShort(p, n - 1);
    }
  }

  /** Without cycles no path visits more rules than there are. */
  lemma {:induction false} PathIsShort(g: Grammar, p: seq<nat>)
    requires UnitsAcyclic(g) && UnitPath(g, p) && p[0] < |g.rules|
    ensures |p| <= |g.rules|
  {
    forall i | 0 <= i < |p|
      ensures p[i] < |g.rules|
    {
      RuleOfPath(g, p, i);
    }
    forall i, j | 0 <= i < j < |p|
      ensures p[i] != p[j]
    {
      PathPart(g, p, i, j + 1);
    }
    DistinctIsShort(p, |g.rules|);
  }

  /** The length of a longest unit path from r, but at most n. */
  ghost function Height(g: Grammar, r: nat, n: nat): nat
    decreases n, 1, 0
  {
    if n == 0 || r >= |g.rules| then 0 else HeightAmong(g, r, |g.rules[r]|, n)
  }

  /** The same over the first k variants of r. */
  ghost function HeightAmong(g: Grammar, r: nat, k: nat, n: nat): nat
    requires n > 0 && r < |g.rules| && k <= |g.rules[r]|
    decreases n, 0, k
  {
    if k == 0 then 0
    else
      var rest, rhs := HeightAmong(g, r, k - 1, n), g.rules[r][k - 1];
      if |rhs| == 1 && rhs[0].N? && rhs[0].rule < |g.rules| then
        var h := 1 + Height(g, rhs[0].rule, n - 1);
        if h > rest then h else rest
      else rest
  }

  lemma {:induction false} PathOfHeight(g: Grammar, r: nat, n: nat) returns (p: seq<nat>)
    requires r < |g.rules|
    ensures UnitPath(g, p) && p[0] == r && |p| == 1 + Height(g, r, n)
    ensures Height(g, r, n) <= n
    decreases n, 1, 0
  {
    if n == 0 {
      p := [r];
    } else {
      p := PathAmong(g, r, |g.rules[r]|, n);
    }
  }

  lemma {:induction false} PathAmong(g: Grammar, r: nat, k: nat, n: nat) returns (p: seq<nat>)
    requires n > 0 && r < |g.rules| && k <= |g.rules[r]|
    ensures UnitPath(g, p) && p[0] == r && |p| == 1 + HeightAmong(g, r, k, n)
    ensures HeightAmong(g, r, k, n) <= n
    decreases n, 0, k
  {
    if k == 0 {
      p := [r];
    } else {
      p := PathAmong(g, r, k - 1, n);
      var rhs := g.rules[r][k - 1];
      if |rhs| == 1 && rhs[0].N? && rhs[0].rule < |g.rules| {
        var q := PathOfHeight(g, rhs[0].rule, n - 1);
        if |q| + 1 > |p| {
          assert IsVariant(g, r, k - 1) && Rhs(g, r, k - 1) == [N(rhs[0].rule)];
          assert UnitEdge(g, r, q[0]);
          p := [r] + q;
          assert p[1..] == q;
        }
      }
    }
  }

  lemma {:induction false} EdgeRaises(g: Grammar, r: nat, v: nat, b: nat, k: nat, n: nat)
    requires n > 0 && r < |g.rules| && v < k <= |g.rules[r]| && g.rules[r][v] == [N(b)] && b < |g.rules|
    ensures HeightAmong(g, r, k, n) >= 1 + Height(g, b, n - 1)
  {
    if v < k - 1 {
      EdgeRaises(g, r, v, b, k - 1, n);
    }
  }

  lemma {:induction false} HeightOfPath(g: Grammar, p: seq<nat>, n: nat)
    requires UnitPath(g, p) && p[0] < |g.rules| && |p| - 1 <= n
    ensures Height(g, p[0], n) >= |p| - 1
    decreases |p|
  {
    if |p| > 1 {
      var v: nat :| IsVariant(g, p[0], v) && Rhs(g, p[0], v) == [N(p[1])];
      HeightOfPath(g, p[1..], n - 1);
      EdgeRaises(g, p[0], v, p[1], |g.rules[p[0]]|, n);
    }
  }

  /** Across a unit edge the height drops, when no path is longer than n. */
  lemma {:induction false} HeightDrops(g: Grammar, r: nat, b: nat)
    requires UnitsAcyclic(g) && r < |g.rules| && UnitEdge(g, r, b)
    ensures Height(g, b, |g.rules|) < Height(g, r, |g.rules|)
  {
    var n := |g.rules|;
    var q := PathOfHeight(g, b, n);
    var p := [r] + q;
    assert p[1..] == q && UnitPath(g, p);
    PathIsShort(g, p);
    HeightOfPath(g, p, n);
  }

  /** The unit variants form no cycle exactly when the rules can be ranked, and then
      ranks below the number of rules suffice. */
  lemma {:induction false} RankIffAcyclic(g: Grammar)
    ensures UnitsAcyclic(g) ==> exists rank :: UnitRank(g, rank, |g.rules|)
    ensures (exists rank, max :: UnitRank(g, rank, max)) ==> UnitsAcyclic(g)
  {
    if UnitsAcyclic(g) {
      var rank := seq(|g.rules|, r requires 0 <= r < |g.rules| => Height(g, r, |g.rules|));
      forall r | 0 <= r < |rank|
        ensures rank[r] < |g.rules|
      {
        var p := PathOfHeight(g, r, |g.rules|);
        PathIsShort(g, p);
      }
      forall r: nat, v: nat, b: nat | IsVariant(g, r, v) && Rhs(g, r, v) == [N(b)] && b < |rank|
        ensures rank[b] < rank[r]
      {
        HeightDrops(g, r, b);
      }
      assert UnitRank(g, rank, |g.rules|);
    }
    forall rank, max, p | UnitRank(g, rank, max) && UnitPath(g, p) && |p| > 1
      ensures p[0] != p[|p| - 1]
    {
      RankDropsAlong(g, rank, max, p);
    }
  }

  lemma {:induction false} RankDropsAlong(g: Grammar, rank: seq<nat>, max: nat, p: seq<nat>)
    requires UnitRank(g, rank, max) && UnitPath(g, p) && |p| > 1
    ensures p[0] < |rank| && p[|p| - 1] < |rank| && rank[p[|p| - 1]] < rank[p[0]]
    decreases |p|
  {
    if |p| > 2 {
      RankDropsAlong(g, rank, max, p[1..]);
    }
  }
}
