/** LR(1) items and their closure. A lead stands for its core with each of its lookaheads,
    and with BARE, which marks the presence of the core itself. */
module Items {
  import opened Options
  import opened TokenSets
  import opened Grammars
  import opened First

  const BARE: int := -1

  datatype Item = Item(rule: nat, variant: nat, pos: nat, look: int)

  predicate ItemOk(g: Grammar, it: Item) {
    IsVariant(g, it.rule, it.variant) && it.pos <= |Rhs(g, it.rule, it.variant)|
  }

  /** The symbol after the dot. */
  function Next(g: Grammar, it: Item): Option<Symbol> {
    if ItemOk(g, it) && it.pos < |Rhs(g, it.rule, it.variant)|
    then Some(Rhs(g, it.rule, it.variant)[it.pos])
    else None
  }

  predicate Complete(g: Grammar, it: Item) {
    ItemOk(g, it) && it.pos == |Rhs(g, it.rule, it.variant)|
  }

  /** The lookaheads an item hands to the expansions of the symbol after its dot. */
  ghost function Follow(g: Grammar, it: Item): set<int>
    requires Next(g, it).Some?
  {
    var rhs := Rhs(g, it.rule, it.variant);
    if it.pos + 1 < |rhs| then FirstSet(g, rhs[it.pos + 1]) + {BARE} else {it.look}
  }

  /** Item e begins a variant of the rule after the dot of item it. */
  ghost predicate Expands(g: Grammar, it: Item, e: Item) {
    && Next(g, it) == Some(N(e.rule)) && e.pos == 0
    && IsVariant(g, e.rule, e.variant) && e.look in Follow(g, it)
  }

  ghost predicate Closed(g: Grammar, s: set<Item>) {
    forall it, e :: it in s && Expands(g, it, e) ==> e in s
  }

  /** s is the least closed set around the kernel. */
  ghost predicate IsClosure(g: Grammar, kernel: set<Item>, s: set<Item>) {
    && kernel <= s && Closed(g, s)
    && forall c :: kernel <= c && Closed(g, c) ==> s <= c
  }

  ghost function Advance(g: Grammar, s: set<Item>, x: Symbol): set<Item> {
    set it | it in s && Next(g, it) == Some(x) :: it.(pos := it.pos + 1)
  }

  ghost predicate IsGoto(g: Grammar, s: set<Item>, x: Symbol, t: set<Item>) {
    IsClosure(g, Advance(g, s, x), t)
  }

  /** The start item, for its lookahead and bare. */
  ghost function StartKernel(g: Grammar): set<Item> {
    {Item(g.root, 0, 0, BARE), Item(g.root, 0, 0, TKN_EOF)}
  }

  // -------------------------------------------------------------------- properties

  lemma {:induction false} ClosureUnique(g: Grammar, kernel: set<Item>, s: set<Item>, t: set<Item>)
    requires IsClosure(g, kernel, s) && IsClosure(g, kernel, t)
    ensures s == t
  {
  }

  /** An item outside the kernel starts a variant and was called for by another item. */
  ghost predicate CalledFor(g: Grammar, kernel: set<Item>, s: set<Item>, it: Item) {
    it in kernel || exists p :: p in s && Expands(g, p, it)
  }

  lemma {:induction false} OriginOfItem(g: Grammar, kernel: set<Item>, s: set<Item>, it: Item)
    requires IsClosure(g, kernel, s) && it in s
    ensures CalledFor(g, kernel, s, it)
  {
    var c := set i | i in s && CalledFor(g, kernel, s, i);
    assert Closed(g, c);
    assert s <= c;
  }

  lemma {:induction false} ItemsOk(g: Grammar, kernel: set<Item>, s: set<Item>)
    requires IsClosure(g, kernel, s) && forall it :: it in kernel ==> ItemOk(g, it)
    ensures forall it :: it in s ==> ItemOk(g, it)
  {
    forall it | it in s
      ensures ItemOk(g, it)
    {
      OriginOfItem(g, kernel, s, it);
    }
  }

  /** An item with its dot inside came over the transition on the symbol before it. */
  lemma {:induction false} StepBack(g: Grammar, s: set<Item>, x: Symbol, t: set<Item>, it: Item)
    requires IsGoto(g, s, x, t) && it in t && it.pos > 0
    ensures it.(pos := it.pos - 1) in s && Next(g, it.(pos := it.pos - 1)) == Some(x)
  {
    OriginOfItem(g, Advance(g, s, x), t, it);
    assert it in Advance(g, s, x);
    var p :| p in s && Next(g, p) == Some(x) && it == p.(pos := p.pos + 1);
    assert p == it.(pos := it.pos - 1);
  }

  /** In a state reached by a transition, an item at its start was called for. */
  lemma {:induction false} CalledForAfterGoto(g: Grammar, s: set<Item>, x: Symbol, t: set<Item>, it: Item)
    requires IsGoto(g, s, x, t) && it in t && it.pos == 0
    ensures exists p :: p in t && Expands(g, p, it)
  {
    OriginOfItem(g, Advance(g, s, x), t, it);
  }

  lemma {:induction false} CalledForAtStart(g: Grammar, t: set<Item>, it: Item)
    requires IsClosure(g, StartKernel(g), t) && it in t && it.rule != g.root
    ensures it.pos == 0 && exists p :: p in t && Expands(g, p, it)
  {
    OriginOfItem(g, StartKernel(g), t, it);
  }
}
