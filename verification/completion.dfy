/** How a statement can end, read off its syntax: exactly which bodies are reported without need. */
module Completion {
  import opened Options
  import opened Statements
  import opened Lowering
  import opened Functions
  import opened WellFormedBlocks

  datatype Kind = Completes | Breaks | Continues | Returns

  function KindOf(e: Ending): Kind {
    match e
    case Normal => Completes
    case Broke => Breaks
    case Continued => Continues
    case Returned(_) => Returns
  }

  /** The syntax leaves a way for the statement to end like this. */
  predicate Can(s: Stmt, k: Kind)
    decreases s, 2
  {
    match s
    case ExprStmt(_) => k == Completes
    case Compound(items) => CanItems(items, k)
    case If(_, yes, no) => CanOptional(yes, k) || CanOptional(no, k)
    case For(_, test, _, body) =>
      || (k == Completes && (test.Some? || CanOptional(body, Breaks)))
      || (k == Returns && CanOptional(body, Returns))
    case Continue => k == Continues
    case Break => k == Breaks
    case Return(_) => k == Returns
  }

  /** Some item ends like this and all items before it can complete, or all of them can. */
  predicate CanItems(items: seq<BlockItem>, k: Kind)
    decreases items, 1
  {
    if k == Completes then
      forall item :: item in items ==> CanItem(item, Completes)
    else
      exists i :: 0 <= i < |items| && CanItem(items[i], k) && CanItems(items[..i], Completes)
  }

  predicate CanItem(item: BlockItem, k: Kind)
    decreases item, 0
  {
    match item
    case StmtItem(Some(s)) => Can(s, k)
    case _ => k == Completes
  }

  predicate CanOptional(s: Option<Stmt>, k: Kind)
    decreases s, 0
  {
    if s.Some? then Can(s.value, k) else k == Completes
  }

  // ------------------------------------------------------- what happens is possible

  ghost predicate Possible(e: Effect, s: Stmt) {
    e.Ended? ==> Can(s, KindOf(e.ending))
  }

  lemma {:induction false} EndingIsPossible(o: Oracle, s: Stmt, h: History, fuel: nat)
    ensures Possible(Exec(o, s, h, fuel), s)
    decreases fuel, s, 1
  {
    match s {
      case Compound(items) => ItemsArePossible(o, items, h, fuel);
      case If(c, yes, no) =>
        if yes.Some? {
          EndingIsPossible(o, yes.value, h + [c], fuel);
        }
        if no.Some? {
          EndingIsPossible(o, no.value, h + [c], fuel);
        }
      case For(initial, _, _, _) => LoopIsPossible(o, s, Evaluate(initial, h), fuel);
      case _ =>
    }
  }

  lemma {:induction false} LoopIsPossible(o: Oracle, s: Stmt, h: History, fuel: nat)
    requires s.For?
    ensures Possible(ExecLoop(o, s, h, fuel), s)
    decreases fuel, s, 0
  {
    if fuel > 0 {
      var round := ExecBody(o, s, Evaluate(s.test, h), fuel - 1);
      if s.body.Some? {
        EndingIsPossible(o, s.body.value, Evaluate(s.test, h), fuel - 1);
      }
      LoopIsPossible(o, s, Evaluate(s.step, round.history), fuel - 1);
    }
  }

  lemma {:induction false} ItemsArePossible(o: Oracle, items: seq<BlockItem>, h: History, fuel: nat)
    ensures var e := ExecItems(o, items, h, fuel); e.Ended? ==> CanItems(items, KindOf(e.ending))
    decreases fuel, items, 0
  {
    if items != [] {
      var n := |items| - 1;
      ItemsArePossible(o, items[..n], h, fuel);
      var before := ExecItems(o, items[..n], h, fuel);
      ItemIsPossible(o, items[n], before.history, fuel);
      CanItemsSplit(items);
    }
  }

  lemma {:induction false} ItemIsPossible(o: Oracle, item: BlockItem, h: History, fuel: nat)
    ensures var e := ExecItem(o, item, h, fuel); e.Ended? ==> CanItem(item, KindOf(e.ending))
    decreases fuel, item, 0
  {
    match item {
      case StmtItem(Some(s)) => EndingIsPossible(o, s, h, fuel);
      case _ =>
    }
  }

  lemma {:induction false} CanItemsSplit(items: seq<BlockItem>)
    requires items != []
    ensures var n := |items| - 1;
      forall k :: CanItems(items, k) <==>
        (CanItems(items[..n], Completes) && CanItem(items[n], k)) || (k != Completes && CanItems(items[..n], k))
  {
    var n := |items| - 1;
    assert items == items[..n] + [items[n]];
    forall k | k != Completes
      ensures CanItems(items, k) <==>
        (CanItems(items[..n], Completes) && CanItem(items[n], k)) || CanItems(items[..n], k)
    {
      forall i | 0 <= i < n
        ensures items[..n][i] == items[i] && items[..n][..i] == items[..i]
      {
      }
      if i :| 0 <= i < n && CanItem(items[i], k) && CanItems(items[..i], Completes) {
        assert CanItem(items[..n][i], k) && CanItems(items[..n][..i], Completes);
      }
    }
  }

  // ------------------------------------------------------- what is possible happens

  /** Decides a condition by the number of expressions evaluated up to it. */
  function Following(plan: seq<bool>): Oracle {
    (h: History) => |h| < |plan| && plan[|h|]
  }

  /** Every plan that begins with p ends the statement like this, given enough rounds; p
      goes no further than the history at that end. */
  ghost predicate Leads(p: seq<bool>, n: nat, s: Stmt, h: History, e: Effect) {
    && e.Ended? && |p| == |e.history| + 1
    && forall q, fuel: nat :: p <= q && n <= fuel ==> Exec(Following(q), s, h, fuel) == e
  }

  ghost predicate ItemsLead(p: seq<bool>, n: nat, items: seq<BlockItem>, h: History, e: Effect) {
    && e.Ended? && |p| == |e.history| + 1
    && forall q, fuel: nat :: p <= q && n <= fuel ==> ExecItems(Following(q), items, h, fuel) == e
  }

  /** Decides the next condition, and looks no further. */
  function Decide(p: seq<bool>, choice: bool): seq<bool> {
    p + [choice]
  }

  function DecideOptional(p: seq<bool>, e: Option<Expr>): seq<bool> {
    if e.Some? then Decide(p, false) else p
  }

  lemma {:induction false} Decided(p: seq<bool>, q: seq<bool>, choice: bool, h: History)
    requires Decide(p, choice) <= q && |p| == |h|
    ensures Following(q)(h) == choice
  {
    assert q[|p|] == Decide(p, choice)[|p|];
  }

  lemma {:induction false} PossibleHappens(s: Stmt, k: Kind, h: History, p: seq<bool>)
    returns (p': seq<bool>, n: nat, e: Effect)
    requires Can(s, k) && |p| == |h| + 1
    ensures p <= p' && Leads(p', n, s, h, e) && KindOf(e.ending) == k
    decreases s, 1
  {
    match s {
      case ExprStmt(x) =>
        p', n, e := Decide(p, false), 0, Ended(h + [x], Normal);
      case Compound(items) =>
        p', n, e := ItemsHappen(items, k, h, p);
        LeadsCompound(p', n, s, h, e);
      case If(c, yes, no) =>
        p', n, e := BranchHappens(s, k, h, p);
      case For(_, _, _, _) =>
        p', n, e := LoopHappens(s, k, h, p);
      case Continue => p', n, e := p, 0, Ended(h, Continued);
      case Break => p', n, e := p, 0, Ended(h, Broke);
      case Return(v) =>
        p', n, e := DecideOptional(p, v), 0, Ended(Evaluate(v, h), Returned(v));
    }
  }

  lemma {:induction false} LeadsCompound(p: seq<bool>, n: nat, s: Stmt, h: History, e: Effect)
    requires s.Compound? && ItemsLead(p, n, s.items, h, e)
    ensures Leads(p, n, s, h, e)
  {
  }

  lemma {:induction false} OptionalHappens(s: Option<Stmt>, k: Kind, h: History, p: seq<bool>)
    returns (p': seq<bool>, n: nat, e: Effect)
    requires CanOptional(s, k) && |p| == |h| + 1
    ensures p <= p' && OptionalLeads(p', n, s, h, e) && KindOf(e.ending) == k
    decreases s, 0
  {
    if s.Some? {
      p', n, e := PossibleHappens(s.value, k, h, p);
    } else {
      p', n, e := p, 0, Ended(h, Normal);
    }
  }

  /** A branch or the body of a loop, which may be missing. */
  ghost predicate OptionalLeads(p: seq<bool>, n: nat, s: Option<Stmt>, h: History, e: Effect) {
    if s.Some? then Leads(p, n, s.value, h, e) else e == Ended(h, Normal) && |p| == |h| + 1
  }

  lemma {:induction false} BranchHappens(s: Stmt, k: Kind, h: History, p: seq<bool>)
    returns (p': seq<bool>, n: nat, e: Effect)
    requires s.If? && Can(s, k) && |p| == |h| + 1
    ensures p <= p' && Leads(p', n, s, h, e) && KindOf(e.ending) == k
    decreases s, 0
  {
    var choice := CanOptional(s.yes, k);
    var h1 := h + [s.condition];
    p', n, e := OptionalHappens(if choice then s.yes else s.no, k, h1, Decide(p, choice));
    forall q, fuel: nat | p' <= q && n <= fuel
      ensures Exec(Following(q), s, h, fuel) == e
    {
      Decided(p, q, choice, h1);
    }
  }

  lemma {:induction false} LoopHappens(s: Stmt, k: Kind, h: History, p: seq<bool>)
    returns (p': seq<bool>, n: nat, e: Effect)
    requires s.For? && Can(s, k) && |p| == |h| + 1
    ensures p <= p' && Leads(p', n, s, h, e) && KindOf(e.ending) == k
    decreases s, 0
  {
    var h1, p1 := Evaluate(s.initial, h), DecideOptional(p, s.initial);
    if k == Completes && s.test.Some? {
      p', n, e := Decide(p1, false), 1, Ended(h1 + [s.test.value], Normal);
      forall q, fuel: nat | p' <= q && n <= fuel
        ensures Exec(Following(q), s, h, fuel) == e
      {
        Decided(p1, q, false, h1 + [s.test.value]);
      }
    } else {
      var h2 := Evaluate(s.test, h1);
      var p2 := if s.test.Some? then Decide(p1, true) else p1;
      var ending := if k == Completes then Breaks else k;
      var m, round;
      p', m, round := OptionalHappens(s.body, ending, h2, p2);
      n, e := m + 1, if k == Completes then Ended(round.history, Normal) else round;
      forall q, fuel: nat | p' <= q && n <= fuel
        ensures Exec(Following(q), s, h, fuel) == e
      {
        FirstRound(s, h1, p1, q, fuel);
        assert ExecBody(Following(q), s, h2, fuel - 1) == round;
      }
    }
  }

  /** The condition of the first round holds where the plan says so. */
  lemma {:induction false} FirstRound(s: Stmt, h: History, p: seq<bool>, q: seq<bool>, fuel: nat)
    requires s.For? && |p| == |h| + 1 && fuel > 0
    requires s.test.Some? ==> Decide(p, true) <= q
    ensures s.test.Some? ==> Following(q)(h + [s.test.value])
  {
    if s.test.Some? {
      Decided(p, q, true, h + [s.test.value]);
    }
  }

  lemma {:induction false} ItemsHappen(items: seq<BlockItem>, k: Kind, h: History, p: seq<bool>)
    returns (p': seq<bool>, n: nat, e: Effect)
    requires CanItems(items, k) && |p| == |h| + 1
    ensures p <= p' && ItemsLead(p', n, items, h, e) && KindOf(e.ending) == k
    decreases items, 0
  {
    if items == [] {
      p', n, e := p, 0, Ended(h, Normal);
    } else {
      var m := |items| - 1;
      CanItemsSplit(items);
      if k != Completes && CanItems(items[..m], k) {
        p', n, e := ItemsHappen(items[..m], k, h, p);
      } else {
        var p1, n1, e1 := ItemsHappen(items[..m], Completes, h, p);
        var n2;
        p', n2, e := ItemHappens(items[m], k, e1.history, p1);
        n := n1 + n2;
        JoinItems(items, h, p1, n1, e1, p', n2, e);
      }
    }
  }

  ghost predicate ItemLeads(p: seq<bool>, n: nat, item: BlockItem, h: History, e: Effect) {
    && e.Ended? && |p| == |e.history| + 1
    && forall q, fuel: nat :: p <= q && n <= fuel ==> ExecItem(Following(q), item, h, fuel) == e
  }

  lemma {:induction false} ItemHappens(item: BlockItem, k: Kind, h: History, p: seq<bool>)
    returns (p': seq<bool>, n: nat, e: Effect)
    requires CanItem(item, k) && |p| == |h| + 1
    ensures p <= p' && ItemLeads(p', n, item, h, e) && KindOf(e.ending) == k
    decreases item, 0
  {
    match item {
      case StmtItem(Some(s)) => p', n, e := PossibleHappens(s, k, h, p);
      case DeclItem(Some(Variable(x))) => p', n, e := Decide(p, false), 0, Ended(h + [x], Normal);
      case _ => p', n, e := p, 0, Ended(h, Normal);
    }
  }

  lemma {:induction false} JoinItems(items: seq<BlockItem>, h: History, p1: seq<bool>, n1: nat, e1: Effect,
          p2: seq<bool>, n2: nat, e2: Effect)
    requires items != [] && p1 <= p2
    requires ItemsLead(p1, n1, items[..|items| - 1], h, e1) && e1.ending == Normal
    requires ItemLeads(p2, n2, items[|items| - 1], e1.history, e2)
    ensures ItemsLead(p2, n1 + n2, items, h, e2)
  {
    forall q, fuel: nat | p2 <= q && n1 + n2 <= fuel
      ensures ExecItems(Following(q), items, h, fuel) == e2
    {
      assert ExecItems(Following(q), items[..|items| - 1], h, fuel) == e1;
      assert ExecItem(Following(q), items[|items| - 1], e1.history, fuel) == e2;
    }
  }

  // ------------------------------------------------------------------------ both ways

  ghost predicate EndsAs(o: Oracle, s: Stmt, h: History, fuel: nat, k: Kind) {
    var e := Exec(o, s, h, fuel);
    e.Ended? && KindOf(e.ending) == k
  }

  /** The syntax tells exactly how a statement can end: by completing, breaking, continuing or returning. */
  lemma {:induction false} CanIff(s: Stmt, k: Kind, h: History)
    ensures Can(s, k) <==> exists o, fuel: nat :: EndsAs(o, s, h, fuel, k)
  {
    if Can(s, k) {
      var p, n, e := PossibleHappens(s, k, h, seq(|h| + 1, _ => false));
      assert EndsAs(Following(p), s, h, n, k);
    }
    if o, fuel: nat :| EndsAs(o, s, h, fuel, k) {
      EndingIsPossible(o, s, h, fuel);
    }
  }

  /** The verdict on a function, from its syntax: a misplaced jump is refused, a function that
      needs a value is reported unless its body marks its context, any other is accepted. */
  lemma {:induction false} VerdictIff(body: Stmt, isVoid: bool)
    ensures var code, placed := LowerFunction(body, isVoid), Placed(body, Targets(None, None));
      && (code.NoTarget? <==> !placed)
      && (code.Accepted? <==> placed && (isVoid || Terminates(body)))
      && (code.MissingReturn? <==> placed && !isVoid && !Terminates(body))
  {
    var none := Targets(None, None);
    LowersIffPlaced(body, [[]], 0, none, none);
    if Placed(body, none) {
      MarkIsTerminates(body, [[]], 0, none);
    }
  }

  /** The body is reported for a missing return although no execution completes it. */
  ghost predicate WronglyReported(body: Stmt) {
    LowerFunction(body, false) == MissingReturn && forall o, fuel: nat :: !EndsAs(o, body, [], fuel, Completes)
  }

  /** The bodies reported without need are those that neither mark their context nor can
      complete: where every way through is blocked, but only by loops. */
  lemma {:induction false} WronglyReportedIff(body: Stmt)
    requires Placed(body, Targets(None, None))
    ensures WronglyReported(body) <==> !Terminates(body) && !Can(body, Completes)
  {
    VerdictIff(body, false);
    CanIff(body, Completes, []);
  }

  /** What can complete is reported, so nothing that needs a return is missed. */
  lemma {:induction false} CompletingIsReported(body: Stmt)
    requires Placed(body, Targets(None, None)) && Can(body, Completes)
    ensures LowerFunction(body, false) == MissingReturn
  {
    VerdictIff(body, false);
    CanIff(body, Completes, []);
    var o, fuel: nat :| EndsAs(o, body, [], fuel, Completes);
    if LowerFunction(body, false).Accepted? {
      NeverFallsOff(body, o, fuel);
    }
  }

  /** Some loop on the way has neither a condition nor a break that can be reached. */
  predicate Trapped(s: Stmt)
    decreases s, 1
  {
    match s
    case Compound(items) => exists item :: item in items && TrappedItem(item)
    case If(_, yes, no) => (yes.Some? && Trapped(yes.value)) || (no.Some? && Trapped(no.value))
    case For(_, test, _, body) => test.None? && !CanOptional(body, Breaks)
    case _ => false
  }

  predicate TrappedItem(item: BlockItem)
    decreases item, 0
  {
    match item
    case StmtItem(Some(s)) => Trapped(s)
    case _ => false
  }

  /** Only such a loop can make the check report too much. */
  lemma {:induction false} OnlyLoopsMislead(s: Stmt)
    requires !Terminates(s) && !Can(s, Completes)
    ensures Trapped(s)
    decreases s, 1
  {
    match s {
      case Compound(items) =>
        var item :| item in items && !CanItem(item, Completes);
        ItemMisleads(item);
      case If(_, yes, no) =>
        if !Terminates(yes.value) {
          OnlyLoopsMislead(yes.value);
        } else {
          OnlyLoopsMislead(no.value);
        }
      case _ =>
    }
  }

  lemma {:induction false} ItemMisleads(item: BlockItem)
    requires !TerminatesItem(item) && !CanItem(item, Completes)
    ensures TrappedItem(item)
    decreases item, 0
  {
    match item {
      case StmtItem(Some(s)) => OnlyLoopsMislead(s);
    }
  }
}
