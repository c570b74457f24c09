/** Whole functions: what their blocks compute, when they are rejected, and when every
    block is well formed. */
module Functions {
  import opened Options
  import opened Statements
  import opened Blocks
  import opened Lowering
  import opened Preservation

  const ENTRY := At(0, 0, [])

  /** The body returns: explicitly, or without a value by completing. */
  ghost predicate BodyReturns(o: Oracle, body: Stmt, h: History, v: Option<Expr>) {
    exists fuel: nat :: EndsBy(o, body, fuel, h, v)
  }

  ghost predicate EndsBy(o: Oracle, body: Stmt, fuel: nat, h: History, v: Option<Expr>) {
    var e := Exec(o, body, [], fuel);
    e == Ended(h, Returned(v)) || (v == None && e == Ended(h, Normal))
  }

  // ------------------------------------------------------------------- preservation

  /** In an accepted function every execution of the body, cut off or not, is that of
      the blocks; a body that must return a value never completes without. */
  lemma {:induction false} BodyMeaning(body: Stmt, isVoid: bool, o: Oracle, fuel: nat, f: seq<Block>)
    requires LowerFunction(body, isVoid) == Accepted(f)
    ensures match Exec(o, body, [], fuel)
      case Cut(h) => GoesOn(f, o, ENTRY, fuel, h)
      case Ended(h, Returned(v)) => Reaches(f, o, ENTRY, Returns(h, v))
      case Ended(h, Normal) => isVoid && Reaches(f, o, ENTRY, Returns(h, None))
      case Ended(_, _) => false
  {
    var t := Targets(None, None);
    var r := Lower(body, [[]], 0, t).value;
    PutGrows(r.blocks, r.insert, Ret(None));
    Simulate(f, o, body, [[]], 0, t, [], fuel);
    var e := Exec(o, body, [], fuel);
    if e.Ended? && e.ending.Normal? {
      if r.terminated {
        TerminatedNeverCompletes(o, body, [[]], 0, t, [], fuel);
      }
      StepPut(f, o, r.blocks, r.insert, Ret(None), e.history);
      ReachesTransitive(f, o, ENTRY, At(r.insert, |r.blocks[r.insert]|, e.history), Returns(e.history, None));
    }
  }

  /** A non-void function that passes the missing-return check never falls off its end. */
  lemma {:induction false} NeverFallsOff(body: Stmt, o: Oracle, fuel: nat)
    requires LowerFunction(body, false).Accepted?
    ensures Exec(o, body, [], fuel).Ended? ==> Exec(o, body, [], fuel).ending.Returned?
  {
    BodyMeaning(body, false, o, fuel, LowerFunction(body, false).blocks);
  }

  /** A run that is over after n steps is not going on after more. */
  lemma {:induction false} OverIsOver(f: seq<Block>, o: Oracle, c: Config, n: nat, h: History)
    requires !Run(f, o, c, n).At?
    ensures !GoesOn(f, o, c, n, h)
  {
    forall m: nat | m >= n
      ensures Run(f, o, c, m) == Run(f, o, c, n)
    {
      RunCompose(f, o, c, n, m - n);
      RunStays(f, o, Run(f, o, c, n), m - n);
    }
  }

  /** Whatever final configuration the blocks reach, the body returned just so. */
  lemma {:induction false} FinalIsReturn(body: Stmt, isVoid: bool, o: Oracle, f: seq<Block>, d: Config)
    requires LowerFunction(body, isVoid) == Accepted(f) && Reaches(f, o, ENTRY, d) && !d.At?
    ensures d.Returns? && BodyReturns(o, body, d.history, d.value)
  {
    var n: nat :| Run(f, o, ENTRY, n) == d;
    BodyMeaning(body, isVoid, o, n, f);
    match Exec(o, body, [], n) {
      case Cut(h) =>
        OverIsOver(f, o, ENTRY, n, h);
      case Ended(h, Returned(v)) =>
        FinalOnce(f, o, ENTRY, d, Returns(h, v));
        assert EndsBy(o, body, n, h, v);
      case Ended(h, Normal) =>
        FinalOnce(f, o, ENTRY, d, Returns(h, None));
        assert EndsBy(o, body, n, h, None);
    }
  }

  /** The blocks of an accepted function return, with a history and a value, exactly when
      the body does; so they run forever exactly when the body does. */
  lemma {:induction false} FunctionPreserved(body: Stmt, isVoid: bool, o: Oracle, f: seq<Block>, h: History,
          v: Option<Expr>)
    requires LowerFunction(body, isVoid) == Accepted(f)
    ensures BodyReturns(o, body, h, v) <==> Reaches(f, o, ENTRY, Returns(h, v))
  {
    if BodyReturns(o, body, h, v) {
      var fuel: nat :| EndsBy(o, body, fuel, h, v);
      BodyMeaning(body, isVoid, o, fuel, f);
    }
    if Reaches(f, o, ENTRY, Returns(h, v)) {
      FinalIsReturn(body, isVoid, o, f, Returns(h, v));
    }
  }

  /** No run of an accepted function gets stuck at a block's end or an unreachable point. */
  lemma {:induction false} NeverStuck(body: Stmt, isVoid: bool, o: Oracle, f: seq<Block>)
    requires LowerFunction(body, isVoid) == Accepted(f)
    ensures !Reaches(f, o, ENTRY, Stuck)
  {
    if Reaches(f, o, ENTRY, Stuck) {
      FinalIsReturn(body, isVoid, o, f, Stuck);
    }
  }

  // --------------------------------------------------------------------- rejections

  /** Every break and continue has a loop around it, or a target from outside. */
  predicate Placed(s: Stmt, t: Targets)
    decreases s, 1
  {
    match s
    case Compound(items) => PlacedItems(items, t)
    case If(_, yes, no) => (yes.Some? ==> Placed(yes.value, t)) && (no.Some? ==> Placed(no.value, t))
    case For(_, _, _, body) => body.Some? ==> Placed(body.value, Targets(Some(0), Some(0)))
    case Continue => t.continueBlock.Some?
    case Break => t.breakBlock.Some?
    case _ => true
  }

  predicate PlacedItems(items: seq<BlockItem>, t: Targets)
    decreases items, 0
  {
    forall item :: item in items ==> PlacedItem(item, t)
  }

  predicate PlacedItem(item: BlockItem, t: Targets)
    decreases item, 0
  {
    match item
    case StmtItem(Some(s)) => Placed(s, t)
    case _ => true
  }

  predicate SameTargets(t: Targets, u: Targets) {
    t.continueBlock.Some? == u.continueBlock.Some? && t.breakBlock.Some? == u.breakBlock.Some?
  }

  /** The generator's assertion on a missing target fails exactly for a misplaced break
      or continue. */
  lemma {:induction false} LowersIffPlaced(s: Stmt, bs: seq<Block>, b: nat, t: Targets, u: Targets)
    requires b < |bs| && SameTargets(t, u)
    ensures Lower(s, bs, b, t).Some? <==> Placed(s, u)
    decreases s, 1
  {
    match s {
      case Compound(items) => ItemsLowerIffPlaced(items, bs, b, t, u);
      case If(_, _, _) => IfLowersIffPlaced(s, bs, b, t, u);
      case For(_, _, _, _) => ForLowersIffPlaced(s, bs, b, t, u);
      case _ =>
    }
  }

  lemma {:induction false} IfLowersIffPlaced(s: Stmt, bs: seq<Block>, b: nat, t: Targets, u: Targets)
    requires s.If? && b < |bs| && SameTargets(t, u)
    ensures LowerIf(s, bs, b, t).Some? <==> Placed(s, u)
    decreases s, 0
  {
    if s.yes.Some? {
      LowersIffPlaced(s.yes.value, IfHead(s, bs, b), |bs|, t, u);
    }
    var branch := LowerOptional(s.yes, IfHead(s, bs, b), |bs|, t);
    if s.no.Some? && branch.Some? {
      LowersIffPlaced(s.no.value, Leave(branch.value, IfExit(s, bs)), |bs| + 1, t, u);
    }
  }

  lemma {:induction false} ForLowersIffPlaced(s: Stmt, bs: seq<Block>, b: nat, t: Targets, u: Targets)
    requires s.For? && b < |bs|
    ensures LowerFor(s, bs, b, t).Some? <==> Placed(s, u)
    decreases s, 0
  {
    if s.body.Some? {
      LowersIffPlaced(s.body.value, ForHead(s, bs, b), |bs| + 1, LoopTargets(bs), Targets(Some(0), Some(0)));
    }
  }

  lemma {:induction false} ItemsLowerIffPlaced(items: seq<BlockItem>, bs: seq<Block>, b: nat, t: Targets, u: Targets)
    requires b < |bs| && SameTargets(t, u)
    ensures LowerItems(items, bs, b, t).Some? <==> PlacedItems(items, u)
    decreases items, 0
  {
    if items != [] {
      var n := |items| - 1;
      ItemsLowerIffPlaced(items[..n], bs, b, t, u);
      assert items == items[..n] + [items[n]];
      var before := LowerItems(items[..n], bs, b, t);
      if before.Some? {
        ItemLowersIffPlaced(items[n], before.value.blocks, before.value.insert, t, u);
      }
    }
  }

  lemma {:induction false} ItemLowersIffPlaced(item: BlockItem, bs: seq<Block>, b: nat, t: Targets, u: Targets)
    requires b < |bs| && SameTargets(t, u)
    ensures LowerItem(item, bs, b, t).Some? <==> PlacedItem(item, u)
    decreases item, 0
  {
    match item {
      case StmtItem(Some(s)) => LowersIffPlaced(s, bs, b, t, u);
      case _ =>
    }
  }

  const ENDLESS_LOOP := For(None, None, None, None)

  lemma {:induction false} EndlessLoopRuns(o: Oracle, h: History, fuel: nat)
    ensures ExecLoop(o, ENDLESS_LOOP, h, fuel).Cut?
    decreases fuel
  {
    if fuel > 0 {
      EndlessLoopRuns(o, h, fuel - 1);
    }
  }

  /** The missing-return check is not exact: a body that never completes can be
      reported. */
  lemma {:induction false} MissingReturnIsConservative(o: Oracle, fuel: nat)
    ensures LowerFunction(ENDLESS_LOOP, false) == MissingReturn
    ensures !Exec(o, ENDLESS_LOOP, [], fuel).Ended?
  {
    EndlessLoopRuns(o, [], fuel);
  }
}
