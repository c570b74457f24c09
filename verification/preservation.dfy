/** The lowering preserves meaning: the blocks of a statement evaluate the same
    expressions in the same order and end the same way as the statement itself. */
module Preservation {
  import opened Options
  import opened Statements
  import opened Blocks
  import opened Lowering

  // ------------------------------------------------------------------ growing code

  /** Blocks were only appended, and existing blocks only extended at their ends. */
  ghost predicate Grows(bs: seq<Block>, f: seq<Block>) {
    |bs| <= |f| && forall b :: 0 <= b < |bs| ==> bs[b] <= f[b]
  }

  lemma {:induction false} GrowsTransitive(a: seq<Block>, b: seq<Block>, c: seq<Block>)
    requires Grows(a, b) && Grows(b, c)
    ensures Grows(a, c)
  {
  }

  /** Only block b and new blocks were touched; insertion goes on in one of these. */
  ghost predicate Touches(bs: seq<Block>, b: nat, r: Emitted)
    requires b < |bs|
  {
    && |bs| <= |r.blocks| && r.insert < |r.blocks| && (r.insert == b || |bs| <= r.insert)
    && bs[b] <= r.blocks[b] && forall k :: 0 <= k < |bs| && k != b ==> r.blocks[k] == bs[k]
  }

  lemma {:induction false} TouchesGrows(bs: seq<Block>, b: nat, r: Emitted)
    requires b < |bs| && Touches(bs, b, r)
    ensures Grows(bs, r.blocks)
  {
  }

  lemma {:induction false} LowerTouches(s: Stmt, bs: seq<Block>, b: nat, t: Targets)
    requires b < |bs| && Lower(s, bs, b, t).Some?
    ensures Touches(bs, b, Lower(s, bs, b, t).value)
    decreases s, 1
  {
    match s {
      case Compound(items) => ItemsTouch(items, bs, b, t);
      case If(_, _, _) => IfTouches(s, bs, b, t);
      case For(_, _, _, _) => ForTouches(s, bs, b, t);
      case _ =>
    }
  }

  lemma {:induction false} ItemsTouch(items: seq<BlockItem>, bs: seq<Block>, b: nat, t: Targets)
    requires b < |bs| && LowerItems(items, bs, b, t).Some?
    ensures Touches(bs, b, LowerItems(items, bs, b, t).value)
    decreases items, 0
  {
    if items != [] {
      var n := |items| - 1;
      var before := LowerItems(items[..n], bs, b, t).value;
      ItemsTouch(items[..n], bs, b, t);
      ItemTouches(items[n], before.blocks, before.insert, t);
    }
  }

  lemma {:induction false} ItemTouches(item: BlockItem, bs: seq<Block>, b: nat, t: Targets)
    requires b < |bs| && LowerItem(item, bs, b, t).Some?
    ensures Touches(bs, b, LowerItem(item, bs, b, t).value)
    decreases item, 0
  {
    match item {
      case StmtItem(Some(s)) => LowerTouches(s, bs, b, t);
      case _ =>
    }
  }

  lemma {:induction false} OptionalTouches(s: Option<Stmt>, bs: seq<Block>, b: nat, t: Targets)
    requires b < |bs| && LowerOptional(s, bs, b, t).Some?
    ensures Touches(bs, b, LowerOptional(s, bs, b, t).value)
    decreases s, 2
  {
    if s.Some? {
      LowerTouches(s.value, bs, b, t);
    }
  }

  lemma {:induction false} IfTouches(s: Stmt, bs: seq<Block>, b: nat, t: Targets)
    requires b < |bs| && s.If? && LowerIf(s, bs, b, t).Some?
    ensures Touches(bs, b, LowerIf(s, bs, b, t).value)
    decreases s, 0
  {
    var head, exit := IfHead(s, bs, b), IfExit(s, bs);
    OptionalTouches(s.yes, head, |bs|, t);
    if s.no.Some? {
      var left := Leave(LowerOptional(s.yes, head, |bs|, t).value, exit);
      LowerTouches(s.no.value, left, |bs| + 1, t);
    }
  }

  lemma {:induction false} ForTouches(s: Stmt, bs: seq<Block>, b: nat, t: Targets)
    requires b < |bs| && s.For? && LowerFor(s, bs, b, t).Some?
    ensures Touches(bs, b, LowerFor(s, bs, b, t).value)
    decreases s, 0
  {
    OptionalTouches(s.body, ForHead(s, bs, b), |bs| + 1, LoopTargets(bs));
  }

  // ----------------------------------------------------------- the termination mark

  /** A statement that terminates its context never completes normally. */
  lemma {:induction false} TerminatedNeverCompletes(o: Oracle, s: Stmt, bs: seq<Block>, b: nat, t: Targets,
          h: History, fuel: nat)
    requires b < |bs| && Lower(s, bs, b, t).Some? && Lower(s, bs, b, t).value.terminated
    ensures Exec(o, s, h, fuel).Ended? ==> Exec(o, s, h, fuel).ending != Normal
    decreases s, 1
  {
    match s {
      case Compound(items) => TerminatedItems(o, items, bs, b, t, h, fuel);
      case If(c, yes, no) =>
        var exit := IfExit(s, bs);
        var branch := LowerOptional(yes, IfHead(s, bs, b), |bs|, t).value;
        if o(h + [c]) {
          TerminatedNeverCompletes(o, yes.value, IfHead(s, bs, b), |bs|, t, h + [c], fuel);
        } else {
          TerminatedNeverCompletes(o, no.value, Leave(branch, exit), |bs| + 1, t, h + [c], fuel);
        }
      case _ =>
    }
  }

  lemma {:induction false} TerminatedItems(o: Oracle, items: seq<BlockItem>, bs: seq<Block>, b: nat, t: Targets,
          h: History, fuel: nat)
    requires b < |bs| && LowerItems(items, bs, b, t).Some? && LowerItems(items, bs, b, t).value.terminated
    ensures ExecItems(o, items, h, fuel).Ended? ==> ExecItems(o, items, h, fuel).ending != Normal
    decreases items, 0
  {
    var n := |items| - 1;
    var before := LowerItems(items[..n], bs, b, t).value;
    if before.terminated {
      TerminatedItems(o, items[..n], bs, b, t, h, fuel);
    } else {
      var e := ExecItems(o, items[..n], h, fuel);
      TerminatedItem(o, items[n], before.blocks, before.insert, t, e.history, fuel);
    }
  }

  lemma {:induction false} TerminatedItem(o: Oracle, item: BlockItem, bs: seq<Block>, b: nat, t: Targets, h: History,
          fuel: nat)
    requires b < |bs| && LowerItem(item, bs, b, t).Some? && LowerItem(item, bs, b, t).value.terminated
    ensures ExecItem(o, item, h, fuel).Ended? ==> ExecItem(o, item, h, fuel).ending != Normal
    decreases item, 0
  {
    match item {
      case StmtItem(Some(s)) => TerminatedNeverCompletes(o, s, bs, b, t, h, fuel);
      case _ =>
    }
  }

  // --------------------------------------------------------------------- simulation

  /** In the finished blocks f, running from c has the effect e of the statement: it gets
      to where r goes on inserting, to the start of a target, or returns; and it
      goes on for at least `fuel` steps when the statement is cut off. */
  ghost predicate Simulates(f: seq<Block>, o: Oracle, c: Config, e: Effect, fuel: nat, r: Emitted, t: Targets)
    requires r.insert < |r.blocks|
  {
    match e
    case Cut(h) => GoesOn(f, o, c, fuel, h)
    case Ended(h, Normal) => Reaches(f, o, c, At(r.insert, |r.blocks[r.insert]|, h))
    case Ended(h, Broke) => t.breakBlock.Some? && Reaches(f, o, c, At(t.breakBlock.value, 0, h))
    case Ended(h, Continued) => t.continueBlock.Some? && Reaches(f, o, c, At(t.continueBlock.value, 0, h))
    case Ended(h, Returned(v)) => Reaches(f, o, c, Returns(h, v))
  }

  /** Execution reaches c before it has the effect. */
  lemma {:induction false} SimulatesBehind(f: seq<Block>, o: Oracle, c: Config, d: Config, e: Effect, fuel: nat,
          r: Emitted, t: Targets)
    requires r.insert < |r.blocks| && Reaches(f, o, c, d) && Simulates(f, o, d, e, fuel, r, t)
    ensures Simulates(f, o, c, e, fuel, r, t)
  {
    match e {
      case Cut(h) => GoesOnBehind(f, o, c, d, fuel, h);
      case Ended(h, Normal) => ReachesTransitive(f, o, c, d, At(r.insert, |r.blocks[r.insert]|, h));
      case Ended(h, Broke) => ReachesTransitive(f, o, c, d, At(t.breakBlock.value, 0, h));
      case Ended(h, Continued) => ReachesTransitive(f, o, c, d, At(t.continueBlock.value, 0, h));
      case Ended(h, Returned(v)) => ReachesTransitive(f, o, c, d, Returns(h, v));
    }
  }

  /** Where bs ends in block b, f goes on with the instructions put there next. */
  lemma {:induction false} StepPut(f: seq<Block>, o: Oracle, bs: seq<Block>, b: nat, i: Instr, h: History)
    requires b < |bs| && Grows(Put(bs, b, i), f)
    ensures b < |f| && |bs[b]| < |f[b]| && f[b][|bs[b]|] == i
    ensures Reaches(f, o, At(b, |bs[b]|, h), Step(f, o, At(b, |bs[b]|, h)))
  {
    assert Put(bs, b, i)[b] == bs[b] + [i];
    ReachesStep(f, o, At(b, |bs[b]|, h));
  }

  lemma {:induction false} StepPutEval(f: seq<Block>, o: Oracle, bs: seq<Block>, b: nat, e: Option<Expr>, h: History)
    requires b < |bs| && Grows(PutEval(bs, b, e), f)
    ensures Reaches(f, o, At(b, |bs[b]|, h), At(b, |PutEval(bs, b, e)[b]|, Evaluate(e, h)))
  {
    if e.Some? {
      StepPut(f, o, bs, b, Eval(e.value), h);
    } else {
      ReachesSelf(f, o, At(b, |bs[b]|, h));
    }
  }

  lemma {:induction false} PutGrows(bs: seq<Block>, b: nat, i: Instr)
    requires b < |bs|
    ensures Grows(bs, Put(bs, b, i))
  {
  }

  lemma {:induction false} SimulateReturn(f: seq<Block>, o: Oracle, bs: seq<Block>, b: nat, v: Option<Expr>, h: History)
    requires b < |bs| && Grows(Put(PutEval(bs, b, v), b, Ret(v)), f)
    ensures Reaches(f, o, At(b, |bs[b]|, h), Returns(Evaluate(v, h), v))
  {
    var mid := PutEval(bs, b, v);
    PutGrows(mid, b, Ret(v));
    GrowsTransitive(mid, Put(mid, b, Ret(v)), f);
    StepPutEval(f, o, bs, b, v, h);
    StepPut(f, o, mid, b, Ret(v), Evaluate(v, h));
    ReachesTransitive(f, o, At(b, |bs[b]|, h), At(b, |mid[b]|, Evaluate(v, h)), Returns(Evaluate(v, h), v));
  }

  lemma {:induction false} Simulate(f: seq<Block>, o: Oracle, s: Stmt, bs: seq<Block>, b: nat, t: Targets, h: History,
          fuel: nat)
    requires b < |bs| && Lower(s, bs, b, t).Some? && Grows(Lower(s, bs, b, t).value.blocks, f)
    ensures Simulates(f, o, At(b, |bs[b]|, h), Exec(o, s, h, fuel), fuel, Lower(s, bs, b, t).value, t)
    decreases fuel, s, 3
  {
    match s {
      case ExprStmt(e) => StepPut(f, o, bs, b, Eval(e), h);
      case Compound(items) => SimulateItems(f, o, items, bs, b, t, h, fuel);
      case If(_, _, _) => SimulateIf(f, o, s, bs, b, t, h, fuel);
      case For(_, _, _, _) => SimulateFor(f, o, s, bs, b, t, h, fuel);
      case Continue => StepPut(f, o, bs, b, Br(t.continueBlock.value), h);
      case Break => StepPut(f, o, bs, b, Br(t.breakBlock.value), h);
      case Return(v) => SimulateReturn(f, o, bs, b, v, h);
    }
  }

  lemma {:induction false} SimulateItem(f: seq<Block>, o: Oracle, item: BlockItem, bs: seq<Block>, b: nat, t: Targets,
          h: History, fuel: nat)
    requires b < |bs| && LowerItem(item, bs, b, t).Some? && Grows(LowerItem(item, bs, b, t).value.blocks, f)
    ensures Simulates(f, o, At(b, |bs[b]|, h), ExecItem(o, item, h, fuel), fuel, LowerItem(item, bs, b, t).value, t)
    decreases fuel, item, 0
  {
    match item {
      case StmtItem(Some(s)) => Simulate(f, o, s, bs, b, t, h, fuel);
      case DeclItem(Some(Variable(e))) => StepPut(f, o, bs, b, Eval(e), h);
      case _ => ReachesSelf(f, o, At(b, |bs[b]|, h));
    }
  }

  lemma {:induction false} SimulateItems(f: seq<Block>, o: Oracle, items: seq<BlockItem>, bs: seq<Block>, b: nat,
          t: Targets, h: History, fuel: nat)
    requires b < |bs| && LowerItems(items, bs, b, t).Some? && Grows(LowerItems(items, bs, b, t).value.blocks, f)
    ensures Simulates(f, o, At(b, |bs[b]|, h), ExecItems(o, items, h, fuel), fuel, LowerItems(items, bs, b, t).value, t)
    decreases fuel, items, 0
  {
    var c := At(b, |bs[b]|, h);
    if items == [] {
      ReachesSelf(f, o, c);
    } else {
      var n := |items| - 1;
      var before := LowerItems(items[..n], bs, b, t).value;
      var last := LowerItem(items[n], before.blocks, before.insert, t).value;
      ItemTouches(items[n], before.blocks, before.insert, t);
      TouchesGrows(before.blocks, before.insert, last);
      GrowsTransitive(before.blocks, last.blocks, f);
      SimulateItems(f, o, items[..n], bs, b, t, h, fuel);
      var e := ExecItems(o, items[..n], h, fuel);
      if e.Ended? && e.ending.Normal? {
        SimulateItem(f, o, items[n], before.blocks, before.insert, t, e.history, fuel);
        var d := At(before.insert, |before.blocks[before.insert]|, e.history);
        SimulatesBehind(f, o, c, d, ExecItem(o, items[n], e.history, fuel), fuel, last, t);
      }
    }
  }

  lemma {:induction false} SimulateOptional(f: seq<Block>, o: Oracle, s: Option<Stmt>, bs: seq<Block>, b: nat,
          t: Targets, h: History, fuel: nat)
    requires b < |bs| && LowerOptional(s, bs, b, t).Some? && Grows(LowerOptional(s, bs, b, t).value.blocks, f)
    ensures Simulates(f, o, At(b, |bs[b]|, h), if s.Some? then Exec(o, s.value, h, fuel) else Ended(h, Normal), fuel,
                      LowerOptional(s, bs, b, t).value, t)
    decreases fuel, s, 4
  {
    if s.Some? {
      Simulate(f, o, s.value, bs, b, t, h, fuel);
    } else {
      ReachesSelf(f, o, At(b, |bs[b]|, h));
    }
  }

  // ------------------------------------------------------------------- if statements

  lemma {:induction false} LeaveGrows(r: Emitted, next: nat)
    requires r.insert < |r.blocks|
    ensures Grows(r.blocks, Leave(r, next))
  {
  }

  /** A branch that is left for block `next` has its effect, completing there. */
  lemma {:induction false} SimulateLeave(f: seq<Block>, o: Oracle, c: Config, e: Effect, fuel: nat, r: Emitted,
          next: nat, done: Emitted, t: Targets)
    requires r.insert < |r.blocks| && done.insert < |done.blocks| && Simulates(f, o, c, e, fuel, r, t)
    requires Grows(Leave(r, next), f) && done.insert == next
    requires e.Ended? && e.ending == Normal ==> !r.terminated && done.blocks[next] == []
    ensures Simulates(f, o, c, e, fuel, done, t)
  {
    if e.Ended? && e.ending == Normal {
      StepPut(f, o, r.blocks, r.insert, Br(next), e.history);
      ReachesTransitive(f, o, c, At(r.insert, |r.blocks[r.insert]|, e.history), At(next, 0, e.history));
    }
  }

  /** The head of an if statement runs to the chosen branch. */
  lemma {:induction false} RunIfHead(f: seq<Block>, o: Oracle, s: Stmt, bs: seq<Block>, b: nat, h: History)
    requires s.If? && b < |bs| && Grows(IfHead(s, bs, b), f)
    ensures Reaches(f, o, At(b, |bs[b]|, h), At(if o(h + [s.condition]) then |bs| else |bs| + 1, 0, h + [s.condition]))
  {
    var bs1 := Put(bs, b, Eval(s.condition));
    var bs2 := bs1 + NewBlocks(if s.no.Some? then 3 else 2);
    PutGrows(bs2, b, CondBr(|bs|, |bs| + 1));
    GrowsTransitive(bs2, IfHead(s, bs, b), f);
    assert Grows(bs1, bs2);
    GrowsTransitive(bs1, bs2, f);
    StepPut(f, o, bs, b, Eval(s.condition), h);
    assert bs2[b] == bs[b] + [Eval(s.condition)];
    StepPut(f, o, bs2, b, CondBr(|bs|, |bs| + 1), h + [s.condition]);
    ReachesTransitive(f, o, At(b, |bs[b]|, h), At(b, |bs2[b]|, h + [s.condition]),
                      At(if o(h + [s.condition]) then |bs| else |bs| + 1, 0, h + [s.condition]));
  }

  /** What an if statement emitted after each branch. */
  lemma {:induction false} StagesOfIf(s: Stmt, bs: seq<Block>, b: nat, t: Targets) returns (yes: Emitted)
    requires s.If? && b < |bs| && LowerIf(s, bs, b, t).Some?
    ensures LowerOptional(s.yes, IfHead(s, bs, b), |bs|, t) == Some(yes)
    ensures Touches(IfHead(s, bs, b), |bs|, yes)
    ensures Grows(IfHead(s, bs, b), yes.blocks) && Grows(yes.blocks, Leave(yes, IfExit(s, bs)))
    ensures IfHead(s, bs, b)[|bs|] == [] && Leave(yes, IfExit(s, bs))[|bs| + 1] == []
    ensures Leave(yes, IfExit(s, bs))[IfExit(s, bs)] == []
  {
    var head, exit := IfHead(s, bs, b), IfExit(s, bs);
    yes := LowerOptional(s.yes, head, |bs|, t).value;
    OptionalTouches(s.yes, head, |bs|, t);
    TouchesGrows(head, |bs|, yes);
    LeaveGrows(yes, exit);
    assert head[|bs|] == [] && head[exit] == [] && head[|bs| + 1] == [];
  }

  lemma {:induction false} StagesOfElse(s: Stmt, bs: seq<Block>, b: nat, t: Targets,
          left: seq<Block>) returns (no: Emitted)
    requires s.If? && s.no.Some? && |bs| + 2 < |left| && left[|bs| + 2] == []
    requires Lower(s.no.value, left, |bs| + 1, t).Some?
    ensures Lower(s.no.value, left, |bs| + 1, t) == Some(no)
    ensures Grows(left, no.blocks) && Grows(no.blocks, Leave(no, |bs| + 2)) && Leave(no, |bs| + 2)[|bs| + 2] == []
  {
    no := Lower(s.no.value, left, |bs| + 1, t).value;
    LowerTouches(s.no.value, left, |bs| + 1, t);
    TouchesGrows(left, |bs| + 1, no);
    LeaveGrows(no, |bs| + 2);
  }

  /** The true branch has its effect within the if statement. */
  lemma {:induction false} SimulateYes(f: seq<Block>, o: Oracle, s: Stmt, bs: seq<Block>, b: nat, t: Targets,
          h: History, fuel: nat,
                                       yes: Emitted, done: Emitted)
    requires b < |bs| && s.If? && LowerOptional(s.yes, IfHead(s, bs, b), |bs|, t) == Some(yes)
    requires yes.insert < |yes.blocks|
    requires Grows(Leave(yes, IfExit(s, bs)), f) && done.insert == IfExit(s, bs) < |done.blocks|
    requires !yes.terminated ==> done.blocks[done.insert] == []
    requires Grows(yes.blocks, f)
    ensures var e := if s.yes.Some? then Exec(o, s.yes.value, h, fuel) else Ended(h, Normal);
      Simulates(f, o, At(|bs|, 0, h), e, fuel, done, t)
    decreases fuel, s, 1
  {
    assert IfHead(s, bs, b)[|bs|] == [];
    var e := if s.yes.Some? then Exec(o, s.yes.value, h, fuel) else Ended(h, Normal);
    SimulateOptional(f, o, s.yes, IfHead(s, bs, b), |bs|, t, h, fuel);
    if s.yes.Some? && yes.terminated {
      TerminatedNeverCompletes(o, s.yes.value, IfHead(s, bs, b), |bs|, t, h, fuel);
    }
    SimulateLeave(f, o, At(|bs|, 0, h), e, fuel, yes, IfExit(s, bs), done, t);
  }

  lemma {:induction false} SimulateNo(f: seq<Block>, o: Oracle, s: Stmt, bs: seq<Block>, t: Targets, h: History,
          fuel: nat,
                                      left: seq<Block>, no: Emitted, done: Emitted)
    requires s.If? && s.no.Some? && |bs| + 1 < |left| && left[|bs| + 1] == []
    requires Lower(s.no.value, left, |bs| + 1, t) == Some(no) && no.insert < |no.blocks|
    requires Grows(Leave(no, |bs| + 2), f) && Grows(no.blocks, f) && done.insert == |bs| + 2 < |done.blocks|
    requires !no.terminated ==> done.blocks[done.insert] == []
    ensures Simulates(f, o, At(|bs| + 1, 0, h), Exec(o, s.no.value, h, fuel), fuel, done, t)
    decreases fuel, s, 1
  {
    Simulate(f, o, s.no.value, left, |bs| + 1, t, h, fuel);
    if no.terminated {
      TerminatedNeverCompletes(o, s.no.value, left, |bs| + 1, t, h, fuel);
    }
    SimulateLeave(f, o, At(|bs| + 1, 0, h), Exec(o, s.no.value, h, fuel), fuel, no, |bs| + 2, done, t);
  }

  lemma {:induction false} SimulateIf(f: seq<Block>, o: Oracle, s: Stmt, bs: seq<Block>, b: nat, t: Targets,
          h: History, fuel: nat)
    requires b < |bs| && s.If? && LowerIf(s, bs, b, t).Some? && Grows(LowerIf(s, bs, b, t).value.blocks, f)
    ensures Simulates(f, o, At(b, |bs[b]|, h), Exec(o, s, h, fuel), fuel, LowerIf(s, bs, b, t).value, t)
    decreases fuel, s, 2
  {
    var done, exit, h1 := LowerIf(s, bs, b, t).value, IfExit(s, bs), h + [s.condition];
    var yes := StagesOfIf(s, bs, b, t);
    var left := Leave(yes, exit);
    if s.no.Some? {
      var no := StagesOfElse(s, bs, b, t, left);
      var right := Leave(no, exit);
      assert Grows(right, done.blocks);
      GrowsTransitive(right, done.blocks, f);
      GrowsTransitive(no.blocks, right, f);
      GrowsTransitive(left, no.blocks, f);
      if !o(h1) {
        SimulateNo(f, o, s, bs, t, h1, fuel, left, no, done);
      }
    }
    GrowsTransitive(yes.blocks, left, f);
    GrowsTransitive(IfHead(s, bs, b), yes.blocks, f);
    RunIfHead(f, o, s, bs, b, h);
    var d := At(if o(h1) then |bs| else |bs| + 1, 0, h1);
    if o(h1) {
      SimulateYes(f, o, s, bs, b, t, h1, fuel, yes, done);
    } else if s.no.None? {
      ReachesSelf(f, o, d);
    }
    SimulatesBehind(f, o, At(b, |bs[b]|, h), d, Exec(o, s, h, fuel), fuel, done, t);
  }

  // ---------------------------------------------------------------------------- loops

  /** One step first: the effect is the same, and a cut is one step further off. */
  lemma {:induction false} SimulatesStep(f: seq<Block>, o: Oracle, c: Config, e: Effect, fuel: nat, r: Emitted,
          t: Targets)
    requires r.insert < |r.blocks| && Simulates(f, o, Step(f, o, c), e, fuel, r, t)
    ensures Simulates(f, o, c, e, fuel + 1, r, t)
  {
    match e {
      case Cut(h) => GoesOnStep(f, o, c, fuel, h);
      case _ =>
        ReachesStep(f, o, c);
        SimulatesBehind(f, o, c, Step(f, o, c), e, fuel, r, t);
    }
  }

  /** The blocks of a loop: its condition, body, step and exit are in f, in this order. */
  ghost predicate LoopIn(f: seq<Block>, s: Stmt, n: nat, body: Emitted)
    requires s.For?
  {
    && body.insert < |body.blocks| && n + 3 < |body.blocks|
    && Grows(Put(body.blocks, body.insert, Br(n + 2)), f) && Grows(body.blocks, f)
    && (if s.test.Some? then [Eval(s.test.value), CondBr(n + 1, n + 3)] else [Br(n + 1)]) <= f[n]
    && (if s.step.Some? then [Eval(s.step.value), Br(n)] else [Br(n)]) <= f[n + 2]
  }

  lemma {:induction false} HeadOfFor(s: Stmt, bs: seq<Block>, b: nat)
    requires b < |bs| && s.For?
    ensures var head := ForHead(s, bs, b);
      && head[|bs| + 1] == [] && head[|bs| + 2] == [] && head[|bs| + 3] == []
      && head[|bs|] == if s.test.Some? then [Eval(s.test.value), CondBr(|bs| + 1, |bs| + 3)] else [Br(|bs| + 1)]
  {
  }

  /** The step of a loop, behind its body. */
  function StepBack(s: Stmt, n: nat, left: seq<Block>): (r: seq<Block>)
    requires s.For? && n + 2 < |left|
    ensures |r| == |left|
  {
    Put(PutEval(left, n + 2, s.step), n + 2, Br(n))
  }

  lemma {:induction false} BackOfFor(s: Stmt, n: nat, left: seq<Block>)
    requires s.For? && n + 2 < |left| && left[n + 2] == []
    ensures var done := StepBack(s, n, left);
      && Grows(left, done) && (forall k :: 0 <= k < |left| && k != n + 2 ==> done[k] == left[k])
      && done[n + 2] == if s.step.Some? then [Eval(s.step.value), Br(n)] else [Br(n)]
  {
  }

  lemma {:induction false} LowerForIs(s: Stmt, bs: seq<Block>, b: nat, t: Targets) returns (body: Emitted)
    requires b < |bs| && s.For? && LowerFor(s, bs, b, t).Some?
    ensures LowerOptional(s.body, ForHead(s, bs, b), |bs| + 1, LoopTargets(bs)) == Some(body)
    ensures body.insert < |body.blocks| && |bs| + 4 <= |body.blocks|
    ensures LowerFor(s, bs, b, t).value.blocks == StepBack(s, |bs|, Put(body.blocks, body.insert, Br(|bs| + 2)))
  {
    body := LowerOptional(s.body, ForHead(s, bs, b), |bs| + 1, LoopTargets(bs)).value;
  }

  /** The body of a loop touches none of the loop's other blocks. */
  lemma {:induction false} BodyOfFor(bs: seq<Block>, head: seq<Block>, body: Emitted)
    requires |head| == |bs| + 4 && Touches(head, |bs| + 1, body) && head[|bs| + 2] == [] && head[|bs| + 3] == []
    ensures body.insert < |body.blocks| && |bs| + 4 <= |body.blocks|
    ensures var left := Put(body.blocks, body.insert, Br(|bs| + 2));
      left[|bs| + 2] == [] && left[|bs| + 3] == [] && left[|bs|] == head[|bs|]
  {
  }

  lemma {:induction false} StagesOfFor(f: seq<Block>, s: Stmt, bs: seq<Block>, b: nat,
          t: Targets) returns (body: Emitted)
    requires b < |bs| && s.For? && LowerFor(s, bs, b, t).Some? && Grows(LowerFor(s, bs, b, t).value.blocks, f)
    ensures LowerOptional(s.body, ForHead(s, bs, b), |bs| + 1, LoopTargets(bs)) == Some(body)
    ensures Grows(ForHead(s, bs, b), f) && LoopIn(f, s, |bs|, body)
    ensures ForHead(s, bs, b)[|bs| + 1] == [] && LowerFor(s, bs, b, t).value.blocks[|bs| + 3] == []
  {
    var head, done := ForHead(s, bs, b), LowerFor(s, bs, b, t).value.blocks;
    HeadOfFor(s, bs, b);
    body := LowerForIs(s, bs, b, t);
    OptionalTouches(s.body, head, |bs| + 1, LoopTargets(bs));
    hide ForHead, LowerFor, LowerOptional, Touches, StepBack, Put;
    BodyOfFor(bs, head, body);
    TouchesGrows(head, |bs| + 1, body);
    var left := Put(body.blocks, body.insert, Br(|bs| + 2));
    PutGrows(body.blocks, body.insert, Br(|bs| + 2));
    BackOfFor(s, |bs|, left);
    assert done[|bs|] <= f[|bs|] && done[|bs| + 2] <= f[|bs| + 2];
    hide Grows;
    GrowsTransitive(left, done, f);
    GrowsTransitive(body.blocks, left, f);
    GrowsTransitive(head, body.blocks, f);
  }

  /** Two instructions in a row. */
  lemma {:induction false} RunTwo(f: seq<Block>, o: Oracle, b: nat, i: nat, h: History, e: Expr)
    requires b < |f| && i + 1 < |f[b]| && f[b][i] == Eval(e)
    ensures Step(f, o, At(b, i, h)) == At(b, i + 1, h + [e])
    ensures Reaches(f, o, At(b, i, h), Step(f, o, At(b, i + 1, h + [e])))
  {
    ReachesStep(f, o, At(b, i, h));
    ReachesStep(f, o, At(b, i + 1, h + [e]));
    ReachesTransitive(f, o, At(b, i, h), At(b, i + 1, h + [e]), Step(f, o, At(b, i + 1, h + [e])));
  }

  /** The condition of a loop runs to the body or the exit, after its first step. */
  lemma {:induction false} RunTest(f: seq<Block>, o: Oracle, s: Stmt, n: nat, body: Emitted, h: History)
    requires s.For? && LoopIn(f, s, n, body)
    ensures var exits := s.test.Some? && !o(h + [s.test.value]);
      Reaches(f, o, Step(f, o, At(n, 0, h)), At(if exits then n + 3 else n + 1, 0, Evaluate(s.test, h)))
  {
    if s.test.Some? {
      assert f[n][0] == Eval(s.test.value) && f[n][1] == CondBr(n + 1, n + 3);
      ReachesStep(f, o, At(n, 1, h + [s.test.value]));
    } else {
      assert f[n][0] == Br(n + 1);
      ReachesSelf(f, o, At(n + 1, 0, h));
    }
  }

  lemma {:induction false} RunStep(f: seq<Block>, o: Oracle, s: Stmt, n: nat, body: Emitted, h: History)
    requires s.For? && LoopIn(f, s, n, body)
    ensures Reaches(f, o, At(n + 2, 0, h), At(n, 0, Evaluate(s.step, h)))
  {
    if s.step.Some? {
      assert f[n + 2][0] == Eval(s.step.value) && f[n + 2][1] == Br(n);
      RunTwo(f, o, n + 2, 0, h, s.step.value);
    } else {
      assert f[n + 2][0] == Br(n);
      ReachesStep(f, o, At(n + 2, 0, h));
    }
  }

  /** A round that completes or continues gets back to the condition. */
  lemma {:induction false} RunBack(f: seq<Block>, o: Oracle, s: Stmt, bs: seq<Block>, body: Emitted, c: Config,
          e: Effect, fuel: nat)
    requires s.For? && LoopIn(f, s, |bs|, body) && Simulates(f, o, c, e, fuel, body, LoopTargets(bs))
    requires e.Ended? && (e.ending.Normal? || e.ending.Continued?)
    ensures Reaches(f, o, c, At(|bs|, 0, Evaluate(s.step, e.history)))
  {
    var d := At(|bs| + 2, 0, e.history);
    if e.ending.Normal? {
      StepPut(f, o, body.blocks, body.insert, Br(|bs| + 2), e.history);
      ReachesTransitive(f, o, c, At(body.insert, |body.blocks[body.insert]|, e.history), d);
    }
    RunStep(f, o, s, |bs|, body, e.history);
    ReachesTransitive(f, o, c, d, At(|bs|, 0, Evaluate(s.step, e.history)));
  }

  lemma {:induction false} SimulateFor(f: seq<Block>, o: Oracle, s: Stmt, bs: seq<Block>, b: nat, t: Targets,
          h: History, fuel: nat)
    requires b < |bs| && s.For? && LowerFor(s, bs, b, t).Some? && Grows(LowerFor(s, bs, b, t).value.blocks, f)
    ensures Simulates(f, o, At(b, |bs[b]|, h), Exec(o, s, h, fuel), fuel, LowerFor(s, bs, b, t).value, t)
    decreases fuel, s, 2
  {
    var body := StagesOfFor(f, s, bs, b, t);
    var done, d := LowerFor(s, bs, b, t).value, At(|bs|, 0, Evaluate(s.initial, h));
    RunEntry(f, o, s, bs, b, h);
    SimulateLoop(f, o, s, bs, b, body, done, t, Evaluate(s.initial, h), fuel);
    SimulatesBehind(f, o, At(b, |bs[b]|, h), d, Exec(o, s, h, fuel), fuel, done, t);
  }

  lemma {:induction false} RunEntry(f: seq<Block>, o: Oracle, s: Stmt, bs: seq<Block>, b: nat, h: History)
    requires b < |bs| && s.For? && Grows(ForHead(s, bs, b), f)
    ensures Reaches(f, o, At(b, |bs[b]|, h), At(|bs|, 0, Evaluate(s.initial, h)))
  {
    var bs1 := PutEval(bs, b, s.initial);
    var bs2 := bs1 + NewBlocks(4);
    var bs3 := Put(bs2, b, Br(|bs|));
    PutGrows(bs2, b, Br(|bs|));
    assert Grows(bs1, bs2) && Grows(bs3, ForHead(s, bs, b));
    GrowsTransitive(bs3, ForHead(s, bs, b), f);
    GrowsTransitive(bs2, bs3, f);
    GrowsTransitive(bs1, bs2, f);
    StepPutEval(f, o, bs, b, s.initial, h);
    assert bs2[b] == bs1[b];
    StepPut(f, o, bs2, b, Br(|bs|), Evaluate(s.initial, h));
    ReachesTransitive(f, o, At(b, |bs[b]|, h), At(b, |bs1[b]|, Evaluate(s.initial, h)),
      At(|bs|, 0, Evaluate(s.initial, h)));
  }

  /** The loop from its condition on. */
  lemma {:induction false} SimulateLoop(f: seq<Block>, o: Oracle, s: Stmt, bs: seq<Block>, b: nat, body: Emitted,
          done: Emitted, t: Targets,
                                        h: History, fuel: nat)
    requires b < |bs| && s.For? && LoopIn(f, s, |bs|, body) && ForHead(s, bs, b)[|bs| + 1] == []
    requires LowerOptional(s.body, ForHead(s, bs, b), |bs| + 1, LoopTargets(bs)) == Some(body)
    requires done.insert == |bs| + 3 < |done.blocks| && done.blocks[|bs| + 3] == []
    ensures Simulates(f, o, At(|bs|, 0, h), ExecLoop(o, s, h, fuel), fuel, done, t)
    decreases fuel, s, 1
  {
    var c := At(|bs|, 0, h);
    if fuel == 0 {
      assert Run(f, o, c, 0) == c;
    } else {
      var exits, h1 := s.test.Some? && !o(h + [s.test.value]), Evaluate(s.test, h);
      RunTest(f, o, s, |bs|, body, h);
      var d := At(if exits then |bs| + 3 else |bs| + 1, 0, h1);
      if exits {
        ReachesSelf(f, o, d);
      } else {
        SimulateRound(f, o, s, bs, b, body, done, t, h1, fuel);
      }
      SimulatesBehind(f, o, Step(f, o, c), d, ExecLoop(o, s, h, fuel), fuel - 1, done, t);
      SimulatesStep(f, o, c, ExecLoop(o, s, h, fuel), fuel - 1, done, t);
    }
  }

  /** What is left of a loop after its condition held. */
  function AfterTest(o: Oracle, s: Stmt, h: History, fuel: nat): Effect
    requires s.For? && fuel > 0
  {
    var round := ExecBody(o, s, h, fuel - 1);
    if round.Cut? || round.ending.Returned? then round
    else if round.ending.Broke? then Ended(round.history, Normal)
    else ExecLoop(o, s, Evaluate(s.step, round.history), fuel - 1)
  }

  lemma {:induction false} SimulateRound(f: seq<Block>, o: Oracle, s: Stmt, bs: seq<Block>, b: nat, body: Emitted,
          done: Emitted, t: Targets,
                                         h: History, fuel: nat)
    requires b < |bs| && s.For? && LoopIn(f, s, |bs|, body) && ForHead(s, bs, b)[|bs| + 1] == [] && fuel > 0
    requires LowerOptional(s.body, ForHead(s, bs, b), |bs| + 1, LoopTargets(bs)) == Some(body)
    requires done.insert == |bs| + 3 < |done.blocks| && done.blocks[|bs| + 3] == []
    ensures Simulates(f, o, At(|bs| + 1, 0, h), AfterTest(o, s, h, fuel), fuel - 1, done, t)
    decreases fuel, s, 0
  {
    hide ForHead, LowerOptional;
    var c, round := At(|bs| + 1, 0, h), ExecBody(o, s, h, fuel - 1);
    SimulateOptional(f, o, s.body, ForHead(s, bs, b), |bs| + 1, LoopTargets(bs), h, fuel - 1);
    if round.Ended? && (round.ending.Normal? || round.ending.Continued?) {
      var h1 := Evaluate(s.step, round.history);
      RunBack(f, o, s, bs, body, c, round, fuel - 1);
      SimulateLoop(f, o, s, bs, b, body, done, t, h1, fuel - 1);
      SimulatesBehind(f, o, c, At(|bs|, 0, h1), ExecLoop(o, s, h1, fuel - 1), fuel - 1, done, t);
    }
  }
}
