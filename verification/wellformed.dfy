/** When the blocks of a function are well formed: every block ends with its only
    terminator. */
module WellFormedBlocks {
  import opened Options
  import opened Statements
  import opened Blocks
  import opened Lowering
  import opened Preservation

  predicate Open(b: Block) {
    forall i :: 0 <= i < |b| ==> !IsTerminator(b[i])
  }

  predicate Sealed(b: Block) {
    b != [] && IsTerminator(b[|b| - 1]) && Open(b[..|b| - 1])
  }

  predicate WellFormed(f: seq<Block>) {
    forall k :: 0 <= k < |f| ==> Sealed(f[k])
  }

  // --------------------------------------------------------- conditions on the source

  /** The statement marks its context as terminated. */
  predicate Terminates(s: Stmt)
    decreases s, 1
  {
    match s
    case Compound(items) => exists item :: item in items && TerminatesItem(item)
    case If(_, yes, no) => yes.Some? && no.Some? && Terminates(yes.value) && Terminates(no.value)
    case ExprStmt(_) => false
    case For(_, _, _, _) => false
    case _ => true
  }

  predicate TerminatesItem(item: BlockItem)
    decreases item, 0
  {
    match item
    case StmtItem(Some(s)) => Terminates(s)
    case _ => false
  }

  /** The statement puts at least one instruction where it is inserted. */
  predicate Emits(s: Stmt)
    decreases s, 1
  {
    match s
    case Compound(items) => exists item :: item in items && EmitsItem(item)
    case _ => true
  }

  predicate EmitsItem(item: BlockItem)
    decreases item, 0
  {
    match item
    case StmtItem(Some(s)) => Emits(s)
    case DeclItem(Some(Variable(_))) => true
    case _ => false
  }

  /** Nothing that emits code follows a terminated statement in its block, and no loop
      body is terminated. */
  predicate Clean(s: Stmt)
    decreases s, 1
  {
    match s
    case Compound(items) =>
      && (forall item :: item in items ==> CleanItem(item))
      && (forall i, j :: 0 <= i < j < |items| && TerminatesItem(items[i]) ==> !EmitsItem(items[j]))
    case If(_, yes, no) => (yes.Some? ==> Clean(yes.value)) && (no.Some? ==> Clean(no.value))
    case For(_, _, _, body) => body.Some? ==> Clean(body.value) && !Terminates(body.value)
    case _ => true
  }

  predicate CleanItem(item: BlockItem)
    decreases item, 0
  {
    match item
    case StmtItem(Some(s)) => Clean(s)
    case _ => true
  }

  // ----------------------------------------------- the conditions describe the lowering

  lemma {:induction false} MarkIsTerminates(s: Stmt, bs: seq<Block>, b: nat, t: Targets)
    requires b < |bs| && Lower(s, bs, b, t).Some?
    ensures Lower(s, bs, b, t).value.terminated <==> Terminates(s)
    decreases s, 1
  {
    match s {
      case Compound(items) => MarkOfItems(items, bs, b, t);
      case If(_, _, _) => MarkOfIf(s, bs, b, t);
      case _ =>
    }
  }

  lemma {:induction false} MarkOfIf(s: Stmt, bs: seq<Block>, b: nat, t: Targets)
    requires s.If? && b < |bs| && LowerIf(s, bs, b, t).Some?
    ensures LowerIf(s, bs, b, t).value.terminated <==> Terminates(s)
    decreases s, 0
  {
    if s.yes.Some? {
      MarkIsTerminates(s.yes.value, IfHead(s, bs, b), |bs|, t);
    }
    if s.no.Some? {
      var branch := LowerOptional(s.yes, IfHead(s, bs, b), |bs|, t).value;
      MarkIsTerminates(s.no.value, Leave(branch, IfExit(s, bs)), |bs| + 1, t);
    }
  }

  lemma {:induction false} MarkOfItems(items: seq<BlockItem>, bs: seq<Block>, b: nat, t: Targets)
    requires b < |bs| && LowerItems(items, bs, b, t).Some?
    ensures LowerItems(items, bs, b, t).value.terminated <==> exists item :: item in items && TerminatesItem(item)
    decreases items, 0
  {
    if items != [] {
      var n := |items| - 1;
      var before := LowerItems(items[..n], bs, b, t).value;
      MarkOfItems(items[..n], bs, b, t);
      MarkOfItem(items[n], before.blocks, before.insert, t);
      assert items == items[..n] + [items[n]];
    }
  }

  lemma {:induction false} MarkOfItem(item: BlockItem, bs: seq<Block>, b: nat, t: Targets)
    requires b < |bs| && LowerItem(item, bs, b, t).Some?
    ensures LowerItem(item, bs, b, t).value.terminated <==> TerminatesItem(item)
    decreases item, 0
  {
    match item {
      case StmtItem(Some(s)) => MarkIsTerminates(s, bs, b, t);
      case _ =>
    }
  }

  /** A statement that emits nothing changes nothing; any other one extends the block. */
  lemma {:induction false} EmitsExtends(s: Stmt, bs: seq<Block>, b: nat, t: Targets)
    requires b < |bs| && Lower(s, bs, b, t).Some?
    ensures !Emits(s) ==> Lower(s, bs, b, t) == Some(Emitted(bs, b, false))
    ensures Emits(s) ==> |bs[b]| < |Lower(s, bs, b, t).value.blocks[b]|
    decreases s, 1
  {
    match s {
      case Compound(items) => EmitsOfItems(items, bs, b, t);
      case If(_, _, _) => IfExtends(s, bs, b, t);
      case For(_, _, _, _) => ForExtends(s, bs, b, t);
      case _ =>
    }
  }

  lemma {:induction false} IfExtends(s: Stmt, bs: seq<Block>, b: nat, t: Targets)
    requires s.If? && b < |bs| && LowerIf(s, bs, b, t).Some?
    ensures |bs[b]| < |LowerIf(s, bs, b, t).value.blocks[b]|
  {
    var head := IfHead(s, bs, b);
    var yes := StagesOfIf(s, bs, b, t);
    assert |bs[b]| < |head[b]| <= |Leave(yes, IfExit(s, bs))[b]|;
    if s.no.Some? {
      var no := StagesOfElse(s, bs, b, t, Leave(yes, IfExit(s, bs)));
      assert |Leave(yes, IfExit(s, bs))[b]| <= |Leave(no, IfExit(s, bs))[b]|;
    }
  }

  lemma {:induction false} ForExtends(s: Stmt, bs: seq<Block>, b: nat, t: Targets)
    requires s.For? && b < |bs| && LowerFor(s, bs, b, t).Some?
    ensures |bs[b]| < |LowerFor(s, bs, b, t).value.blocks[b]|
  {
    var body := StagesOfFor(LowerFor(s, bs, b, t).value.blocks, s, bs, b, t);
    assert |bs[b]| < |ForHead(s, bs, b)[b]|;
  }

  lemma {:induction false} EmitsOfItems(items: seq<BlockItem>, bs: seq<Block>, b: nat, t: Targets)
    requires b < |bs| && LowerItems(items, bs, b, t).Some?
    ensures !(exists item :: item in items && EmitsItem(item)) ==>
      LowerItems(items, bs, b, t) == Some(Emitted(bs, b, false))
    ensures (exists item :: item in items && EmitsItem(item)) ==>
      |bs[b]| < |LowerItems(items, bs, b, t).value.blocks[b]|
    decreases items, 0
  {
    if items != [] {
      var n := |items| - 1;
      var before := LowerItems(items[..n], bs, b, t).value;
      EmitsOfItems(items[..n], bs, b, t);
      EmitsOfItem(items[n], before.blocks, before.insert, t);
      ItemsTouch(items[..n], bs, b, t);
      ItemTouches(items[n], before.blocks, before.insert, t);
      assert items == items[..n] + [items[n]];
    }
  }

  lemma {:induction false} EmitsOfItem(item: BlockItem, bs: seq<Block>, b: nat, t: Targets)
    requires b < |bs| && LowerItem(item, bs, b, t).Some?
    ensures !EmitsItem(item) ==> LowerItem(item, bs, b, t) == Some(Emitted(bs, b, false))
    ensures EmitsItem(item) ==> |bs[b]| < |LowerItem(item, bs, b, t).value.blocks[b]|
    decreases item, 0
  {
    match item {
      case StmtItem(Some(s)) => EmitsExtends(s, bs, b, t);
      case _ =>
    }
  }

  // ------------------------------------------------------------ clean code is well formed

  /** Of block b and the new blocks, the insertion block is open, or sealed if the code
      is terminated; all others are sealed. */
  ghost predicate Neat(bs: seq<Block>, b: nat, r: Emitted) {
    forall k :: 0 <= k < |r.blocks| && (k == b || k >= |bs|) ==>
      if k == r.insert && !r.terminated then Open(r.blocks[k]) else Sealed(r.blocks[k])
  }

  lemma {:induction false} OpenPut(b: Block, i: Instr)
    requires Open(b)
    ensures if IsTerminator(i) then Sealed(b + [i]) else Open(b + [i])
  {
    assert (b + [i])[..|b|] == b;
  }

  lemma {:induction false} CleanIsNeat(s: Stmt, bs: seq<Block>, b: nat, t: Targets)
    requires b < |bs| && Lower(s, bs, b, t).Some? && Clean(s) && Open(bs[b])
    ensures Neat(bs, b, Lower(s, bs, b, t).value)
    decreases s, 2
  {
    match s {
      case ExprStmt(e) => OpenPut(bs[b], Eval(e));
      case Compound(items) => ItemsAreNeat(items, bs, b, t);
      case If(_, _, _) => IfIsNeat(s, bs, b, t);
      case For(_, _, _, _) => ForIsNeat(s, bs, b, t);
      case Continue => OpenPut(bs[b], Br(t.continueBlock.value));
      case Break => OpenPut(bs[b], Br(t.breakBlock.value));
      case Return(v) =>
        if v.Some? {
          OpenPut(bs[b], Eval(v.value));
        }
        OpenPut(PutEval(bs, b, v)[b], Ret(v));
    }
  }

  lemma {:induction false} ItemsAreNeat(items: seq<BlockItem>, bs: seq<Block>, b: nat, t: Targets)
    requires b < |bs| && LowerItems(items, bs, b, t).Some? && Open(bs[b])
    requires forall item :: item in items ==> CleanItem(item)
    requires forall i, j :: 0 <= i < j < |items| && TerminatesItem(items[i]) ==> !EmitsItem(items[j])
    ensures Neat(bs, b, LowerItems(items, bs, b, t).value)
    decreases items, 0
  {
    if items != [] {
      var n := |items| - 1;
      var before := LowerItems(items[..n], bs, b, t).value;
      ItemsAreNeat(items[..n], bs, b, t);
      ItemsTouch(items[..n], bs, b, t);
      ItemTouches(items[n], before.blocks, before.insert, t);
      MarkOfItems(items[..n], bs, b, t);
      if before.terminated {
        var item :| item in items[..n] && TerminatesItem(item);
        EmitsOfItem(items[n], before.blocks, before.insert, t);
      } else {
        assert items[n] in items;
        ItemIsNeat(items[n], before.blocks, before.insert, t);
      }
    }
  }

  lemma {:induction false} ItemIsNeat(item: BlockItem, bs: seq<Block>, b: nat, t: Targets)
    requires b < |bs| && LowerItem(item, bs, b, t).Some? && CleanItem(item) && Open(bs[b])
    ensures Neat(bs, b, LowerItem(item, bs, b, t).value)
    decreases item, 0
  {
    match item {
      case StmtItem(Some(s)) => CleanIsNeat(s, bs, b, t);
      case DeclItem(Some(Variable(e))) => OpenPut(bs[b], Eval(e));
      case _ =>
    }
  }

  lemma {:induction false} OptionalIsNeat(s: Option<Stmt>, bs: seq<Block>, b: nat, t: Targets)
    requires b < |bs| && LowerOptional(s, bs, b, t).Some? && (s.Some? ==> Clean(s.value)) && Open(bs[b])
    ensures Neat(bs, b, LowerOptional(s, bs, b, t).value)
    decreases s, 3
  {
    if s.Some? {
      CleanIsNeat(s.value, bs, b, t);
    }
  }

  /** Once left, all blocks a branch touched are sealed. */
  ghost predicate NeatAll(bs: seq<Block>, b: nat, done: seq<Block>) {
    forall k :: 0 <= k < |done| && (k == b || k >= |bs|) ==> Sealed(done[k])
  }

  lemma {:induction false} LeaveIsNeat(bs: seq<Block>, b: nat, r: Emitted, next: nat)
    requires b < |bs| && Touches(bs, b, r) && Neat(bs, b, r)
    ensures NeatAll(bs, b, Leave(r, next))
  {
    if !r.terminated {
      OpenPut(r.blocks[r.insert], Br(next));
    }
  }

  lemma {:induction false} IfHeadNeat(s: Stmt, bs: seq<Block>, b: nat)
    requires s.If? && b < |bs| && Open(bs[b])
    ensures Sealed(IfHead(s, bs, b)[b])
    ensures forall k :: |bs| <= k < |IfHead(s, bs, b)| ==> IfHead(s, bs, b)[k] == []
  {
    OpenPut(bs[b], Eval(s.condition));
    OpenPut(bs[b] + [Eval(s.condition)], CondBr(|bs|, |bs| + 1));
  }

  /** Both branches left: all blocks but the exit are sealed. */
  ghost predicate BranchesLeft(bs: seq<Block>, b: nat, done: seq<Block>, exit: nat) {
    && |bs| <= exit < |done| && done[exit] == []
    && forall k :: 0 <= k < |done| && (k == b || k >= |bs|) && k != exit ==> Sealed(done[k])
  }

  lemma {:induction false} IfIsNeat(s: Stmt, bs: seq<Block>, b: nat, t: Targets)
    requires s.If? && b < |bs| && LowerIf(s, bs, b, t).Some? && Clean(s) && Open(bs[b])
    ensures Neat(bs, b, LowerIf(s, bs, b, t).value)
    decreases s, 0
  {
    var head, exit := IfHead(s, bs, b), IfExit(s, bs);
    IfHeadNeat(s, bs, b);
    var yes := LowerOptional(s.yes, head, |bs|, t).value;
    OptionalIsNeat(s.yes, head, |bs|, t);
    OptionalTouches(s.yes, head, |bs|, t);
    LeaveIsNeat(head, |bs|, yes, exit);
    YesIsLeft(s, bs, b, yes);
    if s.no.Some? {
      var left := Leave(yes, exit);
      var no := Lower(s.no.value, left, |bs| + 1, t).value;
      CleanIsNeat(s.no.value, left, |bs| + 1, t);
      LowerTouches(s.no.value, left, |bs| + 1, t);
      hide Sealed, Open, Neat, Clean, IfHead, Touches, Lower;
      LeaveIsNeat(left, |bs| + 1, no, exit);
      NoIsLeft(bs, b, left, no);
      ExitIsNeat(bs, b, Leave(no, exit), exit);
    } else {
      ExitIsNeat(bs, b, Leave(yes, exit), exit);
    }
  }

  lemma {:induction false} YesIsLeft(s: Stmt, bs: seq<Block>, b: nat, yes: Emitted)
    requires s.If? && b < |bs| && Open(bs[b]) && Touches(IfHead(s, bs, b), |bs|, yes)
    requires NeatAll(IfHead(s, bs, b), |bs|, Leave(yes, IfExit(s, bs)))
    ensures s.no.None? ==> BranchesLeft(bs, b, Leave(yes, IfExit(s, bs)), IfExit(s, bs))
    ensures s.no.Some? ==> ElseLeft(bs, b, Leave(yes, IfExit(s, bs)))
  {
    IfHeadNeat(s, bs, b);
    var head := IfHead(s, bs, b);
    hide Sealed, Open, IfHead;
    assert yes.blocks[IfExit(s, bs)] == head[IfExit(s, bs)];
  }

  /** The true branch left and the else branch still to come. */
  ghost predicate ElseLeft(bs: seq<Block>, b: nat, left: seq<Block>) {
    && |bs| + 2 < |left| && left[|bs| + 1] == [] && left[|bs| + 2] == []
    && forall k :: 0 <= k < |left| && (k == b || k >= |bs|) && k != |bs| + 1 && k != |bs| + 2 ==> Sealed(left[k])
  }

  lemma {:induction false} NoIsLeft(bs: seq<Block>, b: nat, left: seq<Block>, no: Emitted)
    requires b < |bs| && ElseLeft(bs, b, left) && Touches(left, |bs| + 1, no)
    requires NeatAll(left, |bs| + 1, Leave(no, |bs| + 2))
    ensures BranchesLeft(bs, b, Leave(no, |bs| + 2), |bs| + 2)
  {
    hide Sealed;
    var done := Leave(no, |bs| + 2);
    forall k | 0 <= k < |done| && (k == b || k >= |bs|) && k != |bs| + 2
      ensures Sealed(done[k])
    {
      if k < |left| && k != |bs| + 1 {
        assert done[k] == left[k];
      }
    }
  }

  lemma {:induction false} ExitIsNeat(bs: seq<Block>, b: nat, done: seq<Block>, exit: nat)
    requires BranchesLeft(bs, b, done, exit)
    ensures Neat(bs, b, Emitted(done, exit, false)) && Neat(bs, b, Emitted(Put(done, exit, Unreachable), exit, true))
  {
    OpenPut([], Unreachable);
    assert Put(done, exit, Unreachable)[exit] == [Unreachable];
  }

  lemma {:induction false} ForHeadNeat(s: Stmt, bs: seq<Block>, b: nat)
    requires s.For? && b < |bs| && Open(bs[b])
    ensures Sealed(ForHead(s, bs, b)[b]) && Sealed(ForHead(s, bs, b)[|bs|])
    ensures forall k :: |bs| < k <= |bs| + 3 ==> ForHead(s, bs, b)[k] == []
  {
    if s.initial.Some? {
      OpenPut(bs[b], Eval(s.initial.value));
    }
    OpenPut(PutEval(bs, b, s.initial)[b], Br(|bs|));
    if s.test.Some? {
      OpenPut([], Eval(s.test.value));
      OpenPut([Eval(s.test.value)], CondBr(|bs| + 1, |bs| + 3));
    } else {
      OpenPut([], Br(|bs| + 1));
    }
  }

  /** The blocks of a loop once its body is left for the step. */
  ghost predicate LoopLeft(bs: seq<Block>, b: nat, left: seq<Block>) {
    && b < |bs| && |bs| + 3 < |left| && left[|bs| + 2] == [] && left[|bs| + 3] == []
    && forall k :: 0 <= k < |left| && (k == b || k >= |bs|) && k != |bs| + 2 && k != |bs| + 3 ==> Sealed(left[k])
  }

  lemma {:induction false} LoopIsLeft(s: Stmt, bs: seq<Block>, b: nat, body: Emitted)
    requires s.For? && b < |bs| && Open(bs[b]) && !body.terminated
    requires Touches(ForHead(s, bs, b), |bs| + 1, body) && Neat(ForHead(s, bs, b), |bs| + 1, body)
    ensures LoopLeft(bs, b, Put(body.blocks, body.insert, Br(|bs| + 2)))
  {
    ForHeadNeat(s, bs, b);
    var head := ForHead(s, bs, b);
    hide ForHead, Sealed, Open;
    LeaveIsNeat(head, |bs| + 1, body, |bs| + 2);
  }

  lemma {:induction false} StepIsSealed(s: Stmt, n: nat, left: seq<Block>)
    requires s.For? && n + 2 < |left| && left[n + 2] == []
    ensures Sealed(Put(PutEval(left, n + 2, s.step), n + 2, Br(n))[n + 2])
  {
    if s.step.Some? {
      OpenPut([], Eval(s.step.value));
    }
    OpenPut(PutEval(left, n + 2, s.step)[n + 2], Br(n));
  }

  lemma {:induction false} BodyIsNeat(s: Stmt, bs: seq<Block>, b: nat) returns (body: Emitted)
    requires s.For? && b < |bs| && Clean(s) && Open(bs[b])
    requires LowerOptional(s.body, ForHead(s, bs, b), |bs| + 1, LoopTargets(bs)).Some?
    ensures LowerOptional(s.body, ForHead(s, bs, b), |bs| + 1, LoopTargets(bs)) == Some(body)
    ensures body.insert < |body.blocks| && LoopLeft(bs, b, Put(body.blocks, body.insert, Br(|bs| + 2)))
    decreases s, 0
  {
    var head := ForHead(s, bs, b);
    body := LowerOptional(s.body, head, |bs| + 1, LoopTargets(bs)).value;
    ForHeadNeat(s, bs, b);
    if s.body.Some? {
      MarkIsTerminates(s.body.value, head, |bs| + 1, LoopTargets(bs));
    }
    OptionalIsNeat(s.body, head, |bs| + 1, LoopTargets(bs));
    OptionalTouches(s.body, head, |bs| + 1, LoopTargets(bs));
    hide Sealed, Clean, Terminates, ForHead, Neat, Touches, LoopLeft;
    LoopIsLeft(s, bs, b, body);
  }

  lemma {:induction false} ForIsNeat(s: Stmt, bs: seq<Block>, b: nat, t: Targets)
    requires s.For? && b < |bs| && LowerFor(s, bs, b, t).Some? && Clean(s) && Open(bs[b])
    ensures Neat(bs, b, LowerFor(s, bs, b, t).value)
    decreases s, 1
  {
    hide Sealed, Open, Clean, ForHead, Neat, LowerOptional;
    var body := BodyIsNeat(s, bs, b);
    var left := Put(body.blocks, body.insert, Br(|bs| + 2));
    assert |bs| + 2 < |left| && left[|bs| + 2] == [];
    hide LoopLeft;
    StepIsSealed(s, |bs|, left);
    LoopIsNeat(s, bs, b, left);
  }

  lemma {:induction false} LoopIsNeat(s: Stmt, bs: seq<Block>, b: nat, left: seq<Block>)
    requires s.For? && LoopLeft(bs, b, left)
    requires Sealed(Put(PutEval(left, |bs| + 2, s.step), |bs| + 2, Br(|bs|))[|bs| + 2])
    ensures Neat(bs, b, Emitted(Put(PutEval(left, |bs| + 2, s.step), |bs| + 2, Br(|bs|)), |bs| + 3, false))
  {
    hide Sealed;
  }

  // --------------------------------------------------------- only clean code is well formed

  /** Some block has an instruction behind a terminator. */
  ghost predicate Broken(f: seq<Block>) {
    exists k, i :: 0 <= k < |f| && BrokenAt(f[k], i)
  }

  ghost predicate BrokenAt(b: Block, i: int) {
    0 <= i < |b| - 1 && IsTerminator(b[i])
  }

  lemma {:induction false} BrokenStays(f: seq<Block>, f': seq<Block>)
    requires Broken(f) && Grows(f, f')
    ensures Broken(f')
  {
    var k, i :| 0 <= k < |f| && BrokenAt(f[k], i);
    assert f[k] <= f'[k];
    assert BrokenAt(f'[k], i);
  }

  lemma {:induction false} BrokenIsNotWellFormed(f: seq<Block>)
    requires Broken(f)
    ensures !WellFormed(f)
  {
    var k, i :| 0 <= k < |f| && BrokenAt(f[k], i);
    assert f[k][..|f[k]| - 1][i] == f[k][i];
  }

  /** Terminated code has a terminator where it is inserted, or is broken already. */
  ghost predicate Blocked(r: Emitted)
    requires r.insert < |r.blocks|
  {
    !Open(r.blocks[r.insert]) || Broken(r.blocks)
  }

  /** Putting code behind a terminator breaks the block. */
  lemma {:induction false} PutBehind(r: Emitted, f: seq<Block>)
    requires r.insert < |r.blocks| && Blocked(r) && Grows(r.blocks, f)
    requires |r.blocks[r.insert]| < |f[r.insert]|
    ensures Broken(f)
  {
    if Broken(r.blocks) {
      BrokenStays(r.blocks, f);
    } else {
      var i :| 0 <= i < |r.blocks[r.insert]| && IsTerminator(r.blocks[r.insert][i]);
      assert r.blocks[r.insert] <= f[r.insert];
      assert BrokenAt(f[r.insert], i);
    }
  }

  lemma {:induction false} UncleanIsBroken(s: Stmt, bs: seq<Block>, b: nat, t: Targets)
    requires b < |bs| && Lower(s, bs, b, t).Some?
    ensures Lower(s, bs, b, t).value.terminated ==> Blocked(Lower(s, bs, b, t).value)
    ensures !Clean(s) ==> Broken(Lower(s, bs, b, t).value.blocks)
    decreases s, 1
  {
    var r := Lower(s, bs, b, t).value;
    match s {
      case Compound(items) => UncleanItems(items, bs, b, t);
      case If(_, _, _) =>
        UncleanIf(s, bs, b, t);
        if r.terminated {
          BlockedIf(s, bs, b, t);
        }
      case For(_, _, _, _) => UncleanFor(s, bs, b, t);
      case ExprStmt(_) =>
      case _ =>
        var n := |r.blocks[b]| - 1;
        assert IsTerminator(r.blocks[b][n]);
    }
  }

  ghost predicate UncleanList(items: seq<BlockItem>) {
    || (exists item :: item in items && !CleanItem(item))
    || (exists i, j :: 0 <= i < j < |items| && TerminatesItem(items[i]) && EmitsItem(items[j]))
  }

  lemma {:induction false} UncleanItems(items: seq<BlockItem>, bs: seq<Block>, b: nat, t: Targets)
    requires b < |bs| && LowerItems(items, bs, b, t).Some?
    ensures LowerItems(items, bs, b, t).value.terminated ==> Blocked(LowerItems(items, bs, b, t).value)
    ensures UncleanList(items) ==> Broken(LowerItems(items, bs, b, t).value.blocks)
    decreases items, 0
  {
    if items != [] {
      var n := |items| - 1;
      var before := LowerItems(items[..n], bs, b, t).value;
      var r := LowerItem(items[n], before.blocks, before.insert, t).value;
      UncleanItems(items[..n], bs, b, t);
      UncleanItem(items[n], before.blocks, before.insert, t);
      ItemTouches(items[n], before.blocks, before.insert, t);
      TouchesGrows(before.blocks, before.insert, r);
      EmitsOfItem(items[n], before.blocks, before.insert, t);
      MarkOfItems(items[..n], bs, b, t);
      if Broken(before.blocks) {
        BrokenStays(before.blocks, r.blocks);
      }
      if before.terminated && EmitsItem(items[n]) {
        PutBehind(before, r.blocks);
      }
      if UncleanList(items) {
        UncleanLast(items);
      }
    }
  }

  /** A list is unclean because of its front, its last item, or the two together. */
  lemma {:induction false} UncleanLast(items: seq<BlockItem>)
    requires UncleanList(items) && items != []
    ensures
      || UncleanList(items[..|items| - 1])
      || !CleanItem(items[|items| - 1])
      || (EmitsItem(items[|items| - 1]) && exists item :: item in items[..|items| - 1] && TerminatesItem(item))
  {
    var n := |items| - 1;
    assert items == items[..n] + [items[n]];
    if i, j :| 0 <= i < j < |items| && TerminatesItem(items[i]) && EmitsItem(items[j]) {
      var front := items[..n];
      assert front[i] == items[i] && front[i] in front;
      if j < n {
        assert front[j] == items[j];
        assert TerminatesItem(front[i]) && EmitsItem(front[j]);
        assert UncleanList(front);
      } else {
        assert j == n && EmitsItem(items[n]);
        assert front[i] in front && TerminatesItem(front[i]);
        assert exists item :: item in front && TerminatesItem(item);
      }
    } else {
      var item :| item in items && !CleanItem(item);
      assert item in items[..n] || item == items[n];
    }
  }

  lemma {:induction false} UncleanItem(item: BlockItem, bs: seq<Block>, b: nat, t: Targets)
    requires b < |bs| && LowerItem(item, bs, b, t).Some?
    ensures LowerItem(item, bs, b, t).value.terminated ==> Blocked(LowerItem(item, bs, b, t).value)
    ensures !CleanItem(item) ==> Broken(LowerItem(item, bs, b, t).value.blocks)
    decreases item, 0
  {
    match item {
      case StmtItem(Some(s)) => UncleanIsBroken(s, bs, b, t);
      case _ =>
    }
  }

  /** How the stages of an if statement grow into its blocks. */
  lemma {:induction false} IfGrowth(s: Stmt, bs: seq<Block>, b: nat, t: Targets,
          yes: Emitted) returns (left: seq<Block>)
    requires s.If? && b < |bs| && LowerIf(s, bs, b, t).Some?
    requires LowerOptional(s.yes, IfHead(s, bs, b), |bs|, t) == Some(yes)
    ensures left == Leave(yes, IfExit(s, bs)) && Grows(yes.blocks, LowerIf(s, bs, b, t).value.blocks)
    ensures s.no.Some? ==> |bs| + 1 < |left| && Lower(s.no.value, left, |bs| + 1, t).Some?
    ensures s.no.Some? ==> Grows(Lower(s.no.value, left, |bs| + 1, t).value.blocks, LowerIf(s, bs, b, t).value.blocks)
  {
    var exit, r := IfExit(s, bs), LowerIf(s, bs, b, t).value;
    var again := StagesOfIf(s, bs, b, t);
    left := Leave(yes, exit);
    if s.no.Some? {
      var no := StagesOfElse(s, bs, b, t, left);
      assert Grows(Leave(no, exit), r.blocks);
      GrowsTransitive(no.blocks, Leave(no, exit), r.blocks);
      GrowsTransitive(left, no.blocks, r.blocks);
    }
    GrowsTransitive(yes.blocks, left, r.blocks);
  }

  lemma {:induction false} UncleanIf(s: Stmt, bs: seq<Block>, b: nat, t: Targets)
    requires s.If? && b < |bs| && LowerIf(s, bs, b, t).Some?
    ensures !Clean(s) ==> Broken(LowerIf(s, bs, b, t).value.blocks)
    decreases s, 0
  {
    hide Broken, Grows, Blocked, IfHead, Leave;
    var r := LowerIf(s, bs, b, t).value;
    var yes := LowerOptional(s.yes, IfHead(s, bs, b), |bs|, t).value;
    var left := IfGrowth(s, bs, b, t, yes);
    if s.yes.Some? && !Clean(s.yes.value) {
      UncleanIsBroken(s.yes.value, IfHead(s, bs, b), |bs|, t);
      BrokenStays(yes.blocks, r.blocks);
    }
    if s.no.Some? && !Clean(s.no.value) {
      UncleanIsBroken(s.no.value, left, |bs| + 1, t);
      BrokenStays(Lower(s.no.value, left, |bs| + 1, t).value.blocks, r.blocks);
    }
  }

  lemma {:induction false} BlockedIf(s: Stmt, bs: seq<Block>, b: nat, t: Targets)
    requires s.If? && b < |bs| && LowerIf(s, bs, b, t).Some? && LowerIf(s, bs, b, t).value.terminated
    ensures Blocked(LowerIf(s, bs, b, t).value)
  {
    var block := LowerIf(s, bs, b, t).value.blocks[IfExit(s, bs)];
    assert block[|block| - 1] == Unreachable;
  }

  lemma {:induction false} UncleanFor(s: Stmt, bs: seq<Block>, b: nat, t: Targets)
    requires s.For? && b < |bs| && LowerFor(s, bs, b, t).Some?
    ensures !Clean(s) ==> Broken(LowerFor(s, bs, b, t).value.blocks)
    decreases s, 0
  {
    if s.body.Some? && !Clean(s) {
      var r := LowerFor(s, bs, b, t).value;
      var body := StagesOfFor(r.blocks, s, bs, b, t);
      LoopExtendsBody(r.blocks, s, |bs|, body);
      UncleanIsBroken(s.body.value, ForHead(s, bs, b), |bs| + 1, LoopTargets(bs));
      MarkIsTerminates(s.body.value, ForHead(s, bs, b), |bs| + 1, LoopTargets(bs));
      hide Broken, Grows, Blocked, ForHead, LoopIn, LowerFor;
      if !Clean(s.body.value) {
        BrokenStays(body.blocks, r.blocks);
      } else {
        PutBehind(body, r.blocks);
      }
    }
  }

  lemma {:induction false} LoopExtendsBody(f: seq<Block>, s: Stmt, n: nat, body: Emitted)
    requires s.For? && LoopIn(f, s, n, body)
    ensures Grows(body.blocks, f) && |body.blocks[body.insert]| < |f[body.insert]|
  {
    assert Put(body.blocks, body.insert, Br(n + 2))[body.insert] <= f[body.insert];
  }

  // --------------------------------------------------------------------------- functions

  /** The blocks of an accepted function are well formed exactly when no code follows a
      terminated statement in its block and no loop body is terminated. */
  lemma {:induction false} WellFormedIffClean(body: Stmt, isVoid: bool, f: seq<Block>)
    requires LowerFunction(body, isVoid) == Accepted(f)
    ensures WellFormed(f) <==> Clean(body)
  {
    var t := Targets(None, None);
    var r := Lower(body, [[]], 0, t).value;
    if Clean(body) {
      CleanIsNeat(body, [[]], 0, t);
      if !r.terminated {
        OpenPut(r.blocks[r.insert], Ret(None));
      }
    } else {
      UncleanIsBroken(body, [[]], 0, t);
      PutGrows(r.blocks, r.insert, Ret(None));
      BrokenStays(r.blocks, f);
      BrokenIsNotWellFormed(f);
    }
  }
}
