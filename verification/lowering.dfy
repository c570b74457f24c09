/** The lowering of statements to basic blocks: `Lower` says what is emitted, `CodegenStmt`
    emits it by moving the insertion point of a builder and marking contexts. */
module Lowering {
  import opened Options
  import opened Statements
  import opened Blocks

  /** Where break and continue lead; None outside of loops. */
  datatype Targets = Targets(continueBlock: Option<nat>, breakBlock: Option<nat>)

  /** The blocks so far, the block at whose end code is inserted, and whether the
      statement has terminated its context. */
  datatype Emitted = Emitted(blocks: seq<Block>, insert: nat, terminated: bool)

  function Put(bs: seq<Block>, b: nat, i: Instr): (r: seq<Block>)
    requires b < |bs|
    ensures |r| == |bs|
  {
    bs[b := bs[b] + [i]]
  }

  function PutEval(bs: seq<Block>, b: nat, e: Option<Expr>): (r: seq<Block>)
    requires b < |bs|
    ensures |r| == |bs|
  {
    if e.Some? then Put(bs, b, Eval(e.value)) else bs
  }

  function NewBlocks(n: nat): (r: seq<Block>)
    ensures |r| == n && forall k :: 0 <= k < n ==> r[k] == []
  {
    seq(n, _ => [])
  }

  /** Leaves a branch or body for block `next` unless it is terminated. */
  function Leave(e: Emitted, next: nat): (r: seq<Block>)
    requires e.insert < |e.blocks|
    ensures |r| == |e.blocks|
  {
    if e.terminated then e.blocks else Put(e.blocks, e.insert, Br(next))
  }

  /** The code of a statement, or None where break or continue has no target. */
  function Lower(s: Stmt, bs: seq<Block>, b: nat, t: Targets): (r: Option<Emitted>)
    requires b < |bs|
    ensures r.Some? ==> r.value.insert < |r.value.blocks| && |bs| <= |r.value.blocks|
    decreases s, 1
  {
    match s
    case ExprStmt(e) => Some(Emitted(Put(bs, b, Eval(e)), b, false))
    case Compound(items) => LowerItems(items, bs, b, t)
    case If(_, _, _) => LowerIf(s, bs, b, t)
    case For(_, _, _, _) => LowerFor(s, bs, b, t)
    case Continue => LowerJump(bs, b, t.continueBlock)
    case Break => LowerJump(bs, b, t.breakBlock)
    case Return(v) => Some(Emitted(Put(PutEval(bs, b, v), b, Ret(v)), b, true))
  }

  function LowerJump(bs: seq<Block>, b: nat, target: Option<nat>): (r: Option<Emitted>)
    requires b < |bs|
    ensures r.Some? ==> r.value.insert < |r.value.blocks| && |bs| <= |r.value.blocks|
  {
    var goal :- target;
    Some(Emitted(Put(bs, b, Br(goal)), b, true))
  }

  function LowerItems(items: seq<BlockItem>, bs: seq<Block>, b: nat, t: Targets): (r: Option<Emitted>)
    requires b < |bs|
    ensures r.Some? ==> r.value.insert < |r.value.blocks| && |bs| <= |r.value.blocks|
    decreases items, 0
  {
    if items == [] then Some(Emitted(bs, b, false))
    else
      var before :- LowerItems(items[..|items| - 1], bs, b, t);
      var last :- LowerItem(items[|items| - 1], before.blocks, before.insert, t);
      Some(last.(terminated := before.terminated || last.terminated))
  }

  function LowerItem(item: BlockItem, bs: seq<Block>, b: nat, t: Targets): (r: Option<Emitted>)
    requires b < |bs|
    ensures r.Some? ==> r.value.insert < |r.value.blocks| && |bs| <= |r.value.blocks|
    decreases item, 0
  {
    match item
    case StmtItem(Some(s)) => Lower(s, bs, b, t)
    case DeclItem(Some(Variable(e))) => Some(Emitted(Put(bs, b, Eval(e)), b, false))
    case _ => Some(Emitted(bs, b, false))
  }

  function LowerOptional(s: Option<Stmt>, bs: seq<Block>, b: nat, t: Targets): (r: Option<Emitted>)
    requires b < |bs|
    ensures r.Some? ==> r.value.insert < |r.value.blocks| && |bs| <= |r.value.blocks|
    decreases s, 2
  {
    if s.Some? then Lower(s.value, bs, b, t) else Some(Emitted(bs, b, false))
  }

  /** The blocks of an if statement before its branches are lowered: block |bs| is the
      true branch, an else branch comes next, the exit is last. */
  function IfHead(s: Stmt, bs: seq<Block>, b: nat): (r: seq<Block>)
    requires s.If? && b < |bs|
    ensures |r| == IfExit(s, bs) + 1
  {
    Put(Put(bs, b, Eval(s.condition)) + NewBlocks(if s.no.Some? then 3 else 2), b, CondBr(|bs|, |bs| + 1))
  }

  function IfExit(s: Stmt, bs: seq<Block>): nat
    requires s.If?
  {
    if s.no.Some? then |bs| + 2 else |bs| + 1
  }

  function LowerIf(s: Stmt, bs: seq<Block>, b: nat, t: Targets): (r: Option<Emitted>)
    requires b < |bs| && s.If?
    ensures r.Some? ==> r.value.insert < |r.value.blocks| && |bs| <= |r.value.blocks|
    decreases s, 0
  {
    var exit := IfExit(s, bs);
    var yes :- LowerOptional(s.yes, IfHead(s, bs, b), |bs|, t);
    var left := Leave(yes, exit);
    if s.no.None? then Some(Emitted(left, exit, false))
    else
      var no :- Lower(s.no.value, left, |bs| + 1, t);
      var both := yes.terminated && no.terminated;
      Some(Emitted(if both then Put(Leave(no, exit), exit, Unreachable) else Leave(no, exit), exit, both))
  }

  /** The blocks of a loop before its body is lowered: condition, body, step and exit
      are appended in this order. */
  function ForHead(s: Stmt, bs: seq<Block>, b: nat): (r: seq<Block>)
    requires s.For? && b < |bs|
    ensures |r| == |bs| + 4
  {
    var entered := Put(PutEval(bs, b, s.initial) + NewBlocks(4), b, Br(|bs|));
    if s.test.Some? then Put(Put(entered, |bs|, Eval(s.test.value)), |bs|, CondBr(|bs| + 1, |bs| + 3))
    else Put(entered, |bs|, Br(|bs| + 1))
  }

  function LoopTargets(bs: seq<Block>): Targets {
    Targets(Some(|bs| + 2), Some(|bs| + 3))
  }

  function LowerFor(s: Stmt, bs: seq<Block>, b: nat, t: Targets): (r: Option<Emitted>)
    requires b < |bs| && s.For?
    ensures r.Some? ==> r.value.insert < |r.value.blocks| && |bs| <= |r.value.blocks|
    decreases s, 0
  {
    var body :- LowerOptional(s.body, ForHead(s, bs, b), |bs| + 1, LoopTargets(bs));
    var left := Put(body.blocks, body.insert, Br(|bs| + 2));
    Some(Emitted(Put(PutEval(left, |bs| + 2, s.step), |bs| + 2, Br(|bs|)), |bs| + 3, false))
  }

  // -------------------------------------------------------------------- the generator

  /** The instruction builder of one function: its blocks and the insertion point. */
  class Builder {
    var blocks: seq<Block>
    var insert: nat

    ghost predicate Valid()
      reads this
    {
      insert < |blocks|
    }

    /** Starts a function with its entry block. */
    constructor ()
      ensures Valid() && blocks == [[]] && insert == 0
    {
      blocks, insert := [[]], 0;
    }

    method AppendBlock() returns (block: nat)
      requires Valid()
      modifies this
      ensures Valid() && blocks == old(blocks) + [[]] && block == |old(blocks)| && insert == old(insert)
    {
      block := |blocks|;
      blocks := blocks + [[]];
    }

    method PositionAtEnd(block: nat)
      requires Valid() && block < |blocks|
      modifies this
      ensures Valid() && blocks == old(blocks) && insert == block
    {
      insert := block;
    }

    method Build(i: Instr)
      requires Valid()
      modifies this
      ensures Valid() && blocks == Put(old(blocks), old(insert), i) && insert == old(insert)
    {
      blocks := blocks[insert := blocks[insert] + [i]];
    }

    method BuildEval(e: Option<Expr>)
      requires Valid()
      modifies this
      ensures Valid() && blocks == PutEval(old(blocks), old(insert), e) && insert == old(insert)
    {
      if e.Some? {
        Build(Eval(e.value));
      }
    }
  }

  /** The context of a statement: of its fields, only the termination mark. */
  class Context {
    var isTerminated: bool

    constructor ()
      ensures !isTerminated
    {
      isTerminated := false;
    }
  }

  /** What a call that emitted r from an unmarked or marked context leaves behind. */
  ghost predicate Matches(r: Option<Emitted>, ok: bool, blocks: seq<Block>, insert: nat, was: bool, now: bool) {
    ok == r.Some? && (ok ==> blocks == r.value.blocks && insert == r.value.insert && now == (was || r.value.terminated))
  }

  /** Emits the code of a statement; not ok where the generator's assertion on a
      missing break or continue target fails. */
  method CodegenStmt(builder: Builder, t: Targets, context: Context, s: Stmt) returns (ok: bool)
    requires builder.Valid()
    modifies builder, context
    ensures builder.Valid()
    ensures Matches(Lower(s, old(builder.blocks), old(builder.insert), t), ok, builder.blocks, builder.insert,
                    old(context.isTerminated), context.isTerminated)
    decreases s, 1
  {
    ok := true;
    match s {
      case ExprStmt(e) =>
        builder.Build(Eval(e));
      case Compound(items) =>
        ok := CodegenCompound(builder, t, context, items);
      case If(_, _, _) =>
        ok := CodegenIf(builder, t, context, s);
      case For(_, _, _, _) =>
        ok := CodegenFor(builder, t, context, s);
      case Continue =>
        ok := CodegenJump(builder, context, t.continueBlock);
      case Break =>
        ok := CodegenJump(builder, context, t.breakBlock);
      case Return(v) =>
        builder.BuildEval(v);
        builder.Build(Ret(v));
        context.isTerminated := true;
    }
  }

  method CodegenJump(builder: Builder, context: Context, target: Option<nat>) returns (ok: bool)
    requires builder.Valid()
    modifies builder, context
    ensures builder.Valid()
    ensures Matches(LowerJump(old(builder.blocks), old(builder.insert), target), ok, builder.blocks, builder.insert,
                    old(context.isTerminated), context.isTerminated)
  {
    ok := target.Some?;
    if ok {
      builder.Build(Br(target.value));
      context.isTerminated := true;
    }
  }

  method CodegenCompound(builder: Builder, t: Targets, context: Context, items: seq<BlockItem>) returns (ok: bool)
    requires builder.Valid()
    modifies builder, context
    ensures builder.Valid()
    ensures Matches(LowerItems(items, old(builder.blocks), old(builder.insert), t), ok, builder.blocks, builder.insert,
                    old(context.isTerminated), context.isTerminated)
    decreases items, 0
  {
    var sub := new Context();
    ghost var bs, b := builder.blocks, builder.insert;
    for i := 0 to |items|
      invariant builder.Valid() && context.isTerminated == old(context.isTerminated)
      invariant Matches(LowerItems(items[..i], bs, b, t), true, builder.blocks, builder.insert, false, sub.isTerminated)
    {
      LowerPrefix(items, bs, b, t, i);
      ok := CodegenItem(builder, t, sub, items[i]);
      if !ok {
        PrefixFails(items, bs, b, t, i + 1);
        return;
      }
    }
    assert items[..|items|] == items;
    ok := true;
    if sub.isTerminated {
      context.isTerminated := true;
    }
  }

  lemma {:induction false} LowerPrefix(items: seq<BlockItem>, bs: seq<Block>, b: nat, t: Targets, i: nat)
    requires b < |bs| && i < |items|
    ensures LowerItems(items[..i + 1], bs, b, t) ==
      var before :- LowerItems(items[..i], bs, b, t);
      var last :- LowerItem(items[i], before.blocks, before.insert, t);
      Some(last.(terminated := before.terminated || last.terminated))
  {
    assert items[..i + 1][..i] == items[..i];
  }

  lemma {:induction false} PrefixFails(items: seq<BlockItem>, bs: seq<Block>, b: nat, t: Targets, i: nat)
    requires b < |bs| && i <= |items| && LowerItems(items[..i], bs, b, t).None?
    ensures LowerItems(items, bs, b, t).None?
    decreases |items| - i
  {
    if i < |items| {
      LowerPrefix(items, bs, b, t, i);
      PrefixFails(items, bs, b, t, i + 1);
    } else {
      assert items[..i] == items;
    }
  }

  method CodegenItem(builder: Builder, t: Targets, context: Context, item: BlockItem) returns (ok: bool)
    requires builder.Valid()
    modifies builder, context
    ensures builder.Valid()
    ensures Matches(LowerItem(item, old(builder.blocks), old(builder.insert), t), ok, builder.blocks, builder.insert,
                    old(context.isTerminated), context.isTerminated)
    decreases item, 0
  {
    ok := true;
    match item {
      case StmtItem(Some(s)) =>
        ok := CodegenStmt(builder, t, context, s);
      case DeclItem(Some(Variable(e))) =>
        builder.Build(Eval(e));
      case _ =>
    }
  }

  method CodegenOptional(builder: Builder, t: Targets, context: Context, s: Option<Stmt>) returns (ok: bool)
    requires builder.Valid()
    modifies builder, context
    ensures builder.Valid()
    ensures Matches(LowerOptional(s, old(builder.blocks), old(builder.insert), t), ok, builder.blocks, builder.insert,
                    old(context.isTerminated), context.isTerminated)
    decreases s, 2
  {
    ok := true;
    if s.Some? {
      ok := CodegenStmt(builder, t, context, s.value);
    }
  }

  /** Evaluates the condition and branches on it; returns the else block, which counts
      only if there is an else branch, and the exit block. The builder is left in the
      true block. */
  method OpenIf(builder: Builder, s: Stmt) returns (noBlock: nat, exit: nat)
    requires builder.Valid() && s.If?
    modifies builder
    ensures builder.Valid() && builder.blocks == IfHead(s, old(builder.blocks), old(builder.insert))
    ensures builder.insert == |old(builder.blocks)| && (s.no.Some? ==> noBlock == |old(builder.blocks)| + 1)
    ensures exit == IfExit(s, old(builder.blocks))
  {
    builder.Build(Eval(s.condition));
    var yesBlock := builder.AppendBlock();
    noBlock := 0;
    if s.no.Some? {
      noBlock := builder.AppendBlock();
    }
    exit := builder.AppendBlock();
    builder.Build(CondBr(yesBlock, if s.no.Some? then noBlock else exit));
    builder.PositionAtEnd(yesBlock);
  }

  method CodegenIf(builder: Builder, t: Targets, context: Context, s: Stmt) returns (ok: bool)
    requires builder.Valid() && s.If?
    modifies builder, context
    ensures builder.Valid()
    ensures Matches(LowerIf(s, old(builder.blocks), old(builder.insert), t), ok, builder.blocks, builder.insert,
                    old(context.isTerminated), context.isTerminated)
    decreases s, 0
  {
    var noBlock, exit := OpenIf(builder, s);
    var yesContext := new Context();
    ok := CodegenOptional(builder, t, yesContext, s.yes);
    if !ok {
      return;
    }
    if !yesContext.isTerminated {
      builder.Build(Br(exit));
    }
    var isTerminated := false;
    if s.no.Some? {
      var noContext := new Context();
      builder.PositionAtEnd(noBlock);
      ok := CodegenStmt(builder, t, noContext, s.no.value);
      if !ok {
        return;
      }
      if !noContext.isTerminated {
        builder.Build(Br(exit));
      } else if yesContext.isTerminated {
        isTerminated := true;
      }
    }
    builder.PositionAtEnd(exit);
    if isTerminated {
      builder.Build(Unreachable);
      context.isTerminated := true;
    }
  }

  /** Evaluates the initial expression, enters the loop and branches on the condition;
      returns the block of the condition. */
  method OpenFor(builder: Builder, s: Stmt) returns (loop: nat)
    requires builder.Valid() && s.For?
    modifies builder
    ensures builder.Valid() && builder.blocks == ForHead(s, old(builder.blocks), old(builder.insert))
    ensures loop == |old(builder.blocks)|
  {
    builder.BuildEval(s.initial);
    loop := builder.AppendBlock();
    var body := builder.AppendBlock();
    var step := builder.AppendBlock();
    var exit := builder.AppendBlock();
    builder.Build(Br(loop));
    builder.PositionAtEnd(loop);
    if s.test.Some? {
      builder.Build(Eval(s.test.value));
      builder.Build(CondBr(body, exit));
    } else {
      builder.Build(Br(body));
    }
  }

  method CodegenFor(builder: Builder, t: Targets, context: Context, s: Stmt) returns (ok: bool)
    requires builder.Valid() && s.For?
    modifies builder, context
    ensures builder.Valid()
    ensures Matches(LowerFor(s, old(builder.blocks), old(builder.insert), t), ok, builder.blocks, builder.insert,
                    old(context.isTerminated), context.isTerminated)
    decreases s, 0
  {
    var loop := OpenFor(builder, s);
    var sub := new Context();
    builder.PositionAtEnd(loop + 1);
    ok := CodegenOptional(builder, Targets(Some(loop + 2), Some(loop + 3)), sub, s.body);
    if !ok {
      return;
    }
    builder.Build(Br(loop + 2));
    builder.PositionAtEnd(loop + 2);
    builder.BuildEval(s.step);
    builder.Build(Br(loop));
    builder.PositionAtEnd(loop + 3);
  }

  // ------------------------------------------------------------------------- functions

  datatype FunctionCode = Accepted(blocks: seq<Block>) | MissingReturn | NoTarget

  /** What becomes of a function body. */
  function LowerFunction(body: Stmt, isVoid: bool): FunctionCode {
    match Lower(body, [[]], 0, Targets(None, None))
    case None => NoTarget
    case Some(r) =>
      if r.terminated then Accepted(r.blocks)
      else if isVoid then Accepted(Put(r.blocks, r.insert, Ret(None)))
      else MissingReturn
  }

  method CodegenFunction(body: Stmt, isVoid: bool) returns (code: FunctionCode)
    ensures code == LowerFunction(body, isVoid)
  {
    var builder := new Builder();
    var context := new Context();
    var ok := CodegenStmt(builder, Targets(None, None), context, body);
    if !ok {
      code := NoTarget;
    } else if context.isTerminated {
      code := Accepted(builder.blocks);
    } else if isVoid {
      builder.Build(Ret(None));
      code := Accepted(builder.blocks);
    } else {
      code := MissingReturn;
    }
  }
}
