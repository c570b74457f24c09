/** Functions as graphs of basic blocks, and how they run. */
module Blocks {
  import opened Options
  import opened Statements

  datatype Instr =
    | Eval(expr: Expr)
    | Br(target: nat)
    | CondBr(ifTrue: nat, ifFalse: nat)
    | Ret(value: Option<Expr>)
    | Unreachable

  predicate IsTerminator(i: Instr) {
    !i.Eval?
  }

  type Block = seq<Instr>

  /** Running in a block before an instruction, or done. A run is stuck where a block
      ends without a terminator, at an unreachable point, or at a missing block. */
  datatype Config =
    | At(block: nat, index: nat, history: History)
    | Returns(history: History, value: Option<Expr>)
    | Stuck

  function Step(f: seq<Block>, o: Oracle, c: Config): Config {
    if !c.At? then c
    else if c.block >= |f| || c.index >= |f[c.block]| then Stuck
    else
      match f[c.block][c.index]
      case Eval(e) => At(c.block, c.index + 1, c.history + [e])
      case Br(t) => At(t, 0, c.history)
      case CondBr(t, e) => At(if o(c.history) then t else e, 0, c.history)
      case Ret(v) => Returns(c.history, v)
      case Unreachable => Stuck
  }

  function Run(f: seq<Block>, o: Oracle, c: Config, n: nat): Config
    decreases n
  {
    if n == 0 then c else Run(f, o, Step(f, o, c), n - 1)
  }

  ghost predicate Reaches(f: seq<Block>, o: Oracle, c: Config, d: Config) {
    exists n: nat :: Run(f, o, c, n) == d
  }

  /** The run is still going after n steps or more, with exactly these events. */
  ghost predicate GoesOn(f: seq<Block>, o: Oracle, c: Config, n: nat, h: History) {
    exists m: nat :: m >= n && Run(f, o, c, m).At? && Run(f, o, c, m).history == h
  }

  // ----------------------------------------------------------------------- lemmas

  lemma {:induction false} RunCompose(f: seq<Block>, o: Oracle, c: Config, m: nat, n: nat)
    ensures Run(f, o, c, m + n) == Run(f, o, Run(f, o, c, m), n)
    decreases m
  {
    if m > 0 {
      RunCompose(f, o, Step(f, o, c), m - 1, n);
    }
  }

  lemma {:induction false} RunStays(f: seq<Block>, o: Oracle, c: Config, n: nat)
    requires !c.At?
    ensures Run(f, o, c, n) == c
  {
    if n > 0 {
      RunStays(f, o, c, n - 1);
    }
  }

  lemma {:induction false} ReachesSelf(f: seq<Block>, o: Oracle, c: Config)
    ensures Reaches(f, o, c, c)
  {
    assert Run(f, o, c, 0) == c;
  }

  lemma {:induction false} ReachesTransitive(f: seq<Block>, o: Oracle, c: Config, d: Config, e: Config)
    requires Reaches(f, o, c, d) && Reaches(f, o, d, e)
    ensures Reaches(f, o, c, e)
  {
    var m: nat :| Run(f, o, c, m) == d;
    var n: nat :| Run(f, o, d, n) == e;
    RunCompose(f, o, c, m, n);
  }

  lemma {:induction false} ReachesStep(f: seq<Block>, o: Oracle, c: Config)
    ensures Reaches(f, o, c, Step(f, o, c))
  {
    assert Run(f, o, c, 1) == Run(f, o, Step(f, o, c), 0);
  }

  lemma {:induction false} GoesOnBehind(f: seq<Block>, o: Oracle, c: Config, d: Config, n: nat, h: History)
    requires Reaches(f, o, c, d) && GoesOn(f, o, d, n, h)
    ensures GoesOn(f, o, c, n, h)
  {
    var k: nat :| Run(f, o, c, k) == d;
    var m: nat :| m >= n && Run(f, o, d, m).At? && Run(f, o, d, m).history == h;
    RunCompose(f, o, c, k, m);
  }

  lemma {:induction false} GoesOnStep(f: seq<Block>, o: Oracle, c: Config, n: nat, h: History)
    requires GoesOn(f, o, Step(f, o, c), n, h)
    ensures GoesOn(f, o, c, n + 1, h)
  {
    var m: nat :| m >= n && Run(f, o, Step(f, o, c), m).At? && Run(f, o, Step(f, o, c), m).history == h;
    assert Run(f, o, c, m + 1) == Run(f, o, Step(f, o, c), m);
  }

  /** Runs are deterministic: two final configurations are the same. */
  lemma {:induction false} FinalOnce(f: seq<Block>, o: Oracle, c: Config, d: Config, e: Config)
    requires Reaches(f, o, c, d) && Reaches(f, o, c, e) && !d.At? && !e.At?
    ensures d == e
  {
    var m: nat :| Run(f, o, c, m) == d;
    var n: nat :| Run(f, o, c, n) == e;
    if m <= n {
      RunCompose(f, o, c, m, n - m);
      RunStays(f, o, d, n - m);
    } else {
      RunCompose(f, o, c, n, m - n);
      RunStays(f, o, e, m - n);
    }
  }
}
