/** Statements as the parser builds them, and what executing them means. */
module Statements {
  import opened Options

  /** An expression, or the declaration of a variable: all that matters here is that
      evaluating it is one event. */
  datatype Expr = Expr(id: nat)

  datatype Decl = Variable(event: Expr) | Symbol

  datatype BlockItem = StmtItem(stmt: Option<Stmt>) | DeclItem(decl: Option<Decl>)

  datatype Stmt =
    | ExprStmt(expr: Expr)
    | Compound(items: seq<BlockItem>)
    | If(condition: Expr, yes: Option<Stmt>, no: Option<Stmt>)
    | For(initial: Option<Expr>, test: Option<Expr>, step: Option<Expr>, body: Option<Stmt>)
    | Continue
    | Break
    | Return(value: Option<Expr>)

  /** The expressions evaluated so far, the latest one last. */
  type History = seq<Expr>

  /** Decides every condition from all that was evaluated up to and including it. */
  type Oracle = History -> bool

  datatype Ending = Normal | Broke | Continued | Returned(value: Option<Expr>)

  /** A statement ends, or is cut off when it has gone through too many loop rounds. */
  datatype Effect = Ended(history: History, ending: Ending) | Cut(history: History)

  function Evaluate(e: Option<Expr>, h: History): History {
    if e.Some? then h + [e.value] else h
  }

  /** Executes a statement after the history h, for at most `fuel` loop rounds in a
      nest. */
  function Exec(o: Oracle, s: Stmt, h: History, fuel: nat): Effect
    decreases fuel, s, 1
  {
    match s
    case ExprStmt(e) => Ended(h + [e], Normal)
    case Compound(items) => ExecItems(o, items, h, fuel)
    case If(c, yes, no) =>
      if o(h + [c]) then
        if yes.Some? then Exec(o, yes.value, h + [c], fuel) else Ended(h + [c], Normal)
      else
        if no.Some? then Exec(o, no.value, h + [c], fuel) else Ended(h + [c], Normal)
    case For(initial, _, _, _) => ExecLoop(o, s, Evaluate(initial, h), fuel)
    case Continue => Ended(h, Continued)
    case Break => Ended(h, Broke)
    case Return(v) => Ended(Evaluate(v, h), Returned(v))
  }

  function ExecItems(o: Oracle, items: seq<BlockItem>, h: History, fuel: nat): Effect
    decreases fuel, items, 0
  {
    if items == [] then Ended(h, Normal)
    else
      var before := ExecItems(o, items[..|items| - 1], h, fuel);
      if before.Ended? && before.ending.Normal? then ExecItem(o, items[|items| - 1], before.history, fuel) else before
  }

  function ExecItem(o: Oracle, item: BlockItem, h: History, fuel: nat): Effect
    decreases fuel, item, 0
  {
    match item
    case StmtItem(Some(s)) => Exec(o, s, h, fuel)
    case DeclItem(Some(Variable(e))) => Ended(h + [e], Normal)
    case _ => Ended(h, Normal)
  }

  /** The rounds of a loop, before its condition. */
  function ExecLoop(o: Oracle, s: Stmt, h: History, fuel: nat): Effect
    requires s.For?
    decreases fuel, s, 0
  {
    if fuel == 0 then Cut(h)
    else if s.test.Some? && !o(h + [s.test.value]) then Ended(h + [s.test.value], Normal)
    else
      var round := ExecBody(o, s, Evaluate(s.test, h), fuel - 1);
      if round.Cut? || round.ending.Returned? then round
      else if round.ending.Broke? then Ended(round.history, Normal)
      else ExecLoop(o, s, Evaluate(s.step, round.history), fuel - 1)
  }

  function ExecBody(o: Oracle, s: Stmt, h: History, fuel: nat): Effect
    requires s.For?
    decreases fuel, s, 0
  {
    if s.body.Some? then Exec(o, s.body.value, h, fuel) else Ended(h, Normal)
  }
}
