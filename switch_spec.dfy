/** The switch analyzer's behaviour as functions on its state.

    The state holds the analyzer's four fields. The insertion-ordered map from
    guard to destination list is kept as two parallel sequences, `mapperKeys`
    and `mapperValues`; entry `i` is the `i`-th registered guard. The current
    guard `expression` is the registration index of its map key, `None` while
    no guard has been registered. Every registration creates a fresh key, so
    buckets are told apart by index and never by the guard's text.

    A run returns `None` where the analyzer would look up a bucket that is not
    there and dereference the missing list. */
module SwitchSpec {
  import opened Syntax
  import opened NodeModel

  datatype State = State(
    processDefaultCase: bool,
    expression: Option<nat>,
    mapperKeys: seq<BalExpression>,
    mapperValues: seq<seq<string>>,
    defaultSwitchCaseNodes: seq<string>)

  /** The map's keys and values line up, and the current guard is the one
      registered last (only registration sets it, and registration appends). */
  predicate Consistent(s: State) {
    && |s.mapperKeys| == |s.mapperValues|
    && s.expression == (if |s.mapperKeys| == 0 then None else Some(|s.mapperKeys| - 1))
  }

  /** A freshly constructed analyzer. */
  const Initial: State := State(false, None, [], [], [])

  /** The map key built for an expression node: its source text and its lines. */
  function BalExpressionOf(e: Expr): BalExpression {
    BalExpression(e.text, CodeLocation(e.lineRange.startLine, e.lineRange.endLine))
  }

  /** `initializeExpressionMap`: a new key with an empty list becomes the current guard. */
  function Register(s: State, e: Expr): (r: State)
    ensures Consistent(s) ==> Consistent(r)
  {
    s.(expression := Some(|s.mapperKeys|),
       mapperKeys := s.mapperKeys + [BalExpressionOf(e)],
       mapperValues := s.mapperValues + [[]])
  }

  /** `analyzeSendAction` for a resolved port id. */
  function AnalyzeSend(s: State, portId: string): (r: Option<State>)
    ensures Consistent(s) && r.Some? ==> Consistent(r.value)
  {
    if s.processDefaultCase then
      Some(s.(defaultSwitchCaseNodes := s.defaultSwitchCaseNodes + [portId]))
    else
      match s.expression
      case Some(i) =>
        if i < |s.mapperValues| then Some(s.(mapperValues := s.mapperValues[i := s.mapperValues[i] + [portId]]))
        else None
      case None => None
  }

  /** Visiting a guard: a braced expression registers its inner expression (one
      level only), a binary expression registers itself, anything else is left
      alone. */
  function RunExpr(s: State, e: Expr): (r: State)
    ensures Consistent(s) ==> Consistent(r)
  {
    match e
    case Braced(_, _, inner) => Register(s, inner)
    case Binary(_, _) => Register(s, e)
    case OtherExpr(_, _) => s
  }

  function RunStmt(s: State, st: Stmt): (r: Option<State>)
    ensures Consistent(s) && r.Some? ==> Consistent(r.value)
  {
    match st
    case Send(p) => AnalyzeSend(s, p)
    case OtherStmt => Some(s)
  }

  /** Visiting the statements of a block in order. */
  function RunBlock(s: State, stmts: seq<Stmt>): (r: Option<State>)
    ensures Consistent(s) && r.Some? ==> Consistent(r.value)
    decreases |stmts|
  {
    if |stmts| == 0 then Some(s)
    else
      match RunStmt(s, stmts[0])
      case None => None
      case Some(t) => RunBlock(t, stmts[1..])
  }

  /** `visit(IfElseStatementNode)`: guard, then if-body, then the else part if any. */
  function RunChain(s: State, n: IfElse): (r: Option<State>)
    ensures Consistent(s) && r.Some? ==> Consistent(r.value)
    decreases n, 1
  {
    match RunBlock(RunExpr(s, n.condition), n.ifBody.stmts)
    case None => None
    case Some(t) =>
      match n.elseBody
      case None => Some(t)
      case Some(eb) => RunElse(t, eb)
  }

  /** `visit(ElseBlockNode)`: default mode exactly when the body is a plain block. */
  function RunElse(s: State, eb: ElseBlock): (r: Option<State>)
    ensures Consistent(s) && r.Some? ==> Consistent(r.value)
    decreases eb, 0
  {
    var t := s.(processDefaultCase := eb.elseBody.Plain?);
    match eb.elseBody
    case Plain(b) => RunBlock(t, b.stmts)
    case ElseIf(c) => RunChain(t, c)
  }

  /** The map's entries in insertion order, one switch case each. */
  function Pairs(keys: seq<BalExpression>, values: seq<seq<string>>): (r: seq<SwitchCase>)
    requires |keys| == |values|
    ensures |r| == |keys|
    ensures forall i :: 0 <= i < |r| ==> r[i] == SwitchCase(keys[i], values[i])
    decreases |keys|
  {
    if |keys| == 0 then []
    else Pairs(keys[..|keys| - 1], values[..|values| - 1]) + [SwitchCase(keys[|keys| - 1], values[|values| - 1])]
  }

  /** `buildProperties`, read off a state. */
  function Properties(s: State): NodeProperties
    requires |s.mapperKeys| == |s.mapperValues|
  {
    NodeProperties(Pairs(s.mapperKeys, s.mapperValues), SwitchDefaultCase(s.defaultSwitchCaseNodes))
  }
}
