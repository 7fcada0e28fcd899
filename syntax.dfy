/** The fragment of the Ballerina syntax tree that the switch analyzer reacts to.
    Each node kind the analyzer overrides a `visit` for gets its own constructor;
    everything else reaches it only through the generic traversal and is
    collapsed into `OtherExpr` / `OtherStmt`. */
module Syntax {

  datatype Option<+T> = None | Some(value: T)

  /** A position in a source file (line and column, both zero based). */
  datatype LinePosition = LinePosition(line: nat, offset: nat)

  /** The span of a node, as `lineRange()` reports it. */
  datatype LineRange = LineRange(startLine: LinePosition, endLine: LinePosition)

  /** Expression nodes. `text` is what `toSourceCode()` returns for the node. */
  datatype Expr =
    | Braced(text: string, lineRange: LineRange, expression: Expr)  // `( e )`
    | Binary(text: string, lineRange: LineRange)                      // `a > b`, `x == 1 && y`, ...
    | OtherExpr(text: string, lineRange: LineRange)                   // names, calls, unary, literals, ...

  /** A statement inside a block, as the base visitor reaches it. A message send
      carries the port id that the base analyzer resolves for it. */
  datatype Stmt =
    | Send(portId: string)
    | OtherStmt

  /** A block statement `{ ... }`. */
  datatype Block = Block(stmts: seq<Stmt>)

  /** `if condition ifBody [else ...]` */
  datatype IfElse = IfElse(condition: Expr, ifBody: Block, elseBody: Option<ElseBlock>)

  /** The `else ...` part of an if statement. */
  datatype ElseBlock = Else(elseBody: ElseBody)

  /** What follows `else`: a plain block, or another if statement (`else if`). */
  datatype ElseBody =
    | Plain(block: Block)
    | ElseIf(chain: IfElse)
}
