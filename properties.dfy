/** The content of the output records the analyzer fills in: a guard expression
    with its location, one switch case per guard, the default case, and the
    node properties that carry both. */
module NodeModel {
  import opened Syntax

  datatype CodeLocation = CodeLocation(startLine: LinePosition, endLine: LinePosition)

  /** A guard: its source text and where it stands. */
  datatype BalExpression = BalExpression(expression: string, location: CodeLocation)

  datatype SwitchCase = SwitchCase(expression: BalExpression, nodes: seq<string>)

  datatype SwitchDefaultCase = SwitchDefaultCase(nodes: seq<string>)

  datatype NodeProperties = NodeProperties(switchCases: seq<SwitchCase>, defaultSwitchCase: SwitchDefaultCase)
}
