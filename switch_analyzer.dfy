/** The switch analyzer: a visitor whose callbacks update four fields while the
    traversal walks an if / else-if / else chain, and which reads them out once
    at the end as node properties. */
module Analyzer {
  import opened Syntax
  import opened NodeModel
  import opened SwitchSpec

  class SwitchAnalyzer {
    var processDefaultCase: bool
    /** The current guard, as the registration index of its map key; `None`
        until the first guard is registered. */
    var expression: Option<nat>
    /** `expressionToNodesMapper`, an insertion-ordered map, as its keys and
        its values in insertion order. */
    var mapperKeys: seq<BalExpression>
    var mapperValues: seq<seq<string>>
    var defaultSwitchCaseNodes: seq<string>

    /** The four fields as one `SwitchSpec.State` value. */
    function Abstract(): State
      reads this
    {
      State(processDefaultCase, expression, mapperKeys, mapperValues, defaultSwitchCaseNodes)
    }

    predicate Valid()
      reads this
    {
      Consistent(Abstract())
    }

    /** A fresh analyzer: not in default mode, no guards, empty default list. */
    constructor ()
      ensures Valid()
      ensures Abstract() == Initial
      ensures !processDefaultCase && expression == None
      ensures mapperKeys == [] && mapperValues == [] && defaultSwitchCaseNodes == []
    {
      processDefaultCase := false;
      expression := None;
      mapperKeys, mapperValues := [], [];
      defaultSwitchCaseNodes := [];
    }

    /** A send whose port id the base analyzer resolved. In default mode the id
        goes to the default list, otherwise to the current guard's list. */
    method AnalyzeSendAction(portId: string)
      requires Valid()
      requires processDefaultCase || expression.Some?
      modifies this
      ensures Valid()
      ensures AnalyzeSend(old(Abstract()), portId) == Some(Abstract())
      ensures old(processDefaultCase) ==>
        && defaultSwitchCaseNodes == old(defaultSwitchCaseNodes) + [portId]
        && mapperValues == old(mapperValues)
      ensures !old(processDefaultCase) ==>
        && mapperValues == old(mapperValues)[old(expression).value := old(mapperValues)[old(expression).value] + [portId]]
        && defaultSwitchCaseNodes == old(defaultSwitchCaseNodes)
      ensures processDefaultCase == old(processDefaultCase) && expression == old(expression)
      ensures mapperKeys == old(mapperKeys)
    {
      if processDefaultCase {
        AddDefaultSwitchCase(portId);
        return;
      }
      AddSwitchCase(portId);
    }

    /** `visit(IfElseStatementNode)`: the guard, then the if-body, then the else part. */
    method VisitIfElse(node: IfElse)
      requires Valid()
      requires RunChain(Abstract(), node).Some?
      modifies this
      ensures Valid()
      ensures RunChain(old(Abstract()), node) == Some(Abstract())
      decreases node, 1
    {
      VisitExpr(node.condition);
      VisitBlock(node.ifBody);
      match node.elseBody {
        case Some(eb) => VisitElse(eb);
        case None =>
      }
    }

    /** `visit(ElseBlockNode)`: default mode is on exactly when the else body is
        a plain block; then the body is visited. */
    method VisitElse(node: ElseBlock)
      requires Valid()
      requires RunElse(Abstract(), node).Some?
      modifies this
      ensures Valid()
      ensures RunElse(old(Abstract()), node) == Some(Abstract())
      decreases node, 0
    {
      processDefaultCase := node.elseBody.Plain?;
      match node.elseBody {
        case Plain(b) => VisitBlock(b);
        case ElseIf(c) => VisitIfElse(c);
      }
    }

    /** `visit(BracedExpressionNode)`: registers the expression inside the
        parentheses, and only that one. */
    method VisitBraced(node: Expr)
      requires Valid()
      requires node.Braced?
      modifies this
      ensures Valid()
      ensures Abstract() == Register(old(Abstract()), node.expression)
      ensures mapperKeys == old(mapperKeys) + [BalExpressionOf(node.expression)]
    {
      InitializeExpressionMap(node.expression);
    }

    /** `visit(BinaryExpressionNode)`: registers the binary expression itself. */
    method VisitBinary(node: Expr)
      requires Valid()
      requires node.Binary?
      modifies this
      ensures Valid()
      ensures Abstract() == Register(old(Abstract()), node)
      ensures mapperKeys == old(mapperKeys) + [BalExpressionOf(node)]
    {
      InitializeExpressionMap(node);
    }

    /** The traversal reaching a guard: braced and binary expressions go to
        their visit methods; any other expression is passed over. */
    method VisitExpr(node: Expr)
      requires Valid()
      modifies this
      ensures Valid()
      ensures Abstract() == RunExpr(old(Abstract()), node)
    {
      match node {
        case Braced(_, _, _) => VisitBraced(node);
        case Binary(_, _) => VisitBinary(node);
        case OtherExpr(_, _) =>
      }
    }

    /** The traversal walking a block: each send is reported, in order. */
    method VisitBlock(block: Block)
      requires Valid()
      requires RunBlock(Abstract(), block.stmts).Some?
      modifies this
      ensures Valid()
      ensures RunBlock(old(Abstract()), block.stmts) == Some(Abstract())
    {
      var stmts := block.stmts;
      var i := 0;
      while i < |stmts|
        invariant 0 <= i <= |stmts|
        invariant Valid()
        invariant RunBlock(Abstract(), stmts[i..]) == RunBlock(old(Abstract()), stmts)
      {
        assert stmts[i..][1..] == stmts[i + 1..];
        match stmts[i] {
          case Send(p) => AnalyzeSendAction(p);
          case OtherStmt =>
        }
        i := i + 1;
      }
    }

    method AddDefaultSwitchCase(node: string)
      requires Valid()
      modifies this
      ensures Valid()
      ensures Abstract() == old(Abstract()).(defaultSwitchCaseNodes := old(defaultSwitchCaseNodes) + [node])
    {
      defaultSwitchCaseNodes := defaultSwitchCaseNodes + [node];
    }

    /** Appends to the list of the current guard. There must be one: the list
        looked up for a missing guard is dereferenced unchecked. */
    method AddSwitchCase(node: string)
      requires Valid()
      requires expression.Some?
      modifies this
      ensures Valid()
      ensures Abstract() == old(Abstract()).(mapperValues := old(mapperValues)[old(expression).value := old(mapperValues)[old(expression).value] + [node]])
    {
      var i := expression.value;
      mapperValues := mapperValues[i := mapperValues[i] + [node]];
    }

    /** A fresh key for the expression, with an empty list, appended last and
        made the current guard. */
    method InitializeExpressionMap(node: Expr)
      requires Valid()
      modifies this
      ensures Valid()
      ensures Abstract() == Register(old(Abstract()), node)
      ensures mapperKeys == old(mapperKeys) + [BalExpressionOf(node)]
      ensures mapperValues == old(mapperValues) + [[]]
      ensures expression == Some(|old(mapperKeys)|)
      ensures processDefaultCase == old(processDefaultCase) && defaultSwitchCaseNodes == old(defaultSwitchCaseNodes)
    {
      expression := Some(|mapperKeys|);
      mapperKeys := mapperKeys + [BalExpressionOf(node)];
      mapperValues := mapperValues + [[]];
    }

    /** One switch case per registered guard, in registration order, each with
        its list, and the default list. Nothing is changed. */
    method BuildProperties() returns (r: NodeProperties)
      requires Valid()
      ensures |r.switchCases| == |mapperKeys|
      ensures forall i :: 0 <= i < |mapperKeys| ==> r.switchCases[i] == SwitchCase(mapperKeys[i], mapperValues[i])
      ensures r.defaultSwitchCase == SwitchDefaultCase(defaultSwitchCaseNodes)
      ensures r == Properties(Abstract())
    {
      var switchCases: seq<SwitchCase> := [];
      for i := 0 to |mapperKeys|
        invariant |switchCases| == i
        invariant forall j :: 0 <= j < i ==> switchCases[j] == SwitchCase(mapperKeys[j], mapperValues[j])
      {
        switchCases := switchCases + [SwitchCase(mapperKeys[i], mapperValues[i])];
      }
      r := NodeProperties(switchCases, SwitchDefaultCase(defaultSwitchCaseNodes));
    }
  }

  /** Building the properties twice, with nothing in between, gives equal results. */
  method BuildPropertiesTwice(a: SwitchAnalyzer) returns (first: NodeProperties, second: NodeProperties)
    requires a.Valid()
    ensures first == second
  {
    first := a.BuildProperties();
    second := a.BuildProperties();
  }

  /** A fresh analyzer run over a chain and read out. */
  method AnalyzeChain(node: IfElse) returns (r: NodeProperties)
    requires RunChain(Initial, node).Some?
    ensures r == Properties(RunChain(Initial, node).value)
  {
    var a := new SwitchAnalyzer();
    a.VisitIfElse(node);
    r := a.BuildProperties();
  }
}
