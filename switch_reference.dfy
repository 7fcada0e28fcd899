/** What an if / else-if / else chain should reduce to, defined directly on the
    chain's structure, and the lemmas that the analyzer's run produces it. */
module SwitchReference {
  import opened Syntax
  import opened NodeModel
  import opened SwitchSpec

  /** The port ids of the sends in a block, in order, repeats kept. */
  function Sends(xs: seq<Stmt>): seq<string>
    decreases |xs|
  {
    if |xs| == 0 then []
    else (match xs[0] case Send(p) => [p] case OtherStmt => []) + Sends(xs[1..])
  }

  /** Whether visiting this guard registers a bucket. */
  predicate Registers(e: Expr) {
    e.Braced? || e.Binary?
  }

  /** The keys a guard contributes: the inner expression of a braced guard, a
      binary guard itself, nothing for any other expression. */
  function GuardKeys(e: Expr): seq<BalExpression> {
    if e.Braced? then [BalExpressionOf(e.expression)]
    else if e.Binary? then [BalExpressionOf(e)]
    else []
  }

  /** Number of guarded branches (the `if` and each `else if`). */
  function Branches(n: IfElse): nat
    decreases n
  {
    1 + match n.elseBody
        case Some(Else(ElseIf(c))) => Branches(c)
        case _ => 0
  }

  predicate EveryGuardRegisters(n: IfElse)
    decreases n
  {
    && Registers(n.condition)
    && match n.elseBody
       case Some(Else(ElseIf(c))) => EveryGuardRegisters(c)
       case _ => true
  }

  predicate SomeGuardRegisters(n: IfElse)
    decreases n
  {
    || Registers(n.condition)
    || match n.elseBody
       case Some(Else(ElseIf(c))) => SomeGuardRegisters(c)
       case _ => false
  }

  /** Whether the chain ends in a plain `else { ... }`. */
  predicate EndsInElse(n: IfElse)
    decreases n
  {
    match n.elseBody
    case None => false
    case Some(Else(Plain(_))) => true
    case Some(Else(ElseIf(c))) => EndsInElse(c)
  }

  /** The guards of the chain, outer to inner. */
  function ChainGuards(n: IfElse): seq<BalExpression>
    decreases n, 1
  {
    GuardKeys(n.condition) + match n.elseBody
      case None => []
      case Some(eb) => ElseGuards(eb)
  }

  function ElseGuards(eb: ElseBlock): seq<BalExpression>
    decreases eb, 0
  {
    match eb.elseBody
    case Plain(_) => []
    case ElseIf(c) => ChainGuards(c)
  }

  /** The sends of each guarded branch's body, outer to inner. */
  function ChainBuckets(n: IfElse): seq<seq<string>>
    decreases n
  {
    [Sends(n.ifBody.stmts)] +
    match n.elseBody
    case Some(Else(ElseIf(c))) => ChainBuckets(c)
    case _ => []
  }

  /** The sends of the terminal `else` block, empty when there is none. */
  function ChainDefault(n: IfElse): seq<string>
    decreases n, 1
  {
    match n.elseBody
    case None => []
    case Some(eb) => ElseDefault(eb)
  }

  function ElseDefault(eb: ElseBlock): seq<string>
    decreases eb, 0
  {
    match eb.elseBody
    case Plain(b) => Sends(b.stmts)
    case ElseIf(c) => ChainDefault(c)
  }

  // ---------------------------------------------------------------------------
  // Blocks: where the sends of a block go, in each of the three modes.

  /** In default mode every send of a block is appended to the default list,
      and nothing else changes. */
  lemma {:induction false} BlockInDefaultMode(s: State, xs: seq<Stmt>)
    requires s.processDefaultCase
    ensures RunBlock(s, xs) == Some(s.(defaultSwitchCaseNodes := s.defaultSwitchCaseNodes + Sends(xs)))
    decreases |xs|
  {
    if |xs| > 0 {
      match xs[0]
      case Send(p) =>
        var t := s.(defaultSwitchCaseNodes := s.defaultSwitchCaseNodes + [p]);
        assert RunBlock(s, xs) == RunBlock(t, xs[1..]);
        BlockInDefaultMode(t, xs[1..]);
        assert Sends(xs) == [p] + Sends(xs[1..]);
        assert t.defaultSwitchCaseNodes + Sends(xs[1..]) == s.defaultSwitchCaseNodes + Sends(xs);
      case OtherStmt =>
        BlockInDefaultMode(s, xs[1..]);
        assert Sends(xs) == Sends(xs[1..]);
    } else {
      assert s.defaultSwitchCaseNodes + Sends(xs) == s.defaultSwitchCaseNodes;
    }
  }

  /** Outside default mode, with a current guard, every send of a block is
      appended to the current guard's list; the other lists, the default list
      and the keys stay as they were. */
  lemma {:induction false} BlockUnderGuard(s: State, xs: seq<Stmt>)
    requires Consistent(s) && !s.processDefaultCase && |s.mapperKeys| > 0
    ensures var last := |s.mapperValues| - 1;
      RunBlock(s, xs) == Some(s.(mapperValues := s.mapperValues[last := s.mapperValues[last] + Sends(xs)]))
    decreases |xs|
  {
    var last := |s.mapperValues| - 1;
    if |xs| > 0 {
      match xs[0]
      case Send(p) =>
        var t := s.(mapperValues := s.mapperValues[last := s.mapperValues[last] + [p]]);
        assert RunBlock(s, xs) == RunBlock(t, xs[1..]);
        BlockUnderGuard(t, xs[1..]);
        assert Sends(xs) == [p] + Sends(xs[1..]);
        assert t.mapperValues[last] + Sends(xs[1..]) == s.mapperValues[last] + Sends(xs);
        assert t.mapperValues[last := t.mapperValues[last] + Sends(xs[1..])]
            == s.mapperValues[last := s.mapperValues[last] + Sends(xs)];
      case OtherStmt =>
        BlockUnderGuard(s, xs[1..]);
        assert Sends(xs) == Sends(xs[1..]);
    } else {
      assert s.mapperValues[last] + Sends(xs) == s.mapperValues[last];
      assert s.mapperValues[last := s.mapperValues[last]] == s.mapperValues;
    }
  }

  /** Outside default mode and before any guard is registered, a block runs
      exactly when it sends nothing: a send would add to a list that is not there. */
  lemma {:induction false} BlockWithoutGuard(s: State, xs: seq<Stmt>)
    requires !s.processDefaultCase && s.expression == None
    ensures RunBlock(s, xs) == if Sends(xs) == [] then Some(s) else None
    decreases |xs|
  {
    if |xs| > 0 {
      match xs[0]
      case Send(p) =>
        assert Sends(xs)[0] == p;
      case OtherStmt =>
        BlockWithoutGuard(s, xs[1..]);
    }
  }

  // ---------------------------------------------------------------------------
  // Chains.

  /** Visiting a guard outside default mode: the keys gain the guard's keys (at
      most one), the lists gain an empty one per key, and the state stays
      consistent and out of default mode. */
  lemma GuardRun(s: State, e: Expr)
    requires Consistent(s) && !s.processDefaultCase
    ensures var s1 := RunExpr(s, e);
      && Consistent(s1) && !s1.processDefaultCase
      && s1.mapperKeys == s.mapperKeys + GuardKeys(e)
      && s1.mapperValues == s.mapperValues + (if Registers(e) then [[]] else [])
      && s1.defaultSwitchCaseNodes == s.defaultSwitchCaseNodes
  {
  }

  /** Visiting a guard and then the if-body, outside default mode: the keys and
      the default list change as the guard says, and the state stays consistent
      and out of default mode. */
  lemma {:induction false} BranchKeysAndDefault(s: State, n: IfElse, s2: State)
    requires Consistent(s) && !s.processDefaultCase
    requires RunBlock(RunExpr(s, n.condition), n.ifBody.stmts) == Some(s2)
    ensures Consistent(s2) && !s2.processDefaultCase
    ensures s2.mapperKeys == s.mapperKeys + GuardKeys(n.condition)
    ensures s2.defaultSwitchCaseNodes == s.defaultSwitchCaseNodes
  {
    GuardRun(s, n.condition);
    var s1 := RunExpr(s, n.condition);
    if |s1.mapperKeys| > 0 {
      BlockUnderGuard(s1, n.ifBody.stmts);
    } else {
      BlockWithoutGuard(s1, n.ifBody.stmts);
    }
  }

  /** Visiting a registering guard and then the if-body: one new list, holding
      exactly the body's sends. */
  lemma {:induction false} RegisteredBranch(s: State, n: IfElse)
    requires Consistent(s) && !s.processDefaultCase
    requires Registers(n.condition)
    ensures RunBlock(RunExpr(s, n.condition), n.ifBody.stmts).Some?
    ensures RunBlock(RunExpr(s, n.condition), n.ifBody.stmts).value.mapperValues
         == s.mapperValues + [Sends(n.ifBody.stmts)]
  {
    GuardRun(s, n.condition);
    var s1 := RunExpr(s, n.condition);
    BlockUnderGuard(s1, n.ifBody.stmts);
    var last := |s.mapperValues|;
    assert s1.mapperValues[last] == [];
    assert s1.mapperValues[last] + Sends(n.ifBody.stmts) == Sends(n.ifBody.stmts);
    assert s1.mapperValues[last := s1.mapperValues[last] + Sends(n.ifBody.stmts)]
        == s.mapperValues + [Sends(n.ifBody.stmts)];
  }

  /** Any run of a chain that started outside default mode has appended exactly
      the chain's registering guards to the keys, in source order. */
  lemma {:induction false} ChainKeys(s: State, n: IfElse, s': State)
    requires Consistent(s) && !s.processDefaultCase
    requires RunChain(s, n) == Some(s')
    ensures s'.mapperKeys == s.mapperKeys + ChainGuards(n)
    decreases n, 1
  {
    var s2 := RunBlock(RunExpr(s, n.condition), n.ifBody.stmts).value;
    BranchKeysAndDefault(s, n, s2);
    if n.elseBody.Some? {
      var eb := n.elseBody.value;
      ElseKeys(s2, eb, s');
      assert s'.mapperKeys == (s.mapperKeys + GuardKeys(n.condition)) + ElseGuards(eb);
    }
  }

  lemma {:induction false} ElseKeys(s: State, eb: ElseBlock, s': State)
    requires Consistent(s)
    requires RunElse(s, eb) == Some(s')
    ensures s'.mapperKeys == s.mapperKeys + ElseGuards(eb)
    decreases eb, 0
  {
    match eb.elseBody
    case Plain(b) =>
      BlockInDefaultMode(s.(processDefaultCase := true), b.stmts);
    case ElseIf(c) =>
      ChainKeys(s.(processDefaultCase := false), c, s');
  }

  /** Any run of a chain that started outside default mode has appended exactly
      the terminal `else` block's sends to the default list. */
  lemma {:induction false} ChainDefaultList(s: State, n: IfElse, s': State)
    requires Consistent(s) && !s.processDefaultCase
    requires RunChain(s, n) == Some(s')
    ensures s'.defaultSwitchCaseNodes == s.defaultSwitchCaseNodes + ChainDefault(n)
    decreases n, 1
  {
    var s2 := RunBlock(RunExpr(s, n.condition), n.ifBody.stmts).value;
    BranchKeysAndDefault(s, n, s2);
    if n.elseBody.Some? {
      ElseDefaultList(s2, n.elseBody.value, s');
    }
  }

  lemma {:induction false} ElseDefaultList(s: State, eb: ElseBlock, s': State)
    requires Consistent(s)
    requires RunElse(s, eb) == Some(s')
    ensures s'.defaultSwitchCaseNodes == s.defaultSwitchCaseNodes + ElseDefault(eb)
    decreases eb, 0
  {
    match eb.elseBody
    case Plain(b) =>
      BlockInDefaultMode(s.(processDefaultCase := true), b.stmts);
    case ElseIf(c) =>
      ChainDefaultList(s.(processDefaultCase := false), c, s');
  }

  /** When every guard of the chain registers, the run is defined and appends
      one list per branch holding exactly that branch's sends. */
  lemma {:induction false} ChainBucketsWhenEveryGuardRegisters(s: State, n: IfElse)
    requires Consistent(s) && !s.processDefaultCase
    requires EveryGuardRegisters(n)
    ensures RunChain(s, n).Some?
    ensures RunChain(s, n).value.mapperValues == s.mapperValues + ChainBuckets(n)
    decreases n
  {
    RegisteredBranch(s, n);
    var s2 := RunBlock(RunExpr(s, n.condition), n.ifBody.stmts).value;
    BranchKeysAndDefault(s, n, s2);
    match n.elseBody
    case None =>
    case Some(Else(Plain(b))) =>
      BlockInDefaultMode(s2.(processDefaultCase := true), b.stmts);
    case Some(Else(ElseIf(c))) =>
      ChainBucketsWhenEveryGuardRegisters(s2.(processDefaultCase := false), c);
  }

  /** Once a guard has been registered (before the chain or by its first guard)
      the run of the chain is defined. */
  lemma {:induction false} ChainDefinedOnceGuarded(s: State, n: IfElse)
    requires Consistent(s) && !s.processDefaultCase
    requires |s.mapperKeys| > 0 || Registers(n.condition)
    ensures RunChain(s, n).Some?
    decreases n
  {
    var s1 := RunExpr(s, n.condition);
    BlockUnderGuard(s1, n.ifBody.stmts);
    var s2 := RunBlock(s1, n.ifBody.stmts).value;
    match n.elseBody
    case None =>
    case Some(Else(Plain(b))) =>
      BlockInDefaultMode(s2.(processDefaultCase := true), b.stmts);
    case Some(Else(ElseIf(c))) =>
      ChainDefinedOnceGuarded(s2.(processDefaultCase := false), c);
  }

  /** A first guard that registers nothing, with no guard before it, followed by
      a send in its body: the send looks up a bucket that does not exist. */
  lemma SendBeforeAnyGuardFails(n: IfElse)
    requires !Registers(n.condition)
    requires Sends(n.ifBody.stmts) != []
    ensures RunChain(Initial, n) == None
  {
    BlockWithoutGuard(Initial, n.ifBody.stmts);
  }

  lemma {:induction false} GuardsAndBucketsLineUp(n: IfElse)
    requires EveryGuardRegisters(n)
    ensures |ChainGuards(n)| == |ChainBuckets(n)| == Branches(n)
    decreases n
  {
    match n.elseBody
    case Some(Else(ElseIf(c))) => GuardsAndBucketsLineUp(c);
    case _ =>
  }

  lemma {:induction false} NoGuardsExactlyWhenNoneRegisters(n: IfElse)
    ensures ChainGuards(n) == [] <==> !SomeGuardRegisters(n)
    decreases n
  {
    match n.elseBody
    case Some(Else(ElseIf(c))) => NoGuardsExactlyWhenNoneRegisters(c);
    case _ =>
  }

  /** The default mode flag after a chain: unchanged by a chain without `else`,
      otherwise set exactly when the chain ends in a plain `else` block. */
  lemma {:induction false} DefaultModeAfterChain(s: State, n: IfElse, s': State)
    requires Consistent(s) && !s.processDefaultCase
    requires RunChain(s, n) == Some(s')
    ensures s'.processDefaultCase == EndsInElse(n)
    decreases n
  {
    var s1 := RunExpr(s, n.condition);
    if |s1.mapperKeys| > 0 {
      BlockUnderGuard(s1, n.ifBody.stmts);
    } else {
      BlockWithoutGuard(s1, n.ifBody.stmts);
    }
    var s2 := RunBlock(s1, n.ifBody.stmts).value;
    match n.elseBody
    case None =>
    case Some(Else(Plain(b))) =>
      BlockInDefaultMode(s2.(processDefaultCase := true), b.stmts);
    case Some(Else(ElseIf(c))) =>
      DefaultModeAfterChain(s2.(processDefaultCase := false), c, s');
  }

  // ---------------------------------------------------------------------------
  // The switch model a fresh analyzer builds for a chain.

  /** For a chain whose every guard is braced or binary, a fresh analyzer builds
      one switch case per branch, in source order, each with that branch's
      sends, and a default case with the terminal `else` block's sends. */
  lemma SwitchModelOfChain(n: IfElse)
    requires EveryGuardRegisters(n)
    ensures RunChain(Initial, n).Some?
    ensures Consistent(RunChain(Initial, n).value)
    ensures |ChainGuards(n)| == |ChainBuckets(n)| == Branches(n)
    ensures Properties(RunChain(Initial, n).value)
         == NodeProperties(Pairs(ChainGuards(n), ChainBuckets(n)), SwitchDefaultCase(ChainDefault(n)))
    ensures |Properties(RunChain(Initial, n).value).switchCases| == Branches(n)
  {
    ChainBucketsWhenEveryGuardRegisters(Initial, n);
    var s' := RunChain(Initial, n).value;
    ChainKeys(Initial, n, s');
    ChainDefaultList(Initial, n, s');
    GuardsAndBucketsLineUp(n);
    assert Initial.mapperKeys + ChainGuards(n) == ChainGuards(n);
    assert Initial.mapperValues + ChainBuckets(n) == ChainBuckets(n);
    assert Initial.defaultSwitchCaseNodes + ChainDefault(n) == ChainDefault(n);
    assert Properties(s') == NodeProperties(Pairs(s'.mapperKeys, s'.mapperValues), SwitchDefaultCase(s'.defaultSwitchCaseNodes));
  }

  /** Whatever the guards, a completed run of a fresh analyzer has no switch
      case exactly when no guard registered, and an empty default case exactly
      when the terminal `else` block (if any) sends nothing. */
  lemma EmptyResults(n: IfElse, s': State)
    requires RunChain(Initial, n) == Some(s')
    ensures Consistent(s')
    ensures Properties(s').switchCases == [] <==> !SomeGuardRegisters(n)
    ensures Properties(s').defaultSwitchCase.nodes == ChainDefault(n)
    ensures !EndsInElse(n) ==> Properties(s').defaultSwitchCase.nodes == []
  {
    ChainKeys(Initial, n, s');
    ChainDefaultList(Initial, n, s');
    NoGuardsExactlyWhenNoneRegisters(n);
    if !EndsInElse(n) {
      NoElseNoDefault(n);
    }
  }

  lemma {:induction false} NoElseNoDefault(n: IfElse)
    requires !EndsInElse(n)
    ensures ChainDefault(n) == []
    decreases n
  {
    match n.elseBody
    case Some(Else(ElseIf(c))) => NoElseNoDefault(c);
    case _ =>
  }
}

/** Worked chains. */
module SwitchExamples {
  import opened Syntax
  import opened NodeModel
  import opened SwitchSpec
  import opened SwitchReference

  /** `if (a) { send x } else if b { send y } else { send z }`, with `a` any
      expression inside parentheses and `b` a binary expression, yields the
      cases `[(a, [x]), (b, [y])]` and the default `[z]`. */
  lemma ThreeBranchChain(ta: string, ra: LineRange, a: Expr, tb: string, rb: LineRange, x: string, y: string, z: string)
    ensures var n := IfElse(Braced(ta, ra, a), Block([Send(x)]),
                      Some(Else(ElseIf(IfElse(Binary(tb, rb), Block([Send(y)]),
                        Some(Else(Plain(Block([Send(z)])))))))));
      && RunChain(Initial, n).Some?
      && Consistent(RunChain(Initial, n).value)
      && Properties(RunChain(Initial, n).value)
         == NodeProperties([SwitchCase(BalExpressionOf(a), [x]),
                            SwitchCase(BalExpression(tb, CodeLocation(rb.startLine, rb.endLine)), [y])],
                           SwitchDefaultCase([z]))
  {
    var n := IfElse(Braced(ta, ra, a), Block([Send(x)]),
               Some(Else(ElseIf(IfElse(Binary(tb, rb), Block([Send(y)]),
                 Some(Else(Plain(Block([Send(z)])))))))));
    SwitchModelOfChain(n);
    var inner := n.elseBody.value.elseBody.chain;
    assert ChainGuards(inner) == [BalExpression(tb, CodeLocation(rb.startLine, rb.endLine))];
    assert ChainGuards(n) == [BalExpressionOf(a)] + ChainGuards(inner);
    assert Sends([Send(x)]) == [x];
    assert Sends([Send(y)]) == [y];
    assert Sends([Send(z)]) == [z];
    assert ChainDefault(n) == ChainDefault(inner) == [z];
  }

  /** `if (a) {} else {}` yields the single case `(a, [])` and an empty default. */
  lemma EmptyBranches(t: string, r: LineRange, a: Expr)
    ensures var n := IfElse(Braced(t, r, a), Block([]), Some(Else(Plain(Block([])))));
      && RunChain(Initial, n).Some?
      && Consistent(RunChain(Initial, n).value)
      && Properties(RunChain(Initial, n).value)
         == NodeProperties([SwitchCase(BalExpressionOf(a), [])], SwitchDefaultCase([]))
  {
    var n := IfElse(Braced(t, r, a), Block([]), Some(Else(Plain(Block([])))));
    SwitchModelOfChain(n);
  }

  /** A chain entered with the flag already on, as a nested `if` inside a
      terminal `else` block would be: `if t { send x }` registers its guard
      with an empty list and sends `x` to the default list, although
      `ChainDefault` of the chain is empty. This is why the chain lemmas
      start outside default mode. */
  lemma EnteredInDefaultMode(s: State, t: string, r: LineRange, x: string)
    requires Consistent(s) && s.processDefaultCase
    ensures var n := IfElse(Binary(t, r), Block([Send(x)]), None);
      && ChainDefault(n) == []
      && RunChain(s, n) == Some(Register(s, Binary(t, r)).(defaultSwitchCaseNodes := s.defaultSwitchCaseNodes + [x]))
  {
    var n := IfElse(Binary(t, r), Block([Send(x)]), None);
    BlockInDefaultMode(Register(s, Binary(t, r)), [Send(x)]);
    assert Sends([Send(x)]) == [x];
  }

  /** A parenthesised binary guard registers the same key as the bare one:
      the braced node is unwrapped and its inner node is not visited again. */
  lemma BracedBinaryRegistersOnce(s: State, t: string, r: LineRange, e: Expr)
    requires e.Binary?
    ensures RunExpr(s, Braced(t, r, e)) == RunExpr(s, e)
    ensures |RunExpr(s, e).mapperKeys| == |s.mapperKeys| + 1
  {
  }
}
