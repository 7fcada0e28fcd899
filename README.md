# Switch analyzer model

A Dafny model of `SwitchAnalyzer`, the syntax-tree visitor of the Ballerina worker model
generator that reduces an `if` / `else if` / `else` chain to a switch node: an
insertion-ordered map from each branch's guard expression to the port ids that the sends in
that branch reach, plus a list for the terminal `else` block.

Files and modules:

- `syntax.dfy` — `Syntax`: the node kinds the analyzer reacts to. These are `IfElse`,
  `ElseBlock` (a plain block or an `else if`), `Block`, the expressions `Braced`, `Binary`
  and `OtherExpr` (each with its source text and line range), and the statements
  `Send(portId)` and `OtherStmt`.
- `properties.dfy` — `NodeModel`: the content of the output records (`BalExpression`,
  `CodeLocation`, `SwitchCase`, `SwitchDefaultCase`, `NodeProperties`).
- `switch_spec.dfy` — `SwitchSpec`: the analyzer's four fields as a `State` value and every
  callback as a function on it (`Register`, `AnalyzeSend`, `RunExpr`, `RunBlock`,
  `RunChain`, `RunElse`), plus `Pairs`/`Properties` for the read-out. The map is held as
  two parallel sequences, keys and lists, in insertion order. The current guard is the
  registration index of its key. A run yields `None` where the Java code would dereference
  the missing list of an unregistered guard.
- `switch_reference.dfy` — `SwitchReference`: what a chain should reduce to, defined on
  the chain's structure (`ChainGuards`, `ChainBuckets`, `ChainDefault`, `Sends`). The
  lemmas there prove that the analyzer's run produces it. `SwitchExamples` holds worked
  chains.
- `switch_analyzer.dfy` — `Analyzer`: the class `SwitchAnalyzer` with the four fields and
  one method per Java callback. Each method is proved against the functions of
  `SwitchSpec`.

Behaviour of the code that is easy to misread (the model follows it):

- Only the braced and binary visits register a guard (lines 88-96). The model registers
  nothing for any other guard. In the source, the base traversal may still reach a braced
  or binary sub-expression and register it. Sends in the body of a guard that registers
  nothing go to the previous guard's list, or fail when there is none
  (`SendBeforeAnyGuardFails`).
- `visit(ElseBlockNode)` (line 84) is the only place the flag is written, and nothing
  resets it when the terminal `else` block ends. Once default mode is set, the flag is on
  while the last guard is still current, so the two modes coexist. The flag decides where
  a send goes. In the model, which does not walk `if` statements nested inside a body,
  the flag therefore stays on to the end of the chain.
- A chain with no registered guard gives an empty case list, not an error (line 115 is a
  TODO). `EmptyResults` gives that case exactly.

## Model

| member | source | states |
|---|---|---|
| Analyzer.SwitchAnalyzer.constructor | worker-model-generator/modules/model-generator-core/src/main/java/io.ballerina.workermodelgenerator.core/analyzer/SwitchAnalyzer.java:55-61 | a fresh analyzer is not in default mode, has no current guard, no registered guard and an empty default list |
| Analyzer.SwitchAnalyzer.AnalyzeSendAction | worker-model-generator/modules/model-generator-core/src/main/java/io.ballerina.workermodelgenerator.core/analyzer/SwitchAnalyzer.java:63-72 | in default mode the port id is appended to the default list and every list of the map is unchanged; otherwise it is appended to the current guard's list only, repeats kept; requires a current guard outside default mode |
| Analyzer.SwitchAnalyzer.VisitIfElse | worker-model-generator/modules/model-generator-core/src/main/java/io.ballerina.workermodelgenerator.core/analyzer/SwitchAnalyzer.java:74-79 | the new state is the run of guard, then if-body, then else part (`RunChain`); keeps the state consistent |
| Analyzer.SwitchAnalyzer.VisitElse | worker-model-generator/modules/model-generator-core/src/main/java/io.ballerina.workermodelgenerator.core/analyzer/SwitchAnalyzer.java:81-86 | sets default mode exactly when the else body is a plain block, then visits the body (`RunElse`) |
| Analyzer.SwitchAnalyzer.VisitBraced | worker-model-generator/modules/model-generator-core/src/main/java/io.ballerina.workermodelgenerator.core/analyzer/SwitchAnalyzer.java:88-91 | registers the expression inside the parentheses (one level unwrapped) as one new key |
| Analyzer.SwitchAnalyzer.VisitBinary | worker-model-generator/modules/model-generator-core/src/main/java/io.ballerina.workermodelgenerator.core/analyzer/SwitchAnalyzer.java:93-96 | registers the binary expression itself as one new key |
| Analyzer.SwitchAnalyzer.VisitExpr | worker-model-generator/modules/model-generator-core/src/main/java/io.ballerina.workermodelgenerator.core/analyzer/SwitchAnalyzer.java:88-96 | a guard is dispatched to the braced or binary visit; any other expression leaves the state unchanged |
| Analyzer.SwitchAnalyzer.VisitBlock | worker-model-generator/modules/model-generator-core/src/main/java/io.ballerina.workermodelgenerator.core/analyzer/SwitchAnalyzer.java:77 | reports the block's sends in order; the new state is `RunBlock` of the old one |
| Analyzer.SwitchAnalyzer.AddDefaultSwitchCase | worker-model-generator/modules/model-generator-core/src/main/java/io.ballerina.workermodelgenerator.core/analyzer/SwitchAnalyzer.java:98-100 | appends to the default list; nothing else changes |
| Analyzer.SwitchAnalyzer.AddSwitchCase | worker-model-generator/modules/model-generator-core/src/main/java/io.ballerina.workermodelgenerator.core/analyzer/SwitchAnalyzer.java:102-105 | appends to the current guard's list only; requires a current guard, since the looked-up list is used unchecked |
| Analyzer.SwitchAnalyzer.InitializeExpressionMap | worker-model-generator/modules/model-generator-core/src/main/java/io.ballerina.workermodelgenerator.core/analyzer/SwitchAnalyzer.java:107-111 | one new key (source text and start/end line) with an empty list, appended last, becomes the current guard; flag and default list unchanged |
| Analyzer.SwitchAnalyzer.BuildProperties | worker-model-generator/modules/model-generator-core/src/main/java/io.ballerina.workermodelgenerator.core/analyzer/SwitchAnalyzer.java:113-126 | one switch case per registered key, in insertion order, each with its list, and the default list; modifies nothing |
| Analyzer.BuildPropertiesTwice | worker-model-generator/modules/model-generator-core/src/main/java/io.ballerina.workermodelgenerator.core/analyzer/SwitchAnalyzer.java:113-126 | two read-outs with nothing in between are equal |
| Analyzer.AnalyzeChain | worker-model-generator/modules/model-generator-core/src/main/java/io.ballerina.workermodelgenerator.core/analyzer/SwitchAnalyzer.java:55-126 | constructing, visiting a chain and building gives `Properties` of the chain's run from the initial state |
| SwitchSpec.Register | worker-model-generator/modules/model-generator-core/src/main/java/io.ballerina.workermodelgenerator.core/analyzer/SwitchAnalyzer.java:107-111 | registration keeps keys and lists aligned and the last key current |
| SwitchSpec.AnalyzeSend | worker-model-generator/modules/model-generator-core/src/main/java/io.ballerina.workermodelgenerator.core/analyzer/SwitchAnalyzer.java:63-72 | a send that succeeds keeps the state consistent |
| SwitchSpec.RunExpr | worker-model-generator/modules/model-generator-core/src/main/java/io.ballerina.workermodelgenerator.core/analyzer/SwitchAnalyzer.java:88-96 | visiting a guard keeps the state consistent |
| SwitchSpec.RunStmt | worker-model-generator/modules/model-generator-core/src/main/java/io.ballerina.workermodelgenerator.core/analyzer/SwitchAnalyzer.java:63-72 | a statement reached in a body keeps the state consistent when it succeeds |
| SwitchSpec.RunBlock | worker-model-generator/modules/model-generator-core/src/main/java/io.ballerina.workermodelgenerator.core/analyzer/SwitchAnalyzer.java:77 | a block run that succeeds keeps the state consistent |
| SwitchSpec.RunChain | worker-model-generator/modules/model-generator-core/src/main/java/io.ballerina.workermodelgenerator.core/analyzer/SwitchAnalyzer.java:74-79 | a chain run that succeeds keeps the state consistent |
| SwitchSpec.RunElse | worker-model-generator/modules/model-generator-core/src/main/java/io.ballerina.workermodelgenerator.core/analyzer/SwitchAnalyzer.java:81-86 | an else run that succeeds keeps the state consistent |
| SwitchSpec.Pairs | worker-model-generator/modules/model-generator-core/src/main/java/io.ballerina.workermodelgenerator.core/analyzer/SwitchAnalyzer.java:116-119 | the map's entries become switch cases one for one, in insertion order |
| SwitchReference.BlockInDefaultMode | worker-model-generator/modules/model-generator-core/src/main/java/io.ballerina.workermodelgenerator.core/analyzer/SwitchAnalyzer.java:67-69 | in default mode a block appends exactly its sends, in order, to the default list and changes nothing else |
| SwitchReference.BlockUnderGuard | worker-model-generator/modules/model-generator-core/src/main/java/io.ballerina.workermodelgenerator.core/analyzer/SwitchAnalyzer.java:102-105 | outside default mode with a current guard, a block appends exactly its sends to that guard's list and changes nothing else |
| SwitchReference.BlockWithoutGuard | worker-model-generator/modules/model-generator-core/src/main/java/io.ballerina.workermodelgenerator.core/analyzer/SwitchAnalyzer.java:102-105 | outside default mode with no guard yet, a block runs exactly when it sends nothing, and then changes nothing |
| SwitchReference.GuardRun | worker-model-generator/modules/model-generator-core/src/main/java/io.ballerina.workermodelgenerator.core/analyzer/SwitchAnalyzer.java:88-111 | a guard adds at most one key (the unwrapped braced one, the binary one, none otherwise) with an empty list, and leaves the flag and the default list alone |
| SwitchReference.BranchKeysAndDefault | worker-model-generator/modules/model-generator-core/src/main/java/io.ballerina.workermodelgenerator.core/analyzer/SwitchAnalyzer.java:76-77 | guard plus if-body adds the guard's keys, leaves the default list and the flag alone |
| SwitchReference.RegisteredBranch | worker-model-generator/modules/model-generator-core/src/main/java/io.ballerina.workermodelgenerator.core/analyzer/SwitchAnalyzer.java:76-77 | a registering guard plus its if-body adds one list holding exactly the body's sends |
| SwitchReference.ChainKeys | worker-model-generator/modules/model-generator-core/src/main/java/io.ballerina.workermodelgenerator.core/analyzer/SwitchAnalyzer.java:74-79 | any completed chain run adds exactly the chain's registering guards as keys, in source order |
| SwitchReference.ElseKeys | worker-model-generator/modules/model-generator-core/src/main/java/io.ballerina.workermodelgenerator.core/analyzer/SwitchAnalyzer.java:81-86 | a plain else block adds no key; an `else if` adds exactly its own chain's registering guards |
| SwitchReference.ChainDefaultList | worker-model-generator/modules/model-generator-core/src/main/java/io.ballerina.workermodelgenerator.core/analyzer/SwitchAnalyzer.java:74-79 | any completed chain run adds exactly the terminal else block's sends to the default list, nothing without one |
| SwitchReference.ElseDefaultList | worker-model-generator/modules/model-generator-core/src/main/java/io.ballerina.workermodelgenerator.core/analyzer/SwitchAnalyzer.java:81-86 | a plain else block adds exactly its sends to the default list; an `else if` adds what its own chain adds |
| SwitchReference.ChainBucketsWhenEveryGuardRegisters | worker-model-generator/modules/model-generator-core/src/main/java/io.ballerina.workermodelgenerator.core/analyzer/SwitchAnalyzer.java:74-111 | when every guard registers, the run is defined and adds one list per branch with exactly that branch's sends |
| SwitchReference.ChainDefinedOnceGuarded | worker-model-generator/modules/model-generator-core/src/main/java/io.ballerina.workermodelgenerator.core/analyzer/SwitchAnalyzer.java:102-105 | once a guard exists (before the chain or its first guard), no send misses its list |
| SwitchReference.SendBeforeAnyGuardFails | worker-model-generator/modules/model-generator-core/src/main/java/io.ballerina.workermodelgenerator.core/analyzer/SwitchAnalyzer.java:102-105 | a non-registering first guard with a send in its body makes a fresh analyzer's run fail |
| SwitchReference.GuardsAndBucketsLineUp | worker-model-generator/modules/model-generator-core/src/main/java/io.ballerina.workermodelgenerator.core/analyzer/SwitchAnalyzer.java:74-86 | for a chain whose every guard registers, guards, lists and branches are equal in number |
| SwitchReference.NoGuardsExactlyWhenNoneRegisters | worker-model-generator/modules/model-generator-core/src/main/java/io.ballerina.workermodelgenerator.core/analyzer/SwitchAnalyzer.java:88-96 | a chain contributes no key if and only if none of its guards registers |
| SwitchReference.DefaultModeAfterChain | worker-model-generator/modules/model-generator-core/src/main/java/io.ballerina.workermodelgenerator.core/analyzer/SwitchAnalyzer.java:81-86 | after a chain the flag is on exactly when the chain ends in a plain else block; nothing else sets or resets it |
| SwitchReference.SwitchModelOfChain | worker-model-generator/modules/model-generator-core/src/main/java/io.ballerina.workermodelgenerator.core/analyzer/SwitchAnalyzer.java:74-126 | for a chain of braced or binary guards, a fresh analyzer yields one case per branch in source order with that branch's sends, and the terminal else block's sends as default |
| SwitchReference.EmptyResults | worker-model-generator/modules/model-generator-core/src/main/java/io.ballerina.workermodelgenerator.core/analyzer/SwitchAnalyzer.java:115-124 | for any completed run: the case list is empty if and only if no guard registered; the default list is the terminal else block's sends, empty without one |
| SwitchReference.NoElseNoDefault | worker-model-generator/modules/model-generator-core/src/main/java/io.ballerina.workermodelgenerator.core/analyzer/SwitchAnalyzer.java:81-86 | a chain without a terminal else block contributes nothing to the default list |
| SwitchExamples.ThreeBranchChain | worker-model-generator/modules/model-generator-core/src/main/java/io.ballerina.workermodelgenerator.core/analyzer/SwitchAnalyzer.java:74-86 | `if (a) {send x} else if b {send y} else {send z}` yields cases `[(a,[x]), (b,[y])]` and default `[z]` |
| SwitchExamples.EmptyBranches | worker-model-generator/modules/model-generator-core/src/main/java/io.ballerina.workermodelgenerator.core/analyzer/SwitchAnalyzer.java:74-124 | `if (a) {} else {}` yields the case `(a, [])` and an empty default |
| SwitchExamples.BracedBinaryRegistersOnce | worker-model-generator/modules/model-generator-core/src/main/java/io.ballerina.workermodelgenerator.core/analyzer/SwitchAnalyzer.java:88-96 | a parenthesised binary guard registers the same single key as the bare one |
| SwitchExamples.EnteredInDefaultMode | worker-model-generator/modules/model-generator-core/src/main/java/io.ballerina.workermodelgenerator.core/analyzer/SwitchAnalyzer.java:63-79 | a chain entered with the flag on, as a nested `if` in a terminal `else` block would be, registers its guard with an empty list and sends its body to the default list, while `ChainDefault` is empty |

## Left out

- The base `Analyzer` class is not part of this model. This covers `super.analyzeSendAction`
  and `getPortId()`: a send carries its already-resolved port id.
- The generic traversal of the base visitor is not modelled. Only a guard's own top-level
  node is dispatched to the braced and binary visits. A block is a flat sequence of sends
  and other statements. Sends nested in compound statements, if statements nested inside a
  body, and sub-expressions of "other" guards are not traversed.
- Nested `if` statements inside a branch body are not visited. If the base traversal
  reaches one, it goes through `visit(IfElseStatementNode)` and `visit(ElseBlockNode)`
  (lines 74-86) like the outer chain. Its guards register as keys, and the current guard
  moves to them. Its else part sets or clears the flag for the rest of the enclosing body.
  For example, in `if (a) {} else { if (b) {} else if (c) {} x -> w; }` the inner
  `else if` clears the flag, so `x` goes to `c`'s list rather than to the default list. A
  nested chain can also be entered with the flag already on, as
  `if (a) {} else { if (b) { x -> w; } }` does. The model does not capture either
  effect.
- Braced or binary expressions inside body statements are not visited. Examples are
  `int y = x + 1;` and the message expression of a send. If the base traversal reaches one,
  the source's overrides at lines 88-96 register it as a new key. That key becomes the
  current guard, and the branch's later sends go into its list. The model's `OtherStmt`
  and `Send` register nothing, so the model does not capture this change to the switch
  cases.
- The constructor's collaborators are not modelled: the node builder, semantic model, module
  part node and endpoint map are only handed to the base class.
- `BalExpression`'s equality and hashing are not shown. Map keys are told apart by
  registration index, and every registration is a fresh key.
- `buildProperties` hands the live lists to the switch cases. The model copies values, so
  aliasing between the output and later updates is not captured. The analyzer is read out
  once, at the end.
- The `NullPointerException` of `addSwitchCase` when no guard is current is not raised. The
  spec functions return `None`, and the methods require the run to be defined.
- SwitchReference.ChainKeys: stated for runs that start outside default mode. That is the
  only way the model enters a chain: from a fresh analyzer, or after an `else if` cleared
  the flag. In the source, a nested `if` reached inside a terminal `else` block is entered
  with the flag on (see the nested `if` line above), and this lemma does not cover it.
- SwitchReference.ChainDefaultList: stated for runs that start outside default mode, for
  the same reason.
- SwitchReference.ChainBucketsWhenEveryGuardRegisters: stated for runs that start outside
  default mode, for the same reason.
- SwitchReference.ChainDefinedOnceGuarded: stated for runs that start outside default mode,
  for the same reason.
- SwitchReference.DefaultModeAfterChain: stated for runs that start outside default mode,
  for the same reason.
- SwitchReference.SwitchModelOfChain: stated for chains whose every guard is braced or
  binary. For other chains, `ChainKeys`, `ChainDefaultList` and `EmptyResults` give the keys and the
  default list, but not the lists of the map.
- Building the `NodeProperties` through its builder, serialisation and rendering are left
  out. Only the content is modelled.
