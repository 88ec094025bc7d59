# Silica control-flow graph, modelled in Dafny

Silica compiles a Python generator function that describes a finite-state
machine into hardware. The function declares its registers, then runs one
`while True:` loop. Every `yield` in the loop is a point where the machine
waits for the next clock cycle. This project models the part of Silica that
turns such a function into the FSM's states:

- **Building the control-flow graph** (`ControlFlowGraph.build`). A Head
  node and a first BasicBlock are created, and the register declarations
  are read. The final loop is then processed statement by statement
  (`process_stmt`, `add_new_block`, `add_new_yield`, `add_new_branch` and
  the edge helpers `add_edge`, `add_true_edge` and `add_false_edge`).
- **Simplifying the graph.** Empty BasicBlocks are removed
  (`consolidate_empty_blocks`), and so are `if True` branches
  (`remove_if_trues`). Both use `remove_block`, which splices a node out
  and reconnects its predecessors to its successors.
- **Bypassing conditions** (`bypass_conds`). A BasicBlock followed by a
  Branch whose condition evaluates under the block's own constant
  assignments (`collect_constant_assigns`) is sent straight to the arm
  that condition picks.
- **Paths between yields** (`find_paths`, `collect_paths_between_yields`).
  These are all paths from the Head or a Yield to the next Yield.
- **Per-path dataflow.** `promote_live_variables` substitutes each
  assignment into the later statements and conditions of its path.
  `append_state_info` turns each path into a `State`: a `yield_state` test,
  the branch guards, and the statements to run. It also collects the
  persistent state variables.
- **The `yield from range(N)` desugaring**
  (`silica/transformations/desugar_yield_from_range.py`). Each such
  statement becomes a `for` loop over a fresh loop variable, whose bit
  width is recorded.

Three details of the code that the model keeps:

- `__init__` never adds the registers in `local_vars` to `state_vars`.
  That set holds `yield_state` and every name of each branch guard that
  mentions a name which is not a port.
- A loop variable's width is the bit length of the last argument of the
  `range` call (4 bits for `range(8)`, 3 for `range(4)`).
- The loop-variable counter is a class attribute that is never reset, so
  later passes continue the numbering of earlier ones.

How the model represents the source:

- **Nodes live in an arena.** The graph is a sequence of `Node` values,
  `nodes`. A node's index stands for the Python object's identity. Each
  node holds its kind (Head, BasicBlock, Branch with its `true_edge` and
  `false_edge`, or Yield with its id) and its outgoing and incoming edge
  sets.
- **Edge sets are sequences with set semantics.** An insert adds an edge
  only when it is absent.
- **`self.blocks` is a sequence of indices into `nodes`.**
- **Python exceptions are values.** Every operation that can raise
  returns a `Result` or an `Outcome`, carrying the exception the source
  raises (`AssertionError`, `IndexError`, `KeyError`, ...).
- **Copies are values.** The `deepcopy` that `find_paths` makes of every
  node on a path becomes a `PathNode` value. It records the node's index,
  its kind, and which arm a Branch copy took to reach the next element.
- **Python's recursion limit becomes fuel.** `find_paths` takes a `fuel`
  argument, and running out gives `RecursionError`.

Each stateful operation is a method of the class
`Cfg.ControlFlowGraph` or `Desugar.YieldFromRangeDesugarer`. Each method
is proved equal to a function on values (`Step`, `Splice`, `Sweep`,
`BypassAll`, `PathsBetween`, `PromotePaths`, `AppendStates`,
`DesugarStmts`). What the source promises is then proved about those
functions as lemmas.

The invariant the graph builder keeps is `Construction.Built`:

- node 0 is the only Head;
- the current block is a BasicBlock;
- the Yield ids met in creation order are exactly 1, 2, ..., `yid - 1`;
- the graph is `Graph.WellFormed`:
  - every edge names a node;
  - outgoing and incoming sets are paired;
  - a Branch's `"T"`/`"F"` edges agree with its `true_edge`/`false_edge`;
  - each Yield is followed by exactly one fresh BasicBlock.

## Model

| member | source | states |
|---|---|---|
| Graph.AddEdge | silica/cfg/control_flow_graph.py:35-40 | only `source`'s outgoing set and `sink`'s incoming set change, each gaining exactly the labelled edge (no duplicate when already present); every kind is untouched |
| Graph.AddTrueEdge | silica/cfg/control_flow_graph.py:43-51 | on a Branch source: the `"T"` edge is added on both sides and `true_edge` is set to the sink; nothing else changes |
| Graph.AddFalseEdge | silica/cfg/control_flow_graph.py:54-62 | on a Branch source: the `"F"` edge is added on both sides and `false_edge` is set to the sink; nothing else changes |
| Graph.AddPlainEdgeKeepsWellFormed | silica/cfg/control_flow_graph.py:35-40 | an unlabelled edge out of a BasicBlock, to a node that is not the block after a Yield, keeps the graph well formed (closed, paired, arms labelled, yields followed) |
| Graph.AddTrueEdgeKeepsWellFormed | silica/cfg/control_flow_graph.py:43-51 | setting a Branch's unset true arm keeps the graph well formed |
| Graph.AddFalseEdgeKeepsWellFormed | silica/cfg/control_flow_graph.py:54-62 | setting a Branch's unset false arm keeps the graph well formed |
| Graph.AppendKeepsWellFormed | silica/cfg/control_flow_graph.py:162-169 | appending a fresh BasicBlock (or an armless Branch) with no edges keeps the graph well formed |
| Graph.NewYieldShape | silica/cfg/control_flow_graph.py:182-198 | `add_new_yield` adds exactly two nodes: a Yield with the current id fed by the current block, and an empty BasicBlock fed only by that Yield; every other node is unchanged |
| Graph.NewYieldKeepsWellFormed | silica/cfg/control_flow_graph.py:182-198 | `add_new_yield` from a BasicBlock keeps the graph well formed |
| Graph.NewBranchShape | silica/cfg/control_flow_graph.py:200-222 | `add_new_branch` adds a Branch on the condition, fed by the current block, whose `"T"` arm is a fresh empty block and whose false arm is unset; every other node is unchanged |
| Graph.NewBranchKeepsWellFormed | silica/cfg/control_flow_graph.py:200-222 | `add_new_branch` from a BasicBlock keeps the graph well formed |
| Graph.SetStatementsKeepsWellFormed | silica/cfg/control_flow_graph.py:260-264 | appending a statement to the current block keeps the graph well formed |
| Build.Start | silica/cfg/control_flow_graph.py:100-103 | the initial graph (Head linked to a fresh current block) satisfies the builder invariant with next Yield id 1 |
| Build.Declaration | silica/cfg/control_flow_graph.py:105-111 | a preamble statement is accepted only as `name = Register(n, ...)` with a single plain-name target, and then yields `(name, n)` |
| Build.DeclarationsOk | silica/cfg/control_flow_graph.py:104-111 | the preamble is accepted iff every statement is a declaration, and `local_vars` then holds exactly their pairs |
| Build.DeclarationsError | silica/cfg/control_flow_graph.py:105-111 | the first bad preamble statement's exception is the one raised |
| Build.BuildGraphEmpty | silica/cfg/control_flow_graph.py:104-112 | `build` on an empty body raises IndexError (`func_def.body[-1]`) |
| Build.BuildGraphBadDeclaration | silica/cfg/control_flow_graph.py:104-111 | `build` raises the exception of the first preamble statement that is not a `Register` declaration (NotImplementedError, or the AssertionError, IndexError or AttributeError of a malformed one) |
| Build.BuildGraphNotLoop | silica/cfg/control_flow_graph.py:112 | when the whole preamble is declarations but the last statement is not a `while`, `build` raises AssertionError |
| Build.BuildGraphShape | silica/cfg/control_flow_graph.py:104-113 | `build` succeeds only on a non-empty body of declarations followed by a `while` |
| Build.GrowBuilt | silica/cfg/control_flow_graph.py:98-113 | after `process_stmt` of the final loop the builder invariant holds, every Branch has both arms, and one Yield id was used per `yield` in the loop |
| Build.BuildKeeps | silica/cfg/control_flow_graph.py:114-115 | after the two clean-up passes, a node is still in `self.blocks` iff it is neither an empty BasicBlock nor an `if True` Branch |
| Build.BuildClean | silica/cfg/control_flow_graph.py:114-115 | no node left in `self.blocks` is an empty BasicBlock or an `if True` Branch |
| Build.BuildPaired | silica/cfg/control_flow_graph.py:98-115 | after `build`, `self.blocks` holds distinct nodes, and every edge of a node in it leads to a node in it and is recorded at both ends |
| Build.BuildOrdered | silica/cfg/control_flow_graph.py:114-115 | the clean-up passes keep `self.blocks` in creation order |
| Process.StepBuilt | silica/cfg/control_flow_graph.py:224-264 | `process_stmt` keeps the builder invariant, leaves every Branch it creates with both arms, uses one Yield id per `yield`, and a statement that opens nodes links the old current block to the first new node |
| Process.StepsBuilt | silica/cfg/control_flow_graph.py:229-230 | processing a statement list keeps the builder invariant and uses one Yield id per `yield` in it |
| Process.StepFrame | silica/cfg/control_flow_graph.py:224-264 | `process_stmt` only appends nodes and touches no old node but the current block, which keeps its incoming edges |
| Process.WhileWired | silica/cfg/control_flow_graph.py:227-238 | after a `while`: the Branch's `"T"` arm is the body's first block, its `"F"` arm is the fresh exit block (now current, fed only by that arm), and the body's last block loops back to the Branch |
| Process.IfBuilt | silica/cfg/control_flow_graph.py:239-252 | after an `if`: without `else`, the `"F"` arm goes straight to the fresh join block, which the body's end also feeds; with `else`, the `"F"` arm starts the else part and both arms' ends feed the join block |
| Construction.WhileDone | silica/cfg/control_flow_graph.py:231-238 | closing a loop body (edge back to the Branch, fresh exit block as the `"F"` arm) keeps the builder invariant and wires the loop |
| Construction.IfDone | silica/cfg/control_flow_graph.py:240-252 | joining an `if` without `else` keeps the builder invariant and wires the join |
| Construction.IfElseDone | silica/cfg/control_flow_graph.py:240-250 | joining both arms of an `if ... else` keeps the builder invariant and wires the join |
| Simplify.SpliceOutgoing | silica/cfg/control_flow_graph.py:266-290 | after `remove_block(b)`, an edge leaves node `i` iff it left before and did not go to `b`, or `i` was a source of `b` and the edge, with the source's label, goes to a sink of `b` |
| Simplify.SpliceIncoming | silica/cfg/control_flow_graph.py:266-290 | after `remove_block(b)`, an edge enters node `j` iff it entered before and did not come from `b`, or it came into `b` and `j` is a sink of `b` |
| Simplify.SpliceKinds | silica/cfg/control_flow_graph.py:276-285 | a Branch source of `b` with a single sink has the arm(s) that named `b` moved to that sink; every other kind is unchanged |
| Simplify.SpliceDetaches | silica/cfg/control_flow_graph.py:266-274 | when `b` is one of a set of blocks paired among themselves, after the removal no other block of that set has an edge to or from `b`, and `b` keeps its kind and its own edge sets |
| Simplify.SpliceKeepsRemoved | silica/cfg/control_flow_graph.py:266-290 | `remove_block(b)` leaves `b`'s own kind and edge sets as they were: the loops change only its neighbours |
| Simplify.SpliceOutcome | silica/cfg/control_flow_graph.py:266-290 | when `b` is one of a set of blocks paired among themselves, its edge lists hold no duplicates and it has no self-edge, `remove_block` fails iff some Branch source of `b` either reaches it by an unlabelled edge while `b` has one sink, or faces two or more sinks of `b`; the error is then AssertionError |
| Simplify.PairedEverywhere | silica/cfg/control_flow_graph.py:35-41 | a graph whose edge sets are paired everywhere is paired on the set of all its nodes |
| Simplify.SplicePaired | silica/cfg/control_flow_graph.py:266-290 | if the blocks of a set containing `b` are paired among themselves, then after `remove_block(b)` the rest of the set still is: every edge of a remaining block leads to a remaining block and is recorded at both ends |
| Simplify.SpliceUnpairs | silica/cfg/control_flow_graph.py:266-274 | removing a block that has a sink from a graph paired everywhere leaves it not paired everywhere, because the removed block keeps its edges while its sinks forget it |
| Simplify.SpliceClosed | silica/cfg/control_flow_graph.py:266-290 | the removal keeps every edge and arm inside the graph |
| Simplify.DropFromSourcesOk | silica/cfg/control_flow_graph.py:271-272 | the first loop raises no KeyError when every source really has the edge into `b` |
| Simplify.DropFromSinksOk | silica/cfg/control_flow_graph.py:273-274 | the second loop raises no KeyError when every sink really has the edge from `b` |
| Simplify.RelinkFails | silica/cfg/control_flow_graph.py:275-290 | the third loop fails, with AssertionError, iff some source is a Branch that cannot take the sinks as its arm |
| Simplify.SweepKeeps | silica/cfg/control_flow_graph.py:292-315 | `consolidate_empty_blocks` / `remove_if_trues` leave `self.blocks` as exactly the listed nodes that are not doomed, in order; no node changes from doomed to not doomed or back |
| Simplify.KeptMembers | silica/cfg/control_flow_graph.py:296-302 | a node is kept iff it was listed and is not doomed |
| Simplify.SweepPaired | silica/cfg/control_flow_graph.py:292-315 | if the listed blocks are distinct and paired among themselves, then before each step of a pass the blocks kept so far and those not yet visited are paired, so every block a pass removes meets the pairing condition of `SpliceOutcome` and `SpliceDetaches` |
| Simplify.SweepKeepsPaired | silica/cfg/control_flow_graph.py:292-315 | a completed pass leaves its new `self.blocks` distinct and paired among themselves |
| Simplify.KeptDistinct | silica/cfg/control_flow_graph.py:296-302 | a pass keeps each listed block at most once |
| Simplify.SweepFails | silica/cfg/control_flow_graph.py:297-299 | the first failing removal ends the pass with its exception |
| Bypass.FollowsBranch | silica/cfg/control_flow_graph.py:348-352 | the filter raises IndexError exactly on a BasicBlock without outgoing edges, and selects exactly BasicBlocks whose first successor is a Branch |
| Bypass.FollowedByBranchesFails | silica/cfg/control_flow_graph.py:348-352 | the filter fails, with IndexError, iff some listed BasicBlock has no outgoing edge |
| Bypass.FollowedByBranchesMembers | silica/cfg/control_flow_graph.py:348-352 | a node is selected iff it is listed and is a BasicBlock followed by a Branch |
| Bypass.Decide | silica/cfg/control_flow_graph.py:147-159 | a block is redirected only when it is followed by a Branch, and only to one of that Branch's arms |
| Bypass.Redirect | silica/cfg/control_flow_graph.py:155-157 | the block's outgoing set becomes the single unlabelled edge to the chosen arm; no kind or incoming set changes, and no other node changes |
| Bypass.BypassOutgoing | silica/cfg/control_flow_graph.py:141-159 | `bypass_conds` succeeds iff no decision raises, and then each listed block whose decision is an arm has exactly the edge to that arm while every other outgoing set is unchanged |
| Bypass.BypassKeeps | silica/cfg/control_flow_graph.py:141-159 | `bypass_conds` changes no node kind and no incoming edge set |
| Bypass.BypassBlock | silica/cfg/control_flow_graph.py:147-159 | for a block followed by a Branch: an unbound name leaves it alone, a nonzero value sends it to `true_edge`, and zero sends it to `false_edge` |
| Bypass.DecideTrue | silica/cfg/control_flow_graph.py:141-146 | a block followed by an `if True` Branch, whose constants can be collected, is sent to its true arm, unless that arm is unset |
| Bypass.DecideSuccessor | silica/cfg/control_flow_graph.py:149-157 | when the arms of the Branch that follows `b` match its labelled edges, the chosen target is a `"T"` or `"F"` successor of that Branch |
| Bypass.BypassAllFails | silica/cfg/control_flow_graph.py:147-159 | the first exception ends `bypass_conds` |
| Dataflow.ConstantAssignsLast | silica/cfg/control_flow_graph.py:399-410 | a name has a constant iff some statement assigns it a number, and its value is the last number assigned to it |
| Dataflow.ConstantAssignsFails | silica/cfg/control_flow_graph.py:399-410 | the collection fails, with AttributeError, iff some single-target number assignment has a target that is not a plain name |
| Paths.FindPathsWalk | silica/cfg/control_flow_graph.py:118-132 | every path `find_paths(i)` returns starts at node `i` and is a walk through the graph: each copy has its original's kind and leads to the next (a Branch copy through the arm it records), and only the last is a Yield |
| Paths.FindPathsComplete | silica/cfg/control_flow_graph.py:118-132 | conversely, every walk from node `i` to the next Yield is among the paths `find_paths(i)` returns |
| Paths.FindPathsExact | silica/cfg/control_flow_graph.py:118-132 | a path is returned by `find_paths(i)` iff it is a walk from node `i` to the next Yield |
| Paths.WalkEnds | silica/cfg/control_flow_graph.py:118-122 | a walk ends at a Yield and meets no Yield before it |
| Paths.TrueArmFirst | silica/cfg/control_flow_graph.py:123-130 | from a Branch, each path's first copy records the `"T"` or `"F"` arm, and all true-arm paths come before all false-arm paths |
| Paths.PathsBetweenYields | silica/cfg/control_flow_graph.py:134-139 | every collected path starts at a listed Head or Yield, then follows a walk from that node's first successor to the next Yield |
| Paths.PathsBetweenComplete | silica/cfg/control_flow_graph.py:134-139 | conversely, every path from a listed Head or Yield through its first successor to the next Yield is collected |
| Paths.PathsBetweenExact | silica/cfg/control_flow_graph.py:134-139 | a path is collected iff it runs from a listed Head or Yield through its first successor to the next Yield |
| Paths.PathsBetweenFramed | silica/cfg/control_flow_graph.py:134-139 | every collected path starts with a Head or Yield and ends with a Yield |
| States.PromoteStatementsBinds | silica/cfg/control_flow_graph.py:419-426 | after a block, the symbol table binds exactly the names bound before plus those the block assigns with a single plain-name target |
| States.PromoteStatementsLast | silica/cfg/control_flow_graph.py:419-426 | a name the block assigns is bound to the promoted value of its last assignment in the block |
| States.PromoteStatementsKeeps | silica/cfg/control_flow_graph.py:419-426 | a name the block never assigns keeps its binding |
| States.PromoteNodesTable | silica/cfg/control_flow_graph.py:413-431 | along a path, the table binds exactly the entry bindings plus the names some BasicBlock of the path assigns; conditions never bind |
| States.PromoteTableBefore | silica/cfg/control_flow_graph.py:414-416 | the table starts empty on each path, so the names in scope at node `k` are exactly those assigned by BasicBlocks before it |
| States.PromotePathsShape | silica/cfg/control_flow_graph.py:413-431 | promotion keeps every path's length, each node's origin, arm and form, and the Head/Yield frame |
| States.PromoteLiveVariables | silica/cfg/control_flow_graph.py:413-431 | the loop over the paths computes `PromotePaths` (each path promoted from an empty table) |
| States.GuardsInOrder | silica/cfg/control_flow_graph.py:450-456 | one guard per Branch copy, in path order, negated (`~cond`) exactly when the path leaves through the false arm |
| States.StateVarsMembers | silica/cfg/control_flow_graph.py:462-470 | `state_vars` holds `yield_state` and every name of a guard that mentions some name that is neither an input nor an output |
| States.CollectStateVars | silica/cfg/control_flow_graph.py:462-470 | the nested loops compute exactly that set |
| States.StatementTarget | silica/cfg/control_flow_graph.py:476-484 | a statement is accepted iff it is an assignment with a target, an augmented assignment or a shift expression (`is_shift_expr`, lines 433-436); otherwise it raises IndexError for a target-less assignment and NotImplementedError for anything else |
| States.CheckPathsAll | silica/cfg/control_flow_graph.py:471-487 | the statement loop succeeds iff every BasicBlock statement of every path is accepted |
| States.AppendStatesInfo | silica/cfg/control_flow_graph.py:438-488 | each state tests the path's starting yield (0 for the Head), lists the guards in path order, and runs `yield_state = <end Yield's id>` followed by every statement of the path in order; `state_vars` is as above; the call fails, with IndexError or NotImplementedError, iff some statement is not accepted |
| States.AppendStateInfo | silica/cfg/control_flow_graph.py:438-488 | the three loops compute exactly `AppendStates` |
| States.NewState | silica/cfg/control_flow_graph.py:439-461 | the first loop builds the state with the yield test, the guards of nodes `1..` and the `yield_state` assignment |
| States.AddStatements | silica/cfg/control_flow_graph.py:471-487 | the third loop fails with the first bad statement's exception, and otherwise appends every BasicBlock statement of each path to its state in order |
| Cfg.CompileParts | silica/cfg/control_flow_graph.py:74-93 | a successful `__init__` builds the graph and bypasses its conditions without error, and its paths are exactly what `collect_paths_between_yields` returns on the bypassed graph and the built `self.blocks`; the result is `append_state_info` of those paths promoted, all framed |
| Cfg.CompileStateVars | silica/cfg/control_flow_graph.py:91-93 | `self.state_vars` is exactly `yield_state` plus every name of each guard that mentions a non-port name, ports included |
| Cfg.CompileStates | silica/cfg/control_flow_graph.py:91-93 | every path of `self.paths` is framed, and its state's first statement sets `yield_state` to the id of the Yield it ends at |
| Cfg.ControlFlowGraph.Init | silica/cfg/control_flow_graph.py:74-93 | `__init__` succeeds iff `Compile` does, raises its exception otherwise, and sets `paths` and `state_vars` to its result; `local_vars` then holds the declared registers, `blocks` the nodes `build` kept, and the nodes are the built graph with `bypass_conds` applied |
| Cfg.ControlFlowGraph.Build | silica/cfg/control_flow_graph.py:98-115 | `build` computes `BuildGraph` (nodes and `self.blocks`) and sets `local_vars` to the declared registers |
| Cfg.ControlFlowGraph.Begin | silica/cfg/control_flow_graph.py:100-103 | the Head and the first block are created and linked, and the builder invariant holds |
| Cfg.ControlFlowGraph.DeclareRegisters | silica/cfg/control_flow_graph.py:104-111 | the preamble loop computes `Declarations` and fails with its exception |
| Cfg.ControlFlowGraph.CleanUpBlocks | silica/cfg/control_flow_graph.py:114-115 | the two clean-up passes in turn |
| Cfg.ControlFlowGraph.GenNewBlock | silica/cfg/control_flow_graph.py:162-169 | a fresh empty BasicBlock is appended to the nodes and to `self.blocks`, and its index returned |
| Cfg.ControlFlowGraph.AddNewBlock | silica/cfg/control_flow_graph.py:171-180 | a fresh block becomes current and is linked from the old current block |
| Cfg.ControlFlowGraph.AddNewYield | silica/cfg/control_flow_graph.py:182-198 | the graph becomes `WithNewYield` (see `Graph.NewYieldShape`), the block after the Yield is current, and the Yield id counter advances by one |
| Cfg.ControlFlowGraph.AddNewBranch | silica/cfg/control_flow_graph.py:200-222 | the graph becomes `WithNewBranch` (see `Graph.NewBranchShape`), the true-arm block is current, and the Branch's index is returned |
| Cfg.ControlFlowGraph.ProcessStmt | silica/cfg/control_flow_graph.py:224-264 | the method keeps the builder invariant and computes `Process.Step` |
| Cfg.ControlFlowGraph.ProcessWhile | silica/cfg/control_flow_graph.py:227-238 | the method computes the `while` case of `Process.Step` |
| Cfg.ControlFlowGraph.ProcessIf | silica/cfg/control_flow_graph.py:239-252 | the method computes the `if` case of `Process.Step` |
| Cfg.ControlFlowGraph.ProcessBody | silica/cfg/control_flow_graph.py:229-230 | the `for sub_stmt in ...` loop computes `Process.Steps` |
| Cfg.ControlFlowGraph.RemoveBlock | silica/cfg/control_flow_graph.py:266-290 | the three loops compute `Simplify.Splice` and fail with its exception |
| Cfg.ControlFlowGraph.ConsolidateEmptyBlocks | silica/cfg/control_flow_graph.py:292-302 | the method computes the `Sweep` of empty BasicBlocks |
| Cfg.ControlFlowGraph.RemoveIfTrues | silica/cfg/control_flow_graph.py:304-315 | the method computes the `Sweep` of `if True` Branches |
| Cfg.ControlFlowGraph.BypassConds | silica/cfg/control_flow_graph.py:141-159 | the loop computes `Bypass.BypassAll` over `self.blocks`; `self.blocks` is unchanged |
| Cfg.ControlFlowGraph.CollectPathsBetweenYields | silica/cfg/control_flow_graph.py:134-139 | the loop computes `Paths.PathsBetween` |
| Desugar.RangeWidth | silica/transformations/desugar_yield_from_range.py:17-18 | the assertion fails iff the argument is not a call, or is a call of a name other than `range`; the width is defined iff it is `range(...)` with a number as its last argument, and is then that number's bit length |
| Desugar.BitLengthBounds | silica/transformations/desugar_yield_from_range.py:18 | the bit length of `n > 0` is the `w` with `2^(w-1) <= n < 2^w`, and 0 only for 0 |
| Desugar.DecimalRoundTrip | silica/transformations/desugar_yield_from_range.py:10 | the decimal rendering of the counter parses back to the counter |
| Desugar.LoopVarNameInjective | silica/transformations/desugar_yield_from_range.py:8-12 | distinct counter values give distinct loop variable names |
| Desugar.DesugarStmtChecks | silica/transformations/desugar_yield_from_range.py:7-24 | visiting a statement succeeds iff every `yield from` in it has a good `range` call |
| Desugar.DesugarStmtsChecks | silica/transformations/desugar_yield_from_range.py:7-29 | the same for a statement list, visited in order |
| Desugar.DesugarStmtNumbered | silica/transformations/desugar_yield_from_range.py:7-24 | the loop variables a successful visit records are `____x<next>`, `____x<next+1>`, ... in order, as `unique_id` is raised before each use |
| Desugar.DesugarStmtsNumbered | silica/transformations/desugar_yield_from_range.py:7-29 | the same for a statement list |
| Desugar.DesugarStmtRewrites | silica/transformations/desugar_yield_from_range.py:14-24 | a successful visit records one loop variable per `yield from`, replaces the `k`-th one in visiting order by `for <k-th recorded name> in <the same call>: yield`, records with that name the bit length of the call's last argument, and keeps everything else |
| Desugar.DesugarStmtsRewrites | silica/transformations/desugar_yield_from_range.py:14-29 | the same for a statement list, each statement's rewrites following those of the statements before it |
| Desugar.DesugarStmtSpec | silica/transformations/desugar_yield_from_range.py:7-24 | visiting a statement succeeds iff every `yield from` in it has a good `range` call; the `k`-th one in visiting order then becomes `for ____x<next+k> in <the call>: yield`, `(____x<next+k>, width of that call)` is the `k`-th recorded pair, and everything else is kept |
| Desugar.DesugarStmtsSpec | silica/transformations/desugar_yield_from_range.py:7-29 | the same for a statement list, visited in order |
| Desugar.NumberedDistinct | silica/transformations/desugar_yield_from_range.py:7-12 | consecutively numbered loop variables have pairwise distinct names |
| Desugar.YieldFromRangeDesugarer.GenLoopvar | silica/transformations/desugar_yield_from_range.py:8-12 | the shared counter advances by one, and the name `____x<counter>` is returned and recorded with the width |
| Desugar.YieldFromRangeDesugarer.VisitExpr | silica/transformations/desugar_yield_from_range.py:14-24 | the method computes `DesugarStmt` on an expression statement; a `yield from` records exactly one pair of the new name and the bit length of the last `range` argument |
| Desugar.YieldFromRangeDesugarer.VisitStmt | silica/transformations/desugar_yield_from_range.py:14-24 | the method computes `DesugarStmt`, advances the counter by the number of rewrites and records their loop variables |
| Desugar.YieldFromRangeDesugarer.VisitStmts | silica/transformations/desugar_yield_from_range.py:14-24 | the same for a statement list |
| Desugar.DesugarYieldFromRange | silica/transformations/desugar_yield_from_range.py:26-29 | the method returns the rewritten function and the set of recorded loop variables, or the first exception |

## Left out

- `parse_arguments` (lines 16-32) evaluates each port annotation with
  `eval` against `magma`. The model takes the input and output name sets
  as parameters of `Compile` and `Init`.
- `render` and `render_paths_between_yields` draw graphs with graphviz
  and are not modelled. The `RecursionError` handler in `__init__` only
  calls `render` before re-raising. It becomes `Err(RecursionError)`.
- Python's recursion limit is modelled as the `fuel` argument of
  `FindPaths`. The model does not fix its value.
- `replace_symbols`, `constant_fold`, `specialize_constants`,
  `collect_names`, `astor.to_source` and `eval` are outside the two core
  files. Module `Transforms` gives them small stand-ins over the `PyAst`
  expressions. No property of those stand-ins is claimed beyond what the
  lemmas above use: they keep a statement's form and targets.
- silica/cfg/types.py is not part of this model. Its node classes become
  the `Graph.Kind` datatype. Their edge sets become insertion-ordered
  sequences. Where the source iterates a Python set, the model uses that
  insertion order, while Python's own order is unspecified.
- `outgoing_edge[0]`, which `find_paths` and
  `collect_paths_between_yields` read, is taken to be the first edge in
  a node's outgoing sequence. What the accessor in silica/cfg/types.py
  returns is assumed, not modelled.
- Simplify.Splice: a block with an edge to itself gives `Unmodelled`,
  where Python completes. In `remove_block` (lines 266-290), the first
  loop drops the self-edge from the block's own outgoing set. In the
  third loop the block is one of its own sources: a BasicBlock re-adds
  edges it already has, and a Branch adds an edge to its sink while its
  incoming set is iterated. That sink keeps a stale incoming entry from
  the removed block. An inner `while True:` whose body is only a
  docstring leads there: `consolidate_empty_blocks` leaves a Branch whose
  true arm is itself, and `remove_if_trues` then removes that Branch. The
  model does not follow this case.
- Bypass.Decide: a Branch whose chosen arm is still `None` gives
  `Unmodelled`. That arm is always set once `build` completes.
- The graph's state after an exception is not modelled. Every operation
  returns only the exception.
- `Graph.Paired` holds for the whole arena while the graph is built, but
  it does not survive `remove_block`: the removed node keeps its edge
  sets while its neighbours forget it (`Simplify.SpliceUnpairs`). What is
  proved instead is pairing among the nodes still in `self.blocks`
  (`Simplify.SplicePaired`, `Simplify.SweepPaired`, `Build.BuildPaired`).
- Simplify.SpliceOutcome: its condition that the removed block's edge
  lists hold no duplicates is not proved for the blocks the passes
  remove.
- Bypass.DecideSuccessor: matching arms are asked of the one Branch that
  follows `b`. That arms match on every node after the clean-up is not
  proved, since a removed Branch keeps arms that name nodes which no
  longer list it.
- `promote_live_variables` and `append_state_info` mutate the path lists
  and node copies in place. The model returns new path values instead,
  since no other reference to those copies exists.
- `append_state_info` fills a `seen` set that nothing reads. It is left
  out.
- The `ast.NodeTransformer` machinery of the desugarer reaches every
  statement list of the tree. The model visits only those `PyAst.Stmt`
  can hold: expression statements and the bodies of `if` (both branches),
  `while` and `for`. Expressions are never visited for nested statements,
  as none can occur there.
- The `else` clause of `while` and of `for` is not represented, so a
  `yield from` there is not rewritten by the model.
- `with` statements and their bodies are not represented.
- `try` statements are not represented: their body, `except` handlers,
  `else` clause and `finally` clause.
- Nested function and class definitions, and the `async` forms of `for`,
  `with` and function definitions, are not represented.
- The desugarer's counter is a class attribute shared by every instance.
  It is modelled as one `UniqueId` object passed to every desugarer.
