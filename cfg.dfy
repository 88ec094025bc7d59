/** `ControlFlowGraph` of silica/cfg/control_flow_graph.py: the graph of one
    FSM description, built statement by statement from its syntax tree,
    then simplified. */
module Cfg {
  import opened Base
  import opened PyAst
  import opened Graph
  import opened Construction
  import opened Process
  import opened Simplify
  import opened Build
  import opened Bypass
  import opened Paths
  import opened States

  /** What `__init__` computes after `parse_arguments`: `build`, then
      `bypass_conds`, then the paths between yields, promoted and turned
      into states. `fuel` bounds the depth of `find_paths`. */
  function Compile(f: FunctionDef, outputs: set<string>, inputs: set<string>, fuel: nat)
    : Result<(seq<StatePath>, set<string>)>
  {
    var built :- BuildGraph(f);
    var g :- BypassAll(built.0, built.1);
    Collect(g, built.1, outputs, inputs, fuel)
  }

  /** The part of `__init__` after `bypass_conds`: the paths between
      yields of the simplified graph, promoted and turned into states. */
  function Collect(g: seq<Node>, bs: seq<nat>, outputs: set<string>, inputs: set<string>, fuel: nat)
    : Result<(seq<StatePath>, set<string>)>
    requires Closed(g) && Listed(bs, |g|)
  {
    var ps :- PathsBetween(g, bs, fuel);
    PathsBetweenFramed(g, bs, fuel);
    PromotePathsShape(ps);
    AppendStates(PromotePaths(ps), outputs, inputs)
  }

  /** A successful compilation built the graph and bypassed its
      conditions, and its paths `ps` are the paths between yields of that
      graph over the built `self.blocks`; the result is `append_state_info`
      of those paths promoted, each of them framed. */
  lemma CompileParts(f: FunctionDef, outputs: set<string>, inputs: set<string>, fuel: nat) returns (ps: seq<Path>)
    requires Compile(f, outputs, inputs, fuel).Ok?
    ensures BuildGraph(f).Ok? && BypassAll(BuildGraph(f).value.0, BuildGraph(f).value.1).Ok?
    ensures PathsBetween(BypassAll(BuildGraph(f).value.0, BuildGraph(f).value.1).value, BuildGraph(f).value.1, fuel) == Ok(ps)
    ensures forall i :: 0 <= i < |PromotePaths(ps)| ==> Framed(PromotePaths(ps)[i])
    ensures Compile(f, outputs, inputs, fuel) == AppendStates(PromotePaths(ps), outputs, inputs)
  {
    var built := BuildGraph(f).value;
    var g := BypassAll(built.0, built.1).value;
    ps := PathsBetween(g, built.1, fuel).value;
    PathsBetweenFramed(g, built.1, fuel);
    PromotePathsShape(ps);
  }

  /** The compiled FSM's state variables are `yield_state` and the names of
      the branch conditions that read something other than an input or an
      output; the registers declared in the preamble (`local_vars`) are not
      added on their own account. */
  lemma CompileStateVars(f: FunctionDef, outputs: set<string>, inputs: set<string>, fuel: nat, x: string)
    requires Compile(f, outputs, inputs, fuel).Ok?
    ensures var r := Compile(f, outputs, inputs, fuel).value;
      x in r.1 <==> (x == YieldStateVar ||
        exists i, j :: 0 <= i < |r.0| && 0 <= j < |r.0[i].state.conds| &&
          x in Names(r.0[i].state.conds[j]) && !(Names(r.0[i].state.conds[j]) <= outputs + inputs))
  {
    var ps := CompileParts(f, outputs, inputs, fuel);
    AppendStatesInfo(PromotePaths(ps), outputs, inputs);
  }

  /** Every compiled state starts with `yield_state = <id of the Yield its
      path ends at>`, and each path runs from the Head or a Yield to the
      next Yield. */
  lemma CompileStates(f: FunctionDef, outputs: set<string>, inputs: set<string>, fuel: nat)
    requires Compile(f, outputs, inputs, fuel).Ok?
    ensures var r := Compile(f, outputs, inputs, fuel).value;
      forall i :: 0 <= i < |r.0| ==>
        Framed(r.0[i].nodes) && |r.0[i].state.statements| >= 1 &&
        r.0[i].state.statements[0] == YieldStateAssign(r.0[i].nodes[|r.0[i].nodes| - 1].kind.yieldId)
  {
    var ps := CompileParts(f, outputs, inputs, fuel);
    var qs := PromotePaths(ps);
    AppendStatesInfo(qs, outputs, inputs);
    var r := AppendStates(qs, outputs, inputs).value;
    forall i | 0 <= i < |r.0|
      ensures Framed(r.0[i].nodes) && |r.0[i].state.statements| >= 1 &&
        r.0[i].state.statements[0] == YieldStateAssign(r.0[i].nodes[|r.0[i].nodes| - 1].kind.yieldId)
    {
      assert r.0[i].nodes == qs[i];
    }
  }

  class ControlFlowGraph {
    /** Every node ever created, in creation order. */
    var nodes: seq<Node>
    /** `self.blocks`: the nodes of the graph, by index into `nodes`. */
    var blocks: seq<nat>
    var currBlock: nat
    var currYieldId: nat
    /** `self.local_vars`: the registers declared before the final loop. */
    var localVars: set<(string, int)>
    /** `self.paths`: every path between two yields, with its state. */
    var paths: seq<StatePath>
    /** `self.state_vars`. */
    var stateVars: set<string>

    /** `curr_block` and `curr_yield_id` with the nodes built so far. */
    function State(): Builder
      reads this
    {
      Builder(nodes, currBlock, currYieldId)
    }

    /** While `build` processes statements, every node created is in
        `self.blocks`, in creation order, and the current block is a
        BasicBlock. */
    ghost predicate Valid()
      reads this
    {
      blocks == Range(0, |nodes|) && Ready(State())
    }

    /** The fields as `__init__` sets them before calling `build`. */
    constructor ()
      ensures nodes == [] && blocks == [] && currYieldId == 1 && localVars == {}
    {
      nodes := [];
      blocks := [];
      currBlock := 0;
      currYieldId := 1;
      localVars := {};
      paths := [];
      stateVars := {};
    }

    /** The rest of `__init__` on a fresh graph: `build`, `bypass_conds`,
        `collect_paths_between_yields`, `promote_live_variables` and
        `append_state_info`, whose results become `self.paths` and
        `self.state_vars`. Afterwards `self.local_vars` holds the declared
        registers, `self.blocks` the nodes `build` kept, and the nodes are
        those of the built graph with the constant conditions bypassed. */
    method Init(f: FunctionDef, outputs: set<string>, inputs: set<string>, fuel: nat) returns (r: Outcome)
      requires nodes == [] && blocks == [] && currYieldId == 1 && localVars == {}
      modifies this
      ensures r.Done? <==> Compile(f, outputs, inputs, fuel).Ok?
      ensures r.Fail? ==> r.error == Compile(f, outputs, inputs, fuel).error
      ensures r.Done? ==> (paths, stateVars) == Compile(f, outputs, inputs, fuel).value
      ensures r.Done? ==> localVars == Declarations(f.body[..|f.body| - 1]).value
      ensures r.Done? ==>
        BuildGraph(f).Ok? && blocks == BuildGraph(f).value.1 && BypassAll(BuildGraph(f).value.0, blocks) == Ok(nodes)
    {
      r := Build(f);
      if r.Fail? {
        return;
      }
      ghost var built := BuildGraph(f).value;
      assert (nodes, blocks) == built;
      r := BypassConds();
      if r.Fail? {
        return;
      }
      assert BypassAll(built.0, built.1) == Ok(nodes) && blocks == built.1;
      assert Compile(f, outputs, inputs, fuel) == Collect(nodes, blocks, outputs, inputs, fuel);
      var found := CollectPathsBetweenYields(fuel);
      if found.Err? {
        return Fail(found.error);
      }
      PathsBetweenFramed(nodes, blocks, fuel);
      PromotePathsShape(found.value);
      var promoted := PromoteLiveVariables(found.value);
      var states := AppendStateInfo(promoted, outputs, inputs);
      assert Collect(nodes, blocks, outputs, inputs, fuel) == states;
      if states.Err? {
        return Fail(states.error);
      }
      paths, stateVars := states.value.0, states.value.1;
    }

    /** `collect_paths_between_yields()`: the loop over `self.blocks`. */
    method CollectPathsBetweenYields(fuel: nat) returns (r: Result<seq<Path>>)
      requires Closed(nodes) && Listed(blocks, |nodes|)
      ensures r == PathsBetween(nodes, blocks, fuel)
    {
      var found: seq<Path> := [];
      var k := 0;
      while k < |blocks|
        invariant 0 <= k <= |blocks|
        invariant PathsBetween(nodes, blocks[..k], fuel) == Ok(found)
      {
        assert blocks[..k + 1][..k] == blocks[..k];
        var b := blocks[k];
        assert NodeClosed(nodes[b], |nodes|);
        if nodes[b].kind.YieldKind? || nodes[b].kind.HeadKind? {
          if nodes[b].outgoing == [] {
            PathsBetweenPrefixFails(nodes, blocks, fuel, k + 1);
            return Err(IndexError);
          }
          var ps := FindPaths(nodes, nodes[b].outgoing[0].node, fuel);
          if ps.Err? {
            PathsBetweenPrefixFails(nodes, blocks, fuel, k + 1);
            return Err(ps.error);
          }
          found := found + Prefixed(PathNode(b, nodes[b].kind, Plain), ps.value);
        }
        k := k + 1;
      }
      assert blocks[..k] == blocks;
      return Ok(found);
    }

    /** `build(func_def)` on a fresh graph: the Head and a first block,
        the register declarations into `local_vars`, the final `while`
        processed, then the two clean-up passes; the result is
        `BuildGraph` (module Build proves what survives it). */
    method Build(f: FunctionDef) returns (r: Outcome)
      requires nodes == [] && blocks == [] && currYieldId == 1 && localVars == {}
      modifies this`nodes, this`blocks, this`currBlock, this`currYieldId, this`localVars
      ensures r.Done? <==> BuildGraph(f).Ok?
      ensures r.Fail? ==> r.error == BuildGraph(f).error
      ensures r.Done? ==> (nodes, blocks) == BuildGraph(f).value
      ensures r.Done? ==> localVars == Declarations(f.body[..|f.body| - 1]).value
    {
      Begin();
      var init := if f.body == [] then [] else f.body[..|f.body| - 1];
      r := DeclareRegisters(init);
      if r.Fail? {
        return;
      }
      if f.body == [] {
        return Fail(IndexError);
      }
      var last := f.body[|f.body| - 1];
      if !last.While? {
        return Fail(AssertionError);
      }
      ProcessStmt(last);
      assert Grow(f) == Ok(State());
      GrowBuilt(f, State());
      RangeListed(|nodes|);
      r := CleanUpBlocks();
    }

    /** The start of `build`: the Head, then a first block, linked. */
    method Begin()
      requires nodes == [] && blocks == [] && currYieldId == 1
      modifies this`nodes, this`blocks, this`currBlock
      ensures State() == Start() && blocks == Range(0, 2) && Valid()
    {
      nodes := [Node(HeadKind, [], [])];
      blocks := [0];
      currBlock := GenNewBlock();
      nodes := AddEdge(nodes, 0, currBlock, Plain);
      assert Range(0, 2) == [0, 1];
    }

    /** The loop over `initial_statements`: each must declare a register,
        which joins `local_vars`. */
    method DeclareRegisters(init: seq<Stmt>) returns (r: Outcome)
      requires localVars == {}
      modifies this`localVars
      ensures r.Done? <==> Declarations(init).Ok?
      ensures r.Fail? ==> r.error == Declarations(init).error
      ensures r.Done? ==> localVars == Declarations(init).value
    {
      var k := 0;
      while k < |init|
        invariant 0 <= k <= |init|
        invariant Declarations(init[..k]) == Ok(localVars)
      {
        assert init[..k + 1][..k] == init[..k];
        var d := Declaration(init[k]);
        if d.Err? {
          DeclarationsOk(init[..k]);
          DeclarationsError(init, k);
          return Fail(d.error);
        }
        localVars := localVars + {d.value};
        k := k + 1;
      }
      assert init[..k] == init;
      r := Done;
    }

    /** The end of `build`: `consolidate_empty_blocks`, then `remove_if_trues`. */
    method CleanUpBlocks() returns (r: Outcome)
      requires Closed(nodes) && Listed(blocks, |nodes|)
      modifies this`nodes, this`blocks
      ensures r.Done? <==> CleanUp(old(nodes), old(blocks)).Ok?
      ensures r.Fail? ==> r.error == CleanUp(old(nodes), old(blocks)).error
      ensures r.Done? ==> (nodes, blocks) == CleanUp(old(nodes), old(blocks)).value
    {
      r := ConsolidateEmptyBlocks();
      if r.Fail? {
        return;
      }
      r := RemoveIfTrues();
    }

    /** `gen_new_block`: a fresh empty block, appended to the graph. */
    method GenNewBlock() returns (block: nat)
      modifies this`nodes, this`blocks
      ensures block == |old(nodes)|
      ensures nodes == old(nodes) + [EmptyBlock] && blocks == old(blocks) + [block]
    {
      block := |nodes|;
      nodes := nodes + [EmptyBlock];
      blocks := blocks + [block];
    }

    /** `add_new_block`: a fresh block, linked from the current one, becomes
        current. */
    method AddNewBlock()
      requires currBlock < |nodes|
      modifies this`nodes, this`blocks, this`currBlock
      ensures currBlock == |old(nodes)|
      ensures nodes == AddEdge(old(nodes) + [EmptyBlock], old(currBlock), currBlock, Plain)
      ensures blocks == old(blocks) + [currBlock]
    {
      var oldBlock := currBlock;
      currBlock := GenNewBlock();
      nodes := AddEdge(nodes, oldBlock, currBlock, Plain);
    }

    /** `add_new_yield`: a Yield carrying the next id, linked from the
        current block, then a fresh block after it, which becomes current. */
    method AddNewYield()
      requires currBlock < |nodes|
      modifies this`nodes, this`blocks, this`currBlock, this`currYieldId
      ensures nodes == WithNewYield(old(nodes), old(currBlock), old(currYieldId))
      ensures blocks == old(blocks) + [|old(nodes)|, |old(nodes)| + 1]
      ensures currBlock == |old(nodes)| + 1 && currYieldId == old(currYieldId) + 1
    {
      var y := |nodes|;
      nodes := nodes + [Node(YieldKind(currYieldId), [], [])];
      nodes := AddEdge(nodes, currBlock, y, Plain);
      blocks := blocks + [y];
      currYieldId := currYieldId + 1;
      currBlock := y;
      AddNewBlock();
    }

    /** `add_new_branch`: a Branch on `cond`, linked from the current block,
        and a fresh block on its `"T"` arm, which becomes current. */
    method AddNewBranch(cond: Expr) returns (branch: nat)
      requires currBlock < |nodes|
      modifies this`nodes, this`blocks, this`currBlock
      ensures branch == |old(nodes)| && currBlock == branch + 1
      ensures nodes == WithNewBranch(old(nodes), old(currBlock), cond)
      ensures blocks == old(blocks) + [branch, branch + 1]
    {
      branch := |nodes|;
      nodes := nodes + [Node(BranchKind(cond, None, None), [], [])];
      blocks := blocks + [branch];
      nodes := AddEdge(nodes, currBlock, branch, Plain);
      currBlock := GenNewBlock();
      nodes := AddTrueEdge(nodes, branch, currBlock);
    }

    /** `process_stmt`: the new state is `Step` of the old one (module
        Process states what that preserves and creates). */
    method ProcessStmt(stmt: Stmt)
      requires Valid()
      modifies this`nodes, this`blocks, this`currBlock, this`currYieldId
      ensures Valid()
      ensures State() == Step(old(State()), stmt)
      decreases stmt, 2
    {
      if stmt.While? {
        ProcessWhile(stmt);
      } else if stmt.If? {
        ProcessIf(stmt);
      } else if stmt.ExprStmt? && stmt.expr.Yield? {
        ghost var g := nodes;
        AddNewYield();
        RangeSnoc(0, |g|);
        RangeSnoc(0, |g| + 1);
      } else if stmt.ExprStmt? && stmt.expr.Str? {
      } else {
        nodes := nodes[currBlock := nodes[currBlock].(kind := BlockKind(nodes[currBlock].kind.statements + [stmt]))];
      }
    }

    /** `process_stmt` on `while test: body`. */
    method ProcessWhile(stmt: Stmt)
      requires Valid() && stmt.While?
      modifies this`nodes, this`blocks, this`currBlock, this`currYieldId
      ensures Valid()
      ensures State() == StepWhile(old(State()), stmt)
      decreases stmt, 1
    {
      ghost var st := State();
      BodyStart(st, stmt.test);
      var branch := AddNewBranch(stmt.test);
      RangeSnoc(0, |st.g|);
      RangeSnoc(0, |st.g| + 1);
      ProcessBody(stmt.body);
      ghost var st2 := State();
      StepsFrame(Head(st, stmt.test), stmt.body, st2);
      BodyClosable(st, stmt.test, st2);
      WhileTailFrame(st, stmt.test, st2);
      CloseLoop(branch, st, st2);
    }

    /** The end of a `while`: the body's end (the current block) loops back
        to the branch, and a fresh exit block on its `"F"` arm becomes
        current. */
    method CloseLoop(branch: nat, ghost st: Builder, ghost st2: Builder)
      requires State() == st2 && blocks == Range(0, |nodes|)
      requires branch == |st.g| && Closable(nodes, currBlock, branch)
      modifies this`nodes, this`blocks, this`currBlock
      ensures State() == WhileTail(st, st2) && blocks == Range(0, |nodes|)
    {
      nodes := AddEdge(nodes, currBlock, branch, Plain);
      currBlock := GenNewBlock();
      nodes := AddFalseEdge(nodes, branch, currBlock);
      RangeSnoc(0, |st2.g|);
    }

    /** `process_stmt` on `if test: body else: orelse` (`orelse` may be empty). */
    method ProcessIf(stmt: Stmt)
      requires Valid() && stmt.If?
      modifies this`nodes, this`blocks, this`currBlock, this`currYieldId
      ensures Valid()
      ensures State() == StepIf(old(State()), stmt)
      decreases stmt, 1
    {
      ghost var st := State();
      BodyStart(st, stmt.test);
      var branch := AddNewBranch(stmt.test);
      RangeSnoc(0, |st.g|);
      RangeSnoc(0, |st.g| + 1);
      ProcessBody(stmt.body);
      ghost var st2 := State();
      StepsFrame(Head(st, stmt.test), stmt.body, st2);
      BodyClosable(st, stmt.test, st2);
      var endThen := currBlock;
      if stmt.orelse != [] {
        ElseHeadFrame(st, stmt.test, st2);
        OpenElse(branch, st, st2);
        ProcessBody(stmt.orelse);
        ghost var st4 := State();
        StepsFrame(ElseHead(st, st2), stmt.orelse, st4);
        IfElseTailFrame(st, stmt.test, st2, st4);
        JoinArms(endThen, st2, st4);
      } else {
        IfTailFrame(st, stmt.test, st2);
        JoinIf(branch, st, st2);
      }
    }

    /** The `else` part of an `if`: a fresh block on the branch's `"F"` arm
        becomes current. */
    method OpenElse(branch: nat, ghost st: Builder, ghost st2: Builder)
      requires State() == st2 && blocks == Range(0, |nodes|)
      requires branch == |st.g| && Closable(nodes, currBlock, branch)
      modifies this`nodes, this`blocks, this`currBlock
      ensures State() == ElseHead(st, st2) && blocks == Range(0, |nodes|)
    {
      currBlock := GenNewBlock();
      nodes := AddFalseEdge(nodes, branch, currBlock);
      RangeSnoc(0, |st2.g|);
    }

    /** The join after `if ... else`: a fresh block fed by the end of the
        `if` arm (`endThen`) and by the current block, the end of the `else`
        arm; it becomes current. */
    method JoinArms(endThen: nat, ghost st2: Builder, ghost st4: Builder)
      requires State() == st4 && blocks == Range(0, |nodes|)
      requires endThen == st2.c && endThen < |nodes| && currBlock < |nodes|
      modifies this`nodes, this`blocks, this`currBlock
      ensures State() == IfElseTail(st2, st4) && blocks == Range(0, |nodes|)
    {
      var endElse := currBlock;
      currBlock := GenNewBlock();
      nodes := AddEdge(nodes, endThen, currBlock, Plain);
      nodes := AddEdge(nodes, endElse, currBlock, Plain);
      RangeSnoc(0, |st4.g|);
    }

    /** The join after an `if` without `else`: a fresh block fed by the end
        of the body (the current block) and by the branch's `"F"` arm; it
        becomes current. */
    method JoinIf(branch: nat, ghost st: Builder, ghost st2: Builder)
      requires State() == st2 && blocks == Range(0, |nodes|)
      requires branch == |st.g| && Closable(nodes, currBlock, branch)
      modifies this`nodes, this`blocks, this`currBlock
      ensures State() == IfTail(st, st2) && blocks == Range(0, |nodes|)
    {
      var endThen := currBlock;
      currBlock := GenNewBlock();
      nodes := AddEdge(nodes, endThen, currBlock, Plain);
      nodes := AddFalseEdge(nodes, branch, currBlock);
      RangeSnoc(0, |st2.g|);
    }

    /** The `for sub_stmt in ...: self.process_stmt(sub_stmt)` loops. */
    method ProcessBody(ss: seq<Stmt>)
      requires Valid()
      modifies this`nodes, this`blocks, this`currBlock, this`currYieldId
      ensures Valid()
      ensures State() == Steps(old(State()), ss)
      decreases ss, 0
    {
      var k := 0;
      while k < |ss|
        invariant 0 <= k <= |ss|
        invariant Valid()
        invariant State() == Steps(old(State()), ss[..k])
      {
        ProcessStmt(ss[k]);
        assert ss[..k + 1][..k] == ss[..k];
        k := k + 1;
      }
      assert ss[..|ss|] == ss;
    }
    /** `remove_block(block)`: its three loops, over the block's own edge
        sets, which no step changes once self-loops are ruled out. The
        outcome and the new arena are those of `Splice` (module Simplify
        proves what it does to every edge set). */
    method RemoveBlock(b: nat) returns (r: Outcome)
      requires Removable(nodes, b)
      modifies this`nodes
      ensures r.Done? <==> Splice(old(nodes), b).Ok?
      ensures r.Fail? ==> r.error == Splice(old(nodes), b).error
      ensures r.Done? ==> nodes == Splice(old(nodes), b).value
    {
      var inc, out := nodes[b].incoming, nodes[b].outgoing;
      if b in Ends(inc) || b in Ends(out) {
        return Fail(Unmodelled);
      }
      r := DropSources(b, inc);
      if r.Fail? {
        return;
      }
      r := DropSinks(b, out);
      if r.Fail? {
        return;
      }
      r := RelinkSources(inc, out);
    }

    /** The first loop of `remove_block`: each source drops its entry for
        the removed block `b`. */
    method DropSources(b: nat, inc: seq<Edge>) returns (r: Outcome)
      requires Within(inc, |nodes|)
      modifies this`nodes
      ensures r.Done? <==> DropFromSources(old(nodes), b, inc).Ok?
      ensures r.Fail? ==> r.error == DropFromSources(old(nodes), b, inc).error
      ensures r.Done? ==> nodes == DropFromSources(old(nodes), b, inc).value
    {
      ghost var g := nodes;
      var i := 0;
      while i < |inc|
        invariant 0 <= i <= |inc|
        invariant DropFromSources(g, b, inc[..i]) == Ok(nodes)
      {
        var e := inc[i];
        assert inc[..i + 1][..i] == inc[..i];
        if Edge(b, e.lbl) !in nodes[e.node].outgoing {
          DropFromSourcesFails(g, b, inc, i + 1);
          return Fail(KeyError);
        }
        nodes := nodes[e.node := nodes[e.node].(outgoing := Remove(nodes[e.node].outgoing, Edge(b, e.lbl)))];
        i := i + 1;
      }
      assert inc[..i] == inc;
      r := Done;
    }

    /** The second loop of `remove_block`: each sink drops its entry for
        the removed block `b`. */
    method DropSinks(b: nat, out: seq<Edge>) returns (r: Outcome)
      requires Within(out, |nodes|)
      modifies this`nodes
      ensures r.Done? <==> DropFromSinks(old(nodes), b, out).Ok?
      ensures r.Fail? ==> r.error == DropFromSinks(old(nodes), b, out).error
      ensures r.Done? ==> nodes == DropFromSinks(old(nodes), b, out).value
    {
      ghost var g := nodes;
      var i := 0;
      while i < |out|
        invariant 0 <= i <= |out|
        invariant DropFromSinks(g, b, out[..i]) == Ok(nodes)
      {
        var e := out[i];
        assert out[..i + 1][..i] == out[..i];
        if Edge(b, e.lbl) !in nodes[e.node].incoming {
          DropFromSinksFails(g, b, out, i + 1);
          return Fail(KeyError);
        }
        nodes := nodes[e.node := nodes[e.node].(incoming := Remove(nodes[e.node].incoming, Edge(b, e.lbl)))];
        i := i + 1;
      }
      assert out[..i] == out;
      r := Done;
    }

    /** The third loop of `remove_block`: every source is linked to the
        sinks. */
    method RelinkSources(inc: seq<Edge>, out: seq<Edge>) returns (r: Outcome)
      requires Within(inc, |nodes|) && Within(out, |nodes|)
      modifies this`nodes
      ensures r.Done? <==> Relink(old(nodes), inc, out).Ok?
      ensures r.Fail? ==> r.error == Relink(old(nodes), inc, out).error
      ensures r.Done? ==> nodes == Relink(old(nodes), inc, out).value
    {
      ghost var g := nodes;
      var i := 0;
      while i < |inc|
        invariant 0 <= i <= |inc|
        invariant Relink(g, inc[..i], out) == Ok(nodes)
      {
        var e := inc[i];
        assert inc[..i + 1][..i] == inc[..i];
        r := RelinkEntry(e, out);
        if r.Fail? {
          RelinkPrefixFails(g, inc, out, i + 1);
          return;
        }
        i := i + 1;
      }
      assert inc[..i] == inc;
      r := Done;
    }

    /** One pass of the third loop of `remove_block`: the source `e` of the
        removed block is linked to its sinks `out`. */
    method RelinkEntry(e: Edge, out: seq<Edge>) returns (r: Outcome)
      requires e.node < |nodes| && Within(out, |nodes|)
      modifies this`nodes
      ensures r.Done? <==> RelinkSource(old(nodes), e, out).Ok?
      ensures r.Fail? ==> r.error == RelinkSource(old(nodes), e, out).error
      ensures r.Done? ==> nodes == RelinkSource(old(nodes), e, out).value
    {
      ghost var h := nodes;
      if nodes[e.node].kind.BranchKind? {
        if |out| == 1 {
          var sink := out[0].node;
          nodes := AddEdge(nodes, e.node, sink, e.lbl);
          if e.lbl == FalseLabel {
            nodes := nodes[e.node := nodes[e.node].(kind := nodes[e.node].kind.(falseEdge := Some(sink)))];
          } else if e.lbl == TrueLabel {
            nodes := nodes[e.node := nodes[e.node].(kind := nodes[e.node].kind.(trueEdge := Some(sink)))];
          } else {
            return Fail(AssertionError);
          }
        } else if out != [] {
          return Fail(AssertionError);
        }
      } else {
        var j := 0;
        while j < |out|
          invariant 0 <= j <= |out| && |nodes| == |h|
          invariant nodes == LinkAll(h, e.node, e.lbl, out[..j])
        {
          assert out[..j + 1][..j] == out[..j];
          nodes := AddEdge(nodes, e.node, out[j].node, e.lbl);
          j := j + 1;
        }
        assert out[..j] == out;
      }
      r := Done;
    }

    /** The loop shared by `consolidate_empty_blocks` and
        `remove_if_trues`: every doomed block of `self.blocks` is removed,
        the others become the new `self.blocks`. */
    method RemoveDoomed(p: Cleanup) returns (r: Outcome)
      requires Closed(nodes) && Listed(blocks, |nodes|)
      modifies this`nodes, this`blocks
      ensures r.Done? <==> Sweep(old(nodes), old(blocks), p).Ok?
      ensures r.Fail? ==> r.error == Sweep(old(nodes), old(blocks), p).error
      ensures r.Done? ==> (nodes, blocks) == Sweep(old(nodes), old(blocks), p).value
    {
      ghost var g := nodes;
      var bs := blocks;
      var newBlocks := [];
      var k := 0;
      while k < |bs|
        invariant 0 <= k <= |bs|
        invariant Sweep(g, bs[..k], p) == Ok((nodes, newBlocks))
      {
        var b := bs[k];
        assert bs[..k + 1][..k] == bs[..k];
        if Doomed(p, nodes[b].kind) {
          assert NodeClosed(nodes[b], |nodes|);
          var o := RemoveBlock(b);
          if o.Fail? {
            SweepFails(g, bs, p, k + 1);
            return o;
          }
        } else {
          newBlocks := newBlocks + [b];
        }
        k := k + 1;
      }
      assert bs[..k] == bs;
      blocks := newBlocks;
      r := Done;
    }

    /** `consolidate_empty_blocks`: BasicBlocks without statements are removed. */
    method ConsolidateEmptyBlocks() returns (r: Outcome)
      requires Closed(nodes) && Listed(blocks, |nodes|)
      modifies this`nodes, this`blocks
      ensures r.Done? <==> Sweep(old(nodes), old(blocks), EmptyBlocks).Ok?
      ensures r.Fail? ==> r.error == Sweep(old(nodes), old(blocks), EmptyBlocks).error
      ensures r.Done? ==> (nodes, blocks) == Sweep(old(nodes), old(blocks), EmptyBlocks).value
    {
      r := RemoveDoomed(EmptyBlocks);
    }

    /** `remove_if_trues`: Branches on the constant `True` are removed. */
    method RemoveIfTrues() returns (r: Outcome)
      requires Closed(nodes) && Listed(blocks, |nodes|)
      modifies this`nodes, this`blocks
      ensures r.Done? <==> Sweep(old(nodes), old(blocks), IfTrues).Ok?
      ensures r.Fail? ==> r.error == Sweep(old(nodes), old(blocks), IfTrues).error
      ensures r.Done? ==> (nodes, blocks) == Sweep(old(nodes), old(blocks), IfTrues).value
    {
      r := RemoveDoomed(IfTrues);
    }
    /** `bypass_conds()`: the lazy filter of
        `get_basic_blocks_followed_by_branches` walks `self.blocks`, and each
        block it yields is decided on the graph as it stands; the result is
        `BypassAll` (module Bypass proves what it does to each block). */
    method BypassConds() returns (r: Outcome)
      requires Closed(nodes) && Listed(blocks, |nodes|)
      modifies this`nodes
      ensures r.Done? <==> BypassAll(old(nodes), blocks).Ok?
      ensures r.Fail? ==> r.error == BypassAll(old(nodes), blocks).error
      ensures r.Done? ==> nodes == BypassAll(old(nodes), blocks).value
    {
      ghost var g := nodes;
      var k := 0;
      while k < |blocks|
        invariant 0 <= k <= |blocks|
        invariant BypassAll(g, blocks[..k]) == Ok(nodes)
      {
        var b := blocks[k];
        BypassAllStep(g, blocks, k, nodes);
        var d := Decide(nodes, b);
        if d.Err? {
          BypassAllFails(g, blocks, k + 1);
          return Fail(d.error);
        }
        if d.value.Some? {
          nodes := Redirect(nodes, b, d.value.value);
        }
        k := k + 1;
      }
      assert blocks[..k] == blocks;
      r := Done;
    }
  }
}
