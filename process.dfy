/** `process_stmt` of silica/cfg/control_flow_graph.py as a function on the
    builder's state (the arena, the current block, the next Yield id), and
    what it preserves and creates. The builder class in module Cfg runs the
    same steps in place and is proved equal to these functions. */
module Process {
  import opened Base
  import opened PyAst
  import opened Graph
  import opened Construction

  /** `curr_block` and `curr_yield_id` together with the nodes built so far. */
  datatype Builder = Builder(g: seq<Node>, c: nat, yid: nat)

  /** The current block is a BasicBlock of the graph. */
  predicate Ready(st: Builder)
  {
    st.c < |st.g| && st.g[st.c].kind.BlockKind?
  }

  /** `r` grew from `st`: no old node but the current block changed, and the
      new current block is the old one or a new node. */
  ghost predicate Grows(st: Builder, r: Builder)
  {
    Extends(st.g, r.g, st.c) && (r.c == st.c || r.c >= |st.g|)
  }

  /** The statements `process_stmt` turns into new nodes. */
  predicate Opens(s: Stmt)
  {
    s.While? || s.If? || (s.ExprStmt? && s.expr.Yield?)
  }

  /** A docstring, which `process_stmt` skips. */
  predicate Ignored(s: Stmt)
  {
    s.ExprStmt? && s.expr.Str?
  }

  /** The number of Yield nodes `process_stmt` creates for a statement:
      `yield` statements, looked for inside `while` and `if` only. */
  function CountYields(s: Stmt): nat
    decreases s
  {
    if s.ExprStmt? && s.expr.Yield? then 1
    else if s.While? then CountYieldsIn(s.body)
    else if s.If? then CountYieldsIn(s.body) + CountYieldsIn(s.orelse)
    else 0
  }

  function CountYieldsIn(ss: seq<Stmt>): nat
    decreases ss
  {
    if ss == [] then 0 else CountYieldsIn(ss[..|ss| - 1]) + CountYields(ss[|ss| - 1])
  }

  /** Block `end` can be linked to Branch `b`'s arm. */
  predicate Closable(g: seq<Node>, end: nat, b: nat)
  {
    end < |g| && b < |g| && g[b].kind.BranchKind?
  }

  /** `process_stmt(stmt)`. The state is left alone when the current block
      is not a BasicBlock, which never happens during `build` (`StepFrame`). */
  function Step(st: Builder, s: Stmt): Builder
    decreases s, 2
  {
    if !Ready(st) then st
    else if s.While? then StepWhile(st, s)
    else if s.If? then StepIf(st, s)
    else if s.ExprStmt? && s.expr.Yield? then
      Builder(WithNewYield(st.g, st.c, st.yid), |st.g| + 1, st.yid + 1)
    else if Ignored(s) then st
    else Builder(Appended(st.g, st.c, s), st.c, st.yid)
  }

  /** The `for sub_stmt in ...: self.process_stmt(sub_stmt)` loops. */
  function Steps(st: Builder, ss: seq<Stmt>): Builder
    decreases ss, 0
  {
    if ss == [] then st else Step(Steps(st, ss[..|ss| - 1]), ss[|ss| - 1])
  }

  /** `process_stmt` on `while test: body`. */
  function StepWhile(st: Builder, s: Stmt): Builder
    requires st.c < |st.g| && s.While?
    decreases s, 1
  {
    WhileTail(st, Steps(Head(st, s.test), s.body))
  }

  /** `process_stmt` on `if test: body else: orelse`. */
  function StepIf(st: Builder, s: Stmt): Builder
    requires st.c < |st.g| && s.If?
    decreases s, 1
  {
    var st2 := Steps(Head(st, s.test), s.body);
    if s.orelse == [] then IfTail(st, st2)
    else IfElseTail(st2, Steps(ElseHead(st, st2), s.orelse))
  }

  /** `add_new_branch(test)` at the current block: the body is processed
      from the branch's `"T"` arm. */
  function Head(st: Builder, test: Expr): Builder
    requires st.c < |st.g|
  {
    Builder(WithNewBranch(st.g, st.c, test), |st.g| + 1, st.yid)
  }

  /** After a `while` body `st2`: the edge from the body's end back to the
      branch (node `|st.g|`), and a fresh exit block on its `"F"` arm. The
      fallback is never taken (`WhileTailFrame`). */
  function WhileTail(st: Builder, st2: Builder): Builder
  {
    if Closable(st2.g, st2.c, |st.g|) then Builder(LoopClosed(st2.g, st2.c, |st.g|), |st2.g|, st2.yid)
    else st2
  }

  /** After the body of an `if` without `else`: a fresh join block fed by
      the body's end and the branch's `"F"` arm. */
  function IfTail(st: Builder, st2: Builder): Builder
  {
    if Closable(st2.g, st2.c, |st.g|) then Builder(IfJoined(st2.g, st2.c, |st.g|), |st2.g|, st2.yid)
    else st2
  }

  /** After the body of an `if ... else`: the `else` part starts in a fresh
      block on the branch's `"F"` arm. */
  function ElseHead(st: Builder, st2: Builder): Builder
  {
    if Closable(st2.g, st2.c, |st.g|) then Builder(ElseOpened(st2.g, |st.g|), |st2.g|, st2.yid)
    else st2
  }

  /** After both arms of an `if ... else`: a fresh join block fed by the
      ends of both arms. */
  function IfElseTail(st2: Builder, st4: Builder): Builder
  {
    if st2.c < |st4.g| && st4.c < |st4.g| then Builder(ArmsJoined(st4.g, st2.c, st4.c), |st4.g|, st4.yid)
    else st4
  }

  /** The branch's arms, as `add_new_branch` at block `c` of `st` left them,
      once its body `st2` has been processed. */
  ghost predicate BodyGrown(st: Builder, test: Expr, st2: Builder)
  {
    Ready(st) && Ready(st2) && Grows(Head(st, test), st2)
  }

  lemma BodyStart(st: Builder, test: Expr)
    requires Ready(st)
    ensures Ready(Head(st, test))
  {
    NewBranchShape(st.g, st.c, test);
  }

  lemma BodyClosable(st: Builder, test: Expr, st2: Builder)
    requires BodyGrown(st, test, st2)
    ensures Closable(st2.g, st2.c, |st.g|)
    ensures st2.g[|st.g|] == WithNewBranch(st.g, st.c, test)[|st.g|]
  {
    NewBranchShape(st.g, st.c, test);
  }

  lemma WhileTailFrame(st: Builder, test: Expr, st2: Builder)
    requires BodyGrown(st, test, st2)
    ensures Ready(WhileTail(st, st2)) && Grows(st, WhileTail(st, st2))
  {
    BodyClosable(st, test, st2);
    WhileFrame(st.g, st.c, test, st2.g, st2.c);
    LoopClosedNodes(st2.g, st2.c, |st.g|);
  }

  lemma IfTailFrame(st: Builder, test: Expr, st2: Builder)
    requires BodyGrown(st, test, st2)
    ensures Ready(IfTail(st, st2)) && Grows(st, IfTail(st, st2))
  {
    BodyClosable(st, test, st2);
    IfFrame(st.g, st.c, test, st2.g, st2.c);
    IfJoinedNodes(st2.g, st2.c, |st.g|);
  }

  lemma ElseHeadFrame(st: Builder, test: Expr, st2: Builder)
    requires BodyGrown(st, test, st2)
    ensures Closable(st2.g, st2.c, |st.g|)
    ensures ElseHead(st, st2) == Builder(ElseOpened(st2.g, |st.g|), |st2.g|, st2.yid)
    ensures Ready(ElseHead(st, st2))
  {
    BodyClosable(st, test, st2);
    ElseOpenedNodes(st2.g, |st.g|);
  }

  lemma IfElseTailFrame(st: Builder, test: Expr, st2: Builder, st4: Builder)
    requires BodyGrown(st, test, st2) && Ready(st4) && Grows(ElseHead(st, st2), st4)
    ensures Ready(IfElseTail(st2, st4)) && Grows(st, IfElseTail(st2, st4))
  {
    ElseHeadFrame(st, test, st2);
    IfElseFrame(st.g, st.c, test, st2.g, st2.c, st4.g, st4.c);
    ArmsJoinedNodes(st4.g, st2.c, st4.c);
  }

  /** From a state whose current block is a BasicBlock, `process_stmt`
      reaches another such state, changes no old node but the current
      block, and moves to the old current block or a new node. */
  lemma {:induction false} StepFrame(st: Builder, s: Stmt, r: Builder)
    requires Ready(st) && r == Step(st, s)
    ensures Ready(r) && Grows(st, r)
    decreases s, 2
  {
    if s.While? || s.If? {
      BodyStart(st, s.test);
      var st2 := Steps(Head(st, s.test), s.body);
      StepsFrame(Head(st, s.test), s.body, st2);
      if s.While? {
        assert r == WhileTail(st, st2);
        WhileTailFrame(st, s.test, st2);
      } else if s.orelse == [] {
        assert r == IfTail(st, st2);
        IfTailFrame(st, s.test, st2);
      } else {
        ElseHeadFrame(st, s.test, st2);
        var st4 := Steps(ElseHead(st, st2), s.orelse);
        StepsFrame(ElseHead(st, st2), s.orelse, st4);
        assert r == IfElseTail(st2, st4);
        IfElseTailFrame(st, s.test, st2, st4);
      }
    } else if s.ExprStmt? && s.expr.Yield? {
      NewYieldShape(st.g, st.c, st.yid);
    }
  }

  lemma {:induction false} StepsFrame(st: Builder, ss: seq<Stmt>, r: Builder)
    requires Ready(st) && r == Steps(st, ss)
    ensures Ready(r) && Grows(st, r)
    decreases ss, 0
  {
    if ss != [] {
      var m := Steps(st, ss[..|ss| - 1]);
      StepsFrame(st, ss[..|ss| - 1], m);
      StepFrame(m, ss[|ss| - 1], r);
      ExtendsTrans(st.g, m.g, r.g, st.c, m.c);
    }
  }

  /** `process_stmt` keeps the builder invariant, gives every new Branch both
      arms and takes one Yield id per `yield`; a `while`, an `if` or a
      `yield` leaves the current block's statements alone, links it to the
      first new node and moves on to a new block. */
  lemma {:induction false} StepBuilt(st: Builder, s: Stmt, r: Builder)
    requires Built(st.g, st.c, st.yid) && r == Step(st, s)
    ensures Built(r.g, r.c, r.yid) && BranchesComplete(r.g, |st.g|)
    ensures r.yid == st.yid + CountYields(s)
    ensures Opens(s) ==> Opened(st.g, r.g, st.c) && r.c >= |st.g|
    decreases s, 3
  {
    if s.While? {
      WhileStepBuilt(st, s, r);
    } else if s.If? {
      IfStepBuilt(st, s, r);
    } else {
      SimpleBuilt(st, s, r);
    }
  }

  /** On a BasicBlock, `process_stmt` dispatches on the statement's form. */
  lemma StepCases(st: Builder, s: Stmt)
    requires st.c < |st.g| && st.g[st.c].kind.BlockKind?
    ensures s.While? ==> Step(st, s) == StepWhile(st, s)
    ensures s.If? ==> Step(st, s) == StepIf(st, s)
  {
  }

  lemma {:induction false} WhileStepBuilt(st: Builder, s: Stmt, r: Builder)
    requires Built(st.g, st.c, st.yid) && s.While? && r == Step(st, s)
    ensures Built(r.g, r.c, r.yid) && BranchesComplete(r.g, |st.g|)
    ensures r.yid == st.yid + CountYields(s)
    ensures Opened(st.g, r.g, st.c) && r.c >= |st.g|
    decreases s, 2
  {
    StepCases(st, s);
    WhileBuilt(st, s, r);
    assert CountYields(s) == CountYieldsIn(s.body);
  }

  lemma {:induction false} IfStepBuilt(st: Builder, s: Stmt, r: Builder)
    requires Built(st.g, st.c, st.yid) && s.If? && r == Step(st, s)
    ensures Built(r.g, r.c, r.yid) && BranchesComplete(r.g, |st.g|)
    ensures r.yid == st.yid + CountYields(s)
    ensures Opened(st.g, r.g, st.c) && r.c >= |st.g|
    decreases s, 2
  {
    StepCases(st, s);
    IfBuilt(st, s, r);
    assert CountYields(s) == CountYieldsIn(s.body) + CountYieldsIn(s.orelse);
  }

  /** A `yield`, a docstring or a plain statement. */
  lemma SimpleBuilt(st: Builder, s: Stmt, r: Builder)
    requires Built(st.g, st.c, st.yid) && r == Step(st, s) && !s.While? && !s.If?
    ensures Built(r.g, r.c, r.yid) && BranchesComplete(r.g, |st.g|)
    ensures r.yid == st.yid + CountYields(s)
    ensures Opens(s) ==> Opened(st.g, r.g, st.c) && r.c >= |st.g|
  {
    if s.ExprStmt? && s.expr.Yield? {
      YieldBuilt(st, r);
    } else if Ignored(s) {
      assert r == st;
    } else {
      AppendBuilt(st, s, r);
    }
  }

  lemma YieldBuilt(st: Builder, r: Builder)
    requires Built(st.g, st.c, st.yid)
    requires r == Builder(WithNewYield(st.g, st.c, st.yid), |st.g| + 1, st.yid + 1)
    ensures Built(r.g, r.c, r.yid) && BranchesComplete(r.g, |st.g|)
    ensures Opened(st.g, r.g, st.c)
  {
    YieldDone(st.g, st.c, st.yid);
  }

  lemma AppendBuilt(st: Builder, s: Stmt, r: Builder)
    requires Built(st.g, st.c, st.yid) && r == Builder(Appended(st.g, st.c, s), st.c, st.yid)
    ensures Built(r.g, r.c, r.yid) && BranchesComplete(r.g, |st.g|)
  {
    AppendDone(st.g, st.c, st.yid, s);
  }

  lemma {:induction false} StepsBuilt(st: Builder, ss: seq<Stmt>, r: Builder)
    requires Built(st.g, st.c, st.yid) && r == Steps(st, ss)
    ensures Built(r.g, r.c, r.yid) && BranchesComplete(r.g, |st.g|)
    ensures r.yid == st.yid + CountYieldsIn(ss)
    decreases ss, 0
  {
    if ss != [] {
      var m := Steps(st, ss[..|ss| - 1]);
      StepsBuilt(st, ss[..|ss| - 1], m);
      StepsFrame(st, ss[..|ss| - 1], m);
      StepBuilt(m, ss[|ss| - 1], r);
      StepFrame(m, ss[|ss| - 1], r);
      CompleteTrans(st.g, m.g, r.g, m.c);
    }
  }

  /** The state after the body of a `while` or an `if`, with the facts the
      wiring lemmas of module Construction start from. */
  lemma {:induction false} BodyBuilt(st: Builder, s: Stmt, st2: Builder)
    requires Built(st.g, st.c, st.yid) && (s.While? || s.If?)
    requires st2 == Steps(Head(st, s.test), s.body)
    ensures LoopBodyDone(st.g, st.c, st.yid, s.test, st2.g, st2.c, st2.yid)
    ensures st2.yid == st.yid + CountYieldsIn(s.body)
    ensures BodyGrown(st, s.test, st2)
    decreases s, 0
  {
    BuiltBranch(st.g, st.c, st.yid, s.test);
    NewBranchShape(st.g, st.c, s.test);
    StepsBuilt(Head(st, s.test), s.body, st2);
    StepsFrame(Head(st, s.test), s.body, st2);
  }

  /** A `while` keeps the builder invariant and opens a new block. */
  lemma {:induction false} WhileBuilt(st: Builder, s: Stmt, r: Builder)
    requires Built(st.g, st.c, st.yid) && s.While? && r == StepWhile(st, s)
    ensures Built(r.g, r.c, r.yid) && BranchesComplete(r.g, |st.g|)
    ensures r.yid == st.yid + CountYieldsIn(s.body)
    ensures Opened(st.g, r.g, st.c) && r.c >= |st.g|
    decreases s, 1
  {
    var st2 := Steps(Head(st, s.test), s.body);
    BodyBuilt(st, s, st2);
    WhileDone(st.g, st.c, st.yid, s.test, st2.g, st2.c, st2.yid);
  }

  /** A `while` is wired as `LoopWired` says. */
  lemma {:induction false} WhileWired(st: Builder, s: Stmt, r: Builder)
    requires Built(st.g, st.c, st.yid) && s.While? && r == StepWhile(st, s)
    ensures LoopWired(r.g, st.c, |st.g|, s.test, r.c)
    decreases s, 1
  {
    var st2 := Steps(Head(st, s.test), s.body);
    BodyBuilt(st, s, st2);
    WhileDone(st.g, st.c, st.yid, s.test, st2.g, st2.c, st2.yid);
  }

  /** An `if` is wired as `IfWired` or `IfElseWired` says. */
  lemma {:induction false} IfBuilt(st: Builder, s: Stmt, r: Builder)
    requires Built(st.g, st.c, st.yid) && s.If? && r == StepIf(st, s)
    ensures Built(r.g, r.c, r.yid) && BranchesComplete(r.g, |st.g|)
    ensures r.yid == st.yid + CountYieldsIn(s.body) + CountYieldsIn(s.orelse)
    ensures Opened(st.g, r.g, st.c) && r.c >= |st.g|
    ensures s.orelse == [] ==> IfWired(r.g, st.c, |st.g|, s.test, r.c)
    ensures s.orelse != [] ==> IfElseWired(r.g, st.c, |st.g|, s.test, r.c)
    decreases s, 1
  {
    var st2 := Steps(Head(st, s.test), s.body);
    BodyBuilt(st, s, st2);
    if s.orelse == [] {
      IfDone(st.g, st.c, st.yid, s.test, st2.g, st2.c, st2.yid);
    } else {
      ElseStart(st.g, st.c, st.yid, s.test, st2.g, st2.c, st2.yid);
      ElseHeadFrame(st, s.test, st2);
      var st4 := Steps(ElseHead(st, st2), s.orelse);
      StepsBuilt(ElseHead(st, st2), s.orelse, st4);
      StepsFrame(ElseHead(st, st2), s.orelse, st4);
      IfElseDone(st.g, st.c, st.yid, s.test, st2.g, st2.c, st2.yid, st4.g, st4.c, st4.yid);
    }
  }
}
