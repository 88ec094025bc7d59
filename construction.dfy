/** What `ControlFlowGraph.build` keeps true between two statements while it
    grows the graph, stated on the arena value, with one lemma per kind of
    growth step (`add_new_block`, `add_new_yield`, `add_new_branch`, a
    statement appended, a plain or `"F"` edge, a fresh block). */
module Construction {
  import opened Base
  import opened PyAst
  import opened Graph

  /** A graph under construction with current block `c` and next Yield id
      `yid`: node 0 is the only Head, `c` is a BasicBlock, the graph is
      well formed, and the Yields met in creation order carry the ids
      1, 2, ..., yid - 1. */
  ghost predicate Built(g: seq<Node>, c: nat, yid: nat)
  {
    |g| > 0 && g[0].kind.HeadKind? &&
    (forall i :: 0 < i < |g| ==> !g[i].kind.HeadKind?) &&
    c < |g| && g[c].kind.BlockKind? &&
    WellFormed(g) &&
    1 <= yid && YieldIds(g, Range(0, |g|)) == Range(1, yid)
  }

  /** The graph `build` starts from: the Head, one block, one edge. */
  lemma BuiltStart()
    ensures Built(AddEdge([Node(HeadKind, [], []), EmptyBlock], 0, 1, Plain), 1, 1)
  {
    var g := AddEdge([Node(HeadKind, [], []), EmptyBlock], 0, 1, Plain);
    assert Range(0, 2) == [0, 1];
    assert [0, 1][..1] == [0] && [0][..0] == [];
    assert YieldIds(g, [0]) == [];
    assert YieldIds(g, [0, 1]) == [];
  }

  lemma RangeSplit(lo: nat, mid: nat, hi: nat)
    requires lo <= mid <= hi
    ensures Range(lo, mid) + Range(mid, hi) == Range(lo, hi)
  {
  }

  lemma RangeSnoc(lo: nat, hi: nat)
    requires lo <= hi
    ensures Range(lo, hi) + [hi] == Range(lo, hi + 1)
  {
  }

  /** The last node of a well-formed graph is never a Yield, since every
      Yield is followed by its block. */
  lemma LastNotYield(g: seq<Node>)
    requires WellFormed(g)
    ensures !PostYield(g, |g|)
  {
  }

  /** Yield ids of every node of `h`, when `h` grows `g` without touching
      which of its nodes are Yields. */
  lemma IdsGrow(g: seq<Node>, h: seq<Node>)
    requires |g| <= |h|
    requires forall i :: 0 <= i < |g| ==> SameYield(g[i].kind, h[i].kind)
    ensures YieldIds(h, Range(0, |h|)) == YieldIds(g, Range(0, |g|)) + YieldIds(h, Range(|g|, |h|))
  {
    var bs, ex := Range(0, |g|), Range(|g|, |h|);
    forall k | 0 <= k < |bs| ensures bs[k] < |g| && bs[k] < |h| && SameYield(g[bs[k]].kind, h[bs[k]].kind) {
      assert bs[k] == k;
    }
    YieldIdsExtend(g, h, bs, ex);
    RangeSplit(0, |g|, |h|);
  }

  /** The current block's statements replaced (`curr_block.add(stmt)`). */
  lemma BuiltSetStatements(g: seq<Node>, c: nat, yid: nat, ss: seq<Stmt>)
    requires Built(g, c, yid)
    ensures Built(g[c := g[c].(kind := BlockKind(ss))], c, yid)
  {
    var h := g[c := g[c].(kind := BlockKind(ss))];
    SetStatementsKeepsWellFormed(g, c, ss);
    IdsGrow(g, h);
  }

  /** A fresh empty block appended, which becomes the current block. */
  lemma BuiltNewBlock(g: seq<Node>, c: nat, yid: nat)
    requires Built(g, c, yid)
    ensures Built(g + [EmptyBlock], |g|, yid)
  {
    AppendKeepsWellFormed(g, BlockKind([]));
    AppendBlockIds(g);
  }

  /** An appended block is no Head and carries no Yield id. */
  lemma AppendBlockIds(g: seq<Node>)
    ensures forall i :: 0 <= i < |g| ==> (g + [EmptyBlock])[i] == g[i]
    ensures YieldIds(g + [EmptyBlock], Range(0, |g| + 1)) == YieldIds(g, Range(0, |g|))
  {
    var h := g + [EmptyBlock];
    IdsGrow(g, h);
    assert Range(|g|, |h|) == [|g|];
    assert YieldIds(h, [|g|]) == [];
  }

  /** A plain edge out of a block, to a node that is not a Yield's block. */
  lemma BuiltPlainEdge(g: seq<Node>, c: nat, yid: nat, src: nat, dst: nat)
    requires Built(g, c, yid) && src < |g| && dst < |g|
    requires g[src].kind.BlockKind? && !PostYield(g, dst)
    ensures Built(AddEdge(g, src, dst, Plain), c, yid)
  {
    AddPlainEdgeKeepsWellFormed(g, src, dst);
    EdgeSameNodes(g, src, dst);
    BuiltSameNodes(g, AddEdge(g, src, dst, Plain), c, yid);
  }

  /** A plain edge changes no node's kind. */
  lemma EdgeSameNodes(g: seq<Node>, src: nat, dst: nat)
    requires src < |g| && dst < |g|
    ensures forall i :: 0 <= i < |g| ==> AddEdge(g, src, dst, Plain)[i].kind == g[i].kind
  {
  }

  /** A well-formed graph of the same size, with the same Head, the same
      Yields and the current block still a block, is still under
      construction. */
  lemma BuiltSameNodes(g: seq<Node>, h: seq<Node>, c: nat, yid: nat)
    requires Built(g, c, yid) && |h| == |g| && WellFormed(h)
    requires forall i :: 0 <= i < |g| ==> SameYield(g[i].kind, h[i].kind)
    requires forall i :: 0 <= i < |g| ==> (h[i].kind.HeadKind? <==> g[i].kind.HeadKind?)
    requires h[c].kind.BlockKind?
    ensures Built(h, c, yid)
  {
    IdsGrow(g, h);
    assert Range(|g|, |h|) == [];
  }

  /** The `"F"` arm of a branch that has none yet. */
  lemma BuiltFalseEdge(g: seq<Node>, c: nat, yid: nat, src: nat, dst: nat)
    requires Built(g, c, yid) && src < |g| && dst < |g|
    requires g[src].kind.BranchKind? && g[src].kind.falseEdge.None? && !PostYield(g, dst)
    ensures Built(AddFalseEdge(g, src, dst), c, yid)
  {
    AddFalseEdgeKeepsWellFormed(g, src, dst);
    FalseEdgeSameNodes(g, src, dst);
    BuiltSameNodes(g, AddFalseEdge(g, src, dst), c, yid);
  }

  /** Setting a branch's `"F"` arm changes no node's Head- or Yield-ness. */
  lemma FalseEdgeSameNodes(g: seq<Node>, src: nat, dst: nat)
    requires src < |g| && dst < |g| && g[src].kind.BranchKind?
    ensures forall i :: 0 <= i < |g| ==> SameYield(g[i].kind, AddFalseEdge(g, src, dst)[i].kind)
    ensures forall i :: 0 <= i < |g| ==> (AddFalseEdge(g, src, dst)[i].kind.HeadKind? <==> g[i].kind.HeadKind?)
    ensures forall i :: 0 <= i < |g| && g[i].kind.BlockKind? ==> AddFalseEdge(g, src, dst)[i].kind.BlockKind?
  {
  }

  lemma IdsPair(h: seq<Node>, n: nat)
    requires |h| == n + 2
    ensures YieldIds(h, Range(n, |h|)) == YieldIds(h, [n]) + YieldIds(h, [n + 1])
  {
    assert Range(n, |h|) == [n, n + 1];
    assert [n, n + 1][..1] == [n];
  }

  lemma IdsOne(h: seq<Node>, n: nat)
    requires n < |h|
    ensures YieldIds(h, [n]) == if h[n].kind.YieldKind? then [h[n].kind.yieldId] else []
  {
    assert [n][..0] == [];
  }

  /** The ids of the two nodes appended by `add_new_yield`. */
  lemma IdsOfYieldPair(g: seq<Node>, h: seq<Node>, yid: nat)
    requires |h| == |g| + 2 && 1 <= yid
    requires YieldIds(g, Range(0, |g|)) == Range(1, yid)
    requires h[|g|].kind == YieldKind(yid) && h[|g| + 1].kind.BlockKind?
    ensures YieldIds(g, Range(0, |g|)) + YieldIds(h, Range(|g|, |h|)) == Range(1, yid + 1)
  {
    IdsPair(h, |g|);
    IdsOne(h, |g|);
    IdsOne(h, |g| + 1);
    assert YieldIds(h, Range(|g|, |h|)) == [yid];
    RangeSnoc(1, yid);
  }

  /** The ids of the two nodes appended by `add_new_branch`. */
  lemma IdsOfBranchPair(g: seq<Node>, h: seq<Node>, yid: nat)
    requires |h| == |g| + 2 && 1 <= yid
    requires YieldIds(g, Range(0, |g|)) == Range(1, yid)
    requires h[|g|].kind.BranchKind? && h[|g| + 1].kind.BlockKind?
    ensures YieldIds(g, Range(0, |g|)) + YieldIds(h, Range(|g|, |h|)) == Range(1, yid)
  {
    IdsPair(h, |g|);
    IdsOne(h, |g|);
    IdsOne(h, |g| + 1);
  }

  lemma IdsAfterYield(g: seq<Node>, h: seq<Node>, yid: nat)
    requires |h| == |g| + 2 && 1 <= yid
    requires forall i :: 0 <= i < |g| ==> SameYield(g[i].kind, h[i].kind)
    requires YieldIds(g, Range(0, |g|)) == Range(1, yid)
    requires h[|g|].kind == YieldKind(yid) && h[|g| + 1].kind.BlockKind?
    ensures YieldIds(h, Range(0, |h|)) == Range(1, yid + 1)
  {
    IdsGrow(g, h);
    IdsOfYieldPair(g, h, yid);
  }

  lemma IdsAfterBranch(g: seq<Node>, h: seq<Node>, yid: nat)
    requires |h| == |g| + 2 && 1 <= yid
    requires forall i :: 0 <= i < |g| ==> SameYield(g[i].kind, h[i].kind)
    requires YieldIds(g, Range(0, |g|)) == Range(1, yid)
    requires h[|g|].kind.BranchKind? && h[|g| + 1].kind.BlockKind?
    ensures YieldIds(h, Range(0, |h|)) == Range(1, yid)
  {
    IdsGrow(g, h);
    IdsOfBranchPair(g, h, yid);
  }

  /** `add_new_yield`: the next id goes to the new Yield. */
  lemma BuiltYield(g: seq<Node>, c: nat, yid: nat)
    requires Built(g, c, yid)
    ensures Built(WithNewYield(g, c, yid), |g| + 1, yid + 1)
  {
    NewYieldKeepsWellFormed(g, c, yid);
    YieldIdsNext(g, c, yid);
    YieldKinds(g, c, yid);
  }

  lemma YieldKinds(g: seq<Node>, c: nat, yid: nat)
    requires Built(g, c, yid)
    ensures |WithNewYield(g, c, yid)| == |g| + 2
    ensures WithNewYield(g, c, yid)[0].kind.HeadKind?
    ensures forall i :: 0 < i < |WithNewYield(g, c, yid)| ==> !WithNewYield(g, c, yid)[i].kind.HeadKind?
    ensures WithNewYield(g, c, yid)[|g| + 1].kind.BlockKind?
  {
    NewYieldShape(g, c, yid);
  }

  lemma YieldIdsNext(g: seq<Node>, c: nat, yid: nat)
    requires Built(g, c, yid)
    ensures YieldIds(WithNewYield(g, c, yid), Range(0, |g| + 2)) == Range(1, yid + 1)
  {
    var h := WithNewYield(g, c, yid);
    NewYieldShape(g, c, yid);
    IdsAfterYield(g, h, yid);
  }

  /** `add_new_branch`: no Yield is created. */
  lemma BuiltBranch(g: seq<Node>, c: nat, yid: nat, cond: Expr)
    requires Built(g, c, yid)
    ensures Built(WithNewBranch(g, c, cond), |g| + 1, yid)
  {
    NewBranchKeepsWellFormed(g, c, cond);
    BranchIdsSame(g, c, yid, cond);
    BranchKinds(g, c, yid, cond);
  }

  lemma BranchKinds(g: seq<Node>, c: nat, yid: nat, cond: Expr)
    requires Built(g, c, yid)
    ensures |WithNewBranch(g, c, cond)| == |g| + 2
    ensures WithNewBranch(g, c, cond)[0].kind.HeadKind?
    ensures forall i :: 0 < i < |WithNewBranch(g, c, cond)| ==> !WithNewBranch(g, c, cond)[i].kind.HeadKind?
    ensures WithNewBranch(g, c, cond)[|g| + 1].kind.BlockKind?
  {
    NewBranchShape(g, c, cond);
  }

  lemma BranchIdsSame(g: seq<Node>, c: nat, yid: nat, cond: Expr)
    requires Built(g, c, yid)
    ensures YieldIds(WithNewBranch(g, c, cond), Range(0, |g| + 2)) == Range(1, yid)
  {
    var h := WithNewBranch(g, c, cond);
    NewBranchShape(g, c, cond);
    IdsAfterBranch(g, h, yid);
  }

  /** `h` grows `g` in place of the current block `c`: every other node of
      `g` is untouched, and `c` is still a block with the same incoming
      edges. */
  ghost predicate Extends(g: seq<Node>, h: seq<Node>, c: nat)
  {
    c < |g| <= |h| && h[c].kind.BlockKind? && h[c].incoming == g[c].incoming &&
    forall i :: 0 <= i < |g| && i != c ==> h[i] == g[i]
  }

  /** Every Branch created from index `from` on has both arms. */
  ghost predicate BranchesComplete(g: seq<Node>, from: nat)
  {
    forall i :: from <= i < |g| && g[i].kind.BranchKind? ==>
      g[i].kind.trueEdge.Some? && g[i].kind.falseEdge.Some?
  }

  /** `while test: body` entered from block `c`: Branch `b` takes its `"T"`
      arm to the body's first block `b + 1` and its `"F"` arm to the fresh
      exit block `exit`, the last node; the body's last block `end` loops
      back to `b`. */
  ghost predicate LoopWired(g: seq<Node>, c: nat, b: nat, test: Expr, exit: nat)
  {
    b + 1 < exit == |g| - 1 &&
    g[b].kind == BranchKind(test, Some(b + 1), Some(exit)) &&
    g[b].outgoing == [Edge(b + 1, TrueLabel), Edge(exit, FalseLabel)] &&
    g[b + 1].incoming == [Edge(b, TrueLabel)] &&
    g[exit] == Node(BlockKind([]), [], [Edge(b, FalseLabel)]) &&
    exists end :: b < end < exit && g[b].incoming == [Edge(c, Plain), Edge(end, Plain)] &&
      g[end].kind.BlockKind? && Edge(b, Plain) in g[end].outgoing
  }

  /** `if test: body else: orelse` entered from block `c`: Branch `b` takes
      its `"T"` arm to `b + 1` and its `"F"` arm to a fresh `else` block;
      the ends of both arms feed the fresh join block `join`, the last node. */
  ghost predicate IfElseWired(g: seq<Node>, c: nat, b: nat, test: Expr, join: nat)
  {
    b + 2 < join == |g| - 1 &&
    g[b].incoming == [Edge(c, Plain)] &&
    g[b + 1].incoming == [Edge(b, TrueLabel)] &&
    g[join].kind == BlockKind([]) && g[join].outgoing == [] &&
    exists f :: b + 1 < f < join &&
      g[b].kind == BranchKind(test, Some(b + 1), Some(f)) &&
      g[b].outgoing == [Edge(b + 1, TrueLabel), Edge(f, FalseLabel)] &&
      g[f].incoming == [Edge(b, FalseLabel)] &&
      exists endThen, endElse :: b < endThen < f <= endElse < join &&
        g[join].incoming == [Edge(endThen, Plain), Edge(endElse, Plain)]
  }

  /** `if test: body` entered from block `c`: the `"F"` arm of Branch `b`
      goes straight to the fresh join block, which the body's end also feeds. */
  ghost predicate IfWired(g: seq<Node>, c: nat, b: nat, test: Expr, join: nat)
  {
    b + 1 < join == |g| - 1 &&
    g[b].incoming == [Edge(c, Plain)] &&
    g[b + 1].incoming == [Edge(b, TrueLabel)] &&
    g[b].kind == BranchKind(test, Some(b + 1), Some(join)) &&
    g[b].outgoing == [Edge(b + 1, TrueLabel), Edge(join, FalseLabel)] &&
    g[join].kind == BlockKind([]) && g[join].outgoing == [] &&
    exists endThen :: b < endThen < join &&
      g[join].incoming == [Edge(endThen, Plain), Edge(b, FalseLabel)]
  }

  lemma ExtendsTrans(g: seq<Node>, m: seq<Node>, h: seq<Node>, c: nat, d: nat)
    requires Extends(g, m, c) && Extends(m, h, d) && (d == c || d >= |g|)
    ensures Extends(g, h, c)
  {
  }

  lemma CompleteTrans(g: seq<Node>, m: seq<Node>, h: seq<Node>, d: nat)
    requires |g| <= |m| && Extends(m, h, d)
    requires BranchesComplete(m, |g|) && BranchesComplete(h, |m|)
    ensures BranchesComplete(h, |g|)
  {
    forall i | |g| <= i < |h| && h[i].kind.BranchKind?
      ensures h[i].kind.trueEdge.Some? && h[i].kind.falseEdge.Some?
    {
      if i < |m| && i != d {
        assert h[i] == m[i];
      }
    }
  }

  /** A node of `g` that is not its last is unchanged by `add_new_branch`
      at `c`, or is `c` with the same kind. */
  lemma NotPostYieldAfterBranch(g: seq<Node>, c: nat, yid: nat, cond: Expr, g2: seq<Node>)
    requires Built(g, c, yid)
    requires Extends(WithNewBranch(g, c, cond), g2, |g| + 1)
    ensures !PostYield(g2, |g|)
  {
    var g1 := WithNewBranch(g, c, cond);
    NewBranchShape(g, c, cond);
    LastNotYield(g);
    assert g2[|g| - 1] == g1[|g| - 1];
  }

  /** The loop back edge, the exit block and the `"F"` arm of a `while`. */
  function LoopClosed(g: seq<Node>, end: nat, b: nat): seq<Node>
    requires end < |g| && b < |g| && g[b].kind.BranchKind?
  {
    AddFalseEdge(AddEdge(g, end, b, Plain) + [EmptyBlock], b, |g|)
  }

  lemma LoopClosedNodes(g: seq<Node>, end: nat, b: nat)
    requires end < |g| && b < |g| && g[b].kind.BranchKind? && end != b
    ensures |LoopClosed(g, end, b)| == |g| + 1
    ensures forall i :: 0 <= i < |g| && i != b && i != end ==> LoopClosed(g, end, b)[i] == g[i]
    ensures LoopClosed(g, end, b)[b] ==
      Node(g[b].kind.(falseEdge := Some(|g|)), Insert(g[b].outgoing, Edge(|g|, FalseLabel)),
           Insert(g[b].incoming, Edge(end, Plain)))
    ensures LoopClosed(g, end, b)[end] == g[end].(outgoing := Insert(g[end].outgoing, Edge(b, Plain)))
    ensures LoopClosed(g, end, b)[|g|] == Node(BlockKind([]), [], [Edge(b, FalseLabel)])
  {
    var g3 := AddEdge(g, end, b, Plain);
    var g4 := g3 + [EmptyBlock];
    assert forall i :: 0 <= i < |g| ==> g4[i] == g3[i];
  }

  lemma LoopClosedBuilt(g0: seq<Node>, c0: nat, yid0: nat, test: Expr, g2: seq<Node>, end: nat, yid: nat)
    requires Built(g0, c0, yid0)
    requires Extends(WithNewBranch(g0, c0, test), g2, |g0| + 1)
    requires Built(g2, end, yid)
    ensures g2[|g0|].kind == BranchKind(test, Some(|g0| + 1), None)
    ensures Built(LoopClosed(g2, end, |g0|), |g2|, yid)
  {
    var b := |g0|;
    NewBranchShape(g0, c0, test);
    NotPostYieldAfterBranch(g0, c0, yid0, test, g2);
    BuiltPlainEdge(g2, end, yid, end, b);
    var g3 := AddEdge(g2, end, b, Plain);
    BuiltNewBlock(g3, end, yid);
    var g4 := g3 + [EmptyBlock];
    LastNotYield(g3);
    assert g4[|g2| - 1] == g3[|g2| - 1];
    assert g4[b] == g3[b];
    BuiltFalseEdge(g4, |g2|, yid, b, |g2|);
  }

  /** The shape facts every `process_stmt` step on a compound statement
      starts from: `g2` grew from `add_new_branch` at block `c0` of `g0`,
      and its current block `end` is the true-arm block or a newer one. */
  ghost predicate ArmGrown(g0: seq<Node>, c0: nat, test: Expr, g2: seq<Node>, end: nat)
  {
    c0 < |g0| && g0[c0].kind.BlockKind? &&
    Extends(WithNewBranch(g0, c0, test), g2, |g0| + 1) &&
    (end == |g0| + 1 || end >= |g0| + 2) && end < |g2| && g2[end].kind.BlockKind?
  }

  lemma WhileFrame(g0: seq<Node>, c0: nat, test: Expr, g2: seq<Node>, end: nat)
    requires ArmGrown(g0, c0, test, g2, end)
    ensures Extends(g0, LoopClosed(g2, end, |g0|), c0)
    ensures LoopClosed(g2, end, |g0|)[c0].kind == g0[c0].kind
    ensures LoopClosed(g2, end, |g0|)[c0].outgoing == Insert(g0[c0].outgoing, Edge(|g0|, Plain))
  {
    var b := |g0|;
    var g1 := WithNewBranch(g0, c0, test);
    NewBranchShape(g0, c0, test);
    assert g2[b] == g1[b];
    LoopClosedNodes(g2, end, b);
    assert g2[c0] == g1[c0];
    forall i | 0 <= i < b && i != c0 ensures LoopClosed(g2, end, b)[i] == g0[i] {
      assert g2[i] == g1[i];
    }
  }

  lemma WhileComplete(g0: seq<Node>, c0: nat, test: Expr, g2: seq<Node>, end: nat)
    requires ArmGrown(g0, c0, test, g2, end) && BranchesComplete(g2, |g0| + 2)
    ensures BranchesComplete(LoopClosed(g2, end, |g0|), |g0|)
  {
    var b := |g0|;
    var g1 := WithNewBranch(g0, c0, test);
    NewBranchShape(g0, c0, test);
    assert g2[b] == g1[b];
    var h := LoopClosed(g2, end, b);
    LoopClosedNodes(g2, end, b);
    forall i | b <= i < |h| && h[i].kind.BranchKind?
      ensures h[i].kind.trueEdge.Some? && h[i].kind.falseEdge.Some?
    {
      if i != b && i != end && i != b + 1 && i < |g2| {
        assert h[i] == g2[i];
      }
    }
  }

  lemma WhileWiring(g0: seq<Node>, c0: nat, test: Expr, g2: seq<Node>, end: nat)
    requires ArmGrown(g0, c0, test, g2, end)
    ensures LoopWired(LoopClosed(g2, end, |g0|), c0, |g0|, test, |g2|)
  {
    var b := |g0|;
    var g1 := WithNewBranch(g0, c0, test);
    NewBranchShape(g0, c0, test);
    assert g2[b] == g1[b];
    var h := LoopClosed(g2, end, b);
    LoopClosedNodes(g2, end, b);
    assert h[b + 1].incoming == g2[b + 1].incoming;
    assert b < end < |g2| && h[b].incoming == [Edge(c0, Plain), Edge(end, Plain)];
    assert h[end].kind.BlockKind? && Edge(b, Plain) in h[end].outgoing;
  }

  /** The join block of an `if` without `else`: the then-arm's end and the
      branch's `"F"` arm lead to it. */
  function IfJoined(g: seq<Node>, endThen: nat, b: nat): seq<Node>
    requires endThen < |g| && b < |g| && g[b].kind.BranchKind?
  {
    AddFalseEdge(AddEdge(g + [EmptyBlock], endThen, |g|, Plain), b, |g|)
  }

  lemma IfJoinedNodes(g: seq<Node>, endThen: nat, b: nat)
    requires endThen < |g| && b < |g| && g[b].kind.BranchKind? && endThen != b
    ensures |IfJoined(g, endThen, b)| == |g| + 1
    ensures forall i :: 0 <= i < |g| && i != b && i != endThen ==> IfJoined(g, endThen, b)[i] == g[i]
    ensures IfJoined(g, endThen, b)[b] ==
      g[b].(kind := g[b].kind.(falseEdge := Some(|g|)), outgoing := Insert(g[b].outgoing, Edge(|g|, FalseLabel)))
    ensures IfJoined(g, endThen, b)[endThen] ==
      g[endThen].(outgoing := Insert(g[endThen].outgoing, Edge(|g|, Plain)))
    ensures IfJoined(g, endThen, b)[|g|] ==
      Node(BlockKind([]), [], [Edge(endThen, Plain), Edge(b, FalseLabel)])
  {
    var g1 := g + [EmptyBlock];
    assert forall i :: 0 <= i < |g| ==> g1[i] == g[i];
  }

  lemma IfJoinedBuilt(g0: seq<Node>, c0: nat, yid0: nat, test: Expr, g2: seq<Node>, endThen: nat, yid: nat)
    requires Built(g0, c0, yid0)
    requires Extends(WithNewBranch(g0, c0, test), g2, |g0| + 1)
    requires Built(g2, endThen, yid)
    ensures g2[|g0|].kind == BranchKind(test, Some(|g0| + 1), None)
    ensures Built(IfJoined(g2, endThen, |g0|), |g2|, yid)
  {
    var b := |g0|;
    NewBranchShape(g0, c0, test);
    BuiltNewBlock(g2, endThen, yid);
    var g3 := g2 + [EmptyBlock];
    LastNotYield(g2);
    assert g3[|g2| - 1] == g2[|g2| - 1] && g3[endThen] == g2[endThen];
    BuiltPlainEdge(g3, |g2|, yid, endThen, |g2|);
    var g4 := AddEdge(g3, endThen, |g2|, Plain);
    assert g3[b] == g2[b];
    BuiltFalseEdge(g4, |g2|, yid, b, |g2|);
  }

  lemma IfFrame(g0: seq<Node>, c0: nat, test: Expr, g2: seq<Node>, endThen: nat)
    requires ArmGrown(g0, c0, test, g2, endThen)
    ensures Extends(g0, IfJoined(g2, endThen, |g0|), c0)
    ensures IfJoined(g2, endThen, |g0|)[c0].kind == g0[c0].kind
    ensures IfJoined(g2, endThen, |g0|)[c0].outgoing == Insert(g0[c0].outgoing, Edge(|g0|, Plain))
  {
    var b := |g0|;
    var g1 := WithNewBranch(g0, c0, test);
    NewBranchShape(g0, c0, test);
    assert g2[b] == g1[b];
    IfJoinedNodes(g2, endThen, b);
    assert g2[c0] == g1[c0];
    forall i | 0 <= i < b && i != c0 ensures IfJoined(g2, endThen, b)[i] == g0[i] {
      assert g2[i] == g1[i];
    }
  }

  lemma IfComplete(g0: seq<Node>, c0: nat, test: Expr, g2: seq<Node>, endThen: nat)
    requires ArmGrown(g0, c0, test, g2, endThen) && BranchesComplete(g2, |g0| + 2)
    ensures BranchesComplete(IfJoined(g2, endThen, |g0|), |g0|)
  {
    var b := |g0|;
    var g1 := WithNewBranch(g0, c0, test);
    NewBranchShape(g0, c0, test);
    assert g2[b] == g1[b];
    var h := IfJoined(g2, endThen, b);
    IfJoinedNodes(g2, endThen, b);
    forall i | b <= i < |h| && h[i].kind.BranchKind?
      ensures h[i].kind.trueEdge.Some? && h[i].kind.falseEdge.Some?
    {
      if i != b && i != endThen && i != b + 1 && i < |g2| {
        assert h[i] == g2[i];
      }
    }
  }

  lemma IfWiring(g0: seq<Node>, c0: nat, test: Expr, g2: seq<Node>, endThen: nat)
    requires ArmGrown(g0, c0, test, g2, endThen)
    ensures IfWired(IfJoined(g2, endThen, |g0|), c0, |g0|, test, |g2|)
  {
    var b := |g0|;
    var g1 := WithNewBranch(g0, c0, test);
    NewBranchShape(g0, c0, test);
    assert g2[b] == g1[b];
    IfJoinedNodes(g2, endThen, b);
    assert IfJoined(g2, endThen, b)[b + 1].incoming == g2[b + 1].incoming;
  }

  /** The else block of an `if ... else`, on the branch's `"F"` arm. */
  function ElseOpened(g: seq<Node>, b: nat): seq<Node>
    requires b < |g| && g[b].kind.BranchKind?
  {
    AddFalseEdge(g + [EmptyBlock], b, |g|)
  }

  lemma ElseOpenedNodes(g: seq<Node>, b: nat)
    requires b < |g| && g[b].kind.BranchKind?
    ensures |ElseOpened(g, b)| == |g| + 1
    ensures forall i :: 0 <= i < |g| && i != b ==> ElseOpened(g, b)[i] == g[i]
    ensures ElseOpened(g, b)[b] ==
      g[b].(kind := g[b].kind.(falseEdge := Some(|g|)), outgoing := Insert(g[b].outgoing, Edge(|g|, FalseLabel)))
    ensures ElseOpened(g, b)[|g|] == Node(BlockKind([]), [], [Edge(b, FalseLabel)])
  {
    var g1 := g + [EmptyBlock];
    assert forall i :: 0 <= i < |g| ==> g1[i] == g[i];
  }

  lemma ElseOpenedBuilt(g0: seq<Node>, c0: nat, yid0: nat, test: Expr, g2: seq<Node>, endThen: nat, yid: nat)
    requires Built(g0, c0, yid0)
    requires Extends(WithNewBranch(g0, c0, test), g2, |g0| + 1)
    requires Built(g2, endThen, yid)
    ensures g2[|g0|].kind == BranchKind(test, Some(|g0| + 1), None)
    ensures Built(ElseOpened(g2, |g0|), |g2|, yid)
  {
    var b := |g0|;
    NewBranchShape(g0, c0, test);
    BuiltNewBlock(g2, endThen, yid);
    var g3 := g2 + [EmptyBlock];
    LastNotYield(g2);
    assert g3[|g2| - 1] == g2[|g2| - 1] && g3[b] == g2[b];
    BuiltFalseEdge(g3, |g2|, yid, b, |g2|);
  }

  /** The join block of an `if ... else`, fed by the ends of both arms. */
  function ArmsJoined(g: seq<Node>, endThen: nat, endElse: nat): seq<Node>
    requires endThen < |g| && endElse < |g|
  {
    AddEdge(AddEdge(g + [EmptyBlock], endThen, |g|, Plain), endElse, |g|, Plain)
  }

  lemma ArmsJoinedNodes(g: seq<Node>, endThen: nat, endElse: nat)
    requires endThen < |g| && endElse < |g| && endThen != endElse
    ensures |ArmsJoined(g, endThen, endElse)| == |g| + 1
    ensures forall i :: 0 <= i < |g| && i != endThen && i != endElse ==> ArmsJoined(g, endThen, endElse)[i] == g[i]
    ensures ArmsJoined(g, endThen, endElse)[endThen] ==
      g[endThen].(outgoing := Insert(g[endThen].outgoing, Edge(|g|, Plain)))
    ensures ArmsJoined(g, endThen, endElse)[endElse] ==
      g[endElse].(outgoing := Insert(g[endElse].outgoing, Edge(|g|, Plain)))
    ensures ArmsJoined(g, endThen, endElse)[|g|] ==
      Node(BlockKind([]), [], [Edge(endThen, Plain), Edge(endElse, Plain)])
  {
    var g1 := g + [EmptyBlock];
    assert forall i :: 0 <= i < |g| ==> g1[i] == g[i];
  }

  lemma ArmsJoinedBuilt(g: seq<Node>, endThen: nat, endElse: nat, yid: nat)
    requires Built(g, endElse, yid) && endThen < |g| && g[endThen].kind.BlockKind?
    ensures Built(ArmsJoined(g, endThen, endElse), |g|, yid)
  {
    BuiltNewBlock(g, endElse, yid);
    var g3 := g + [EmptyBlock];
    LastNotYield(g);
    assert g3[|g| - 1] == g[|g| - 1] && g3[endThen] == g[endThen] && g3[endElse] == g[endElse];
    BuiltPlainEdge(g3, |g|, yid, endThen, |g|);
    var g4 := AddEdge(g3, endThen, |g|, Plain);
    BuiltPlainEdge(g4, |g|, yid, endElse, |g|);
  }

  /** The shape facts of an `if ... else` once both arms are processed:
      the then-arm into `g2` ending at `endThen`, the else-arm from
      `ElseOpened(g2, |g0|)` into `g4` ending at `endElse`. */
  ghost predicate ArmsGrown(g0: seq<Node>, c0: nat, test: Expr, g2: seq<Node>, endThen: nat,
                            g4: seq<Node>, endElse: nat)
  {
    ArmGrown(g0, c0, test, g2, endThen) &&
    g2[|g0|].kind.BranchKind? &&
    Extends(ElseOpened(g2, |g0|), g4, |g2|) &&
    (endElse == |g2| || endElse >= |g2| + 1) && endElse < |g4| && g4[endElse].kind.BlockKind?
  }

  lemma IfElseNodes(g0: seq<Node>, c0: nat, test: Expr, g2: seq<Node>, endThen: nat, g4: seq<Node>, endElse: nat)
    requires ArmsGrown(g0, c0, test, g2, endThen, g4, endElse)
    ensures g2[|g0|] == WithNewBranch(g0, c0, test)[|g0|]
    ensures g4[endThen] == g2[endThen]
    ensures forall i :: 0 <= i < |g2| && i != |g0| ==> g4[i] == g2[i]
    ensures g4[|g0|] == ElseOpened(g2, |g0|)[|g0|]
    ensures g4[|g2|].incoming == [Edge(|g0|, FalseLabel)]
  {
    var b := |g0|;
    var g1 := WithNewBranch(g0, c0, test);
    NewBranchShape(g0, c0, test);
    assert g2[b] == g1[b];
    ElseOpenedNodes(g2, b);
  }

  lemma IfElseFrame(g0: seq<Node>, c0: nat, test: Expr, g2: seq<Node>, endThen: nat, g4: seq<Node>, endElse: nat)
    requires ArmsGrown(g0, c0, test, g2, endThen, g4, endElse)
    ensures Extends(g0, ArmsJoined(g4, endThen, endElse), c0)
    ensures ArmsJoined(g4, endThen, endElse)[c0].kind == g0[c0].kind
    ensures ArmsJoined(g4, endThen, endElse)[c0].outgoing == Insert(g0[c0].outgoing, Edge(|g0|, Plain))
  {
    var b := |g0|;
    var g1 := WithNewBranch(g0, c0, test);
    NewBranchShape(g0, c0, test);
    IfElseNodes(g0, c0, test, g2, endThen, g4, endElse);
    var h := ArmsJoined(g4, endThen, endElse);
    ArmsJoinedNodes(g4, endThen, endElse);
    assert h[c0] == g2[c0] && g2[c0] == g1[c0];
    forall i | 0 <= i < b && i != c0 ensures h[i] == g0[i] {
      assert g2[i] == g1[i];
    }
  }

  lemma IfElseComplete(g0: seq<Node>, c0: nat, test: Expr, g2: seq<Node>, endThen: nat, g4: seq<Node>, endElse: nat)
    requires ArmsGrown(g0, c0, test, g2, endThen, g4, endElse)
    requires BranchesComplete(g2, |g0| + 2) && BranchesComplete(g4, |g2| + 1)
    ensures BranchesComplete(ArmsJoined(g4, endThen, endElse), |g0|)
  {
    var b := |g0|;
    IfElseNodes(g0, c0, test, g2, endThen, g4, endElse);
    NewBranchShape(g0, c0, test);
    ElseOpenedNodes(g2, b);
    var h := ArmsJoined(g4, endThen, endElse);
    ArmsJoinedNodes(g4, endThen, endElse);
    forall i | b <= i < |h| && h[i].kind.BranchKind?
      ensures h[i].kind.trueEdge.Some? && h[i].kind.falseEdge.Some?
    {
      if i < |g2| && i != b && i != endThen && i != b + 1 {
        assert h[i] == g4[i] == g2[i];
      } else if |g2| < i < |g4| && i != endElse {
        assert h[i] == g4[i];
      }
    }
  }

  lemma IfElseWiring(g0: seq<Node>, c0: nat, test: Expr, g2: seq<Node>, endThen: nat, g4: seq<Node>, endElse: nat)
    requires ArmsGrown(g0, c0, test, g2, endThen, g4, endElse)
    ensures IfElseWired(ArmsJoined(g4, endThen, endElse), c0, |g0|, test, |g4|)
  {
    var b := |g0|;
    IfElseNodes(g0, c0, test, g2, endThen, g4, endElse);
    NewBranchShape(g0, c0, test);
    ElseOpenedNodes(g2, b);
    var h := ArmsJoined(g4, endThen, endElse);
    ArmsJoinedNodes(g4, endThen, endElse);
    assert h[b] == g4[b];
    assert h[b + 1].incoming == g2[b + 1].incoming;
    assert b + 1 < |g2| < |g4|;
    assert b < endThen < |g2| <= endElse < |g4|;
    assert h[|g4|].incoming == [Edge(endThen, Plain), Edge(endElse, Plain)];
  }

  /** A statement appended to block `c` (`BasicBlock.add`). */
  function Appended(g: seq<Node>, c: nat, s: Stmt): seq<Node>
    requires c < |g| && g[c].kind.BlockKind?
  {
    g[c := g[c].(kind := BlockKind(g[c].kind.statements + [s]))]
  }

  /** One `process_stmt` call seen from outside: `h` grew from `g` (only
      the current block `c` of the old nodes changed, and keeps its incoming
      edges), the new current block `d` is `c` or a new node, and every new
      Branch has both arms. */
  ghost predicate Grown(g: seq<Node>, h: seq<Node>, c: nat, d: nat)
  {
    Extends(g, h, c) && (d == c || d >= |g|) && BranchesComplete(h, |g|)
  }

  /** Block `c` kept its statements and gained the edge to the first new
      node `|g|`. */
  ghost predicate Opened(g: seq<Node>, h: seq<Node>, c: nat)
  {
    c < |g| && c < |h| && h[c].kind == g[c].kind &&
    h[c].outgoing == Insert(g[c].outgoing, Edge(|g|, Plain))
  }

  lemma GrownRefl(g: seq<Node>, c: nat)
    requires c < |g| && g[c].kind.BlockKind?
    ensures Grown(g, g, c, c)
  {
  }

  lemma GrownTrans(g: seq<Node>, m: seq<Node>, h: seq<Node>, c: nat, d: nat, e: nat)
    requires Grown(g, m, c, d) && Grown(m, h, d, e)
    ensures Grown(g, h, c, e)
  {
    ExtendsTrans(g, m, h, c, d);
    CompleteTrans(g, m, h, d);
  }

  lemma AppendDone(g: seq<Node>, c: nat, yid: nat, s: Stmt)
    requires Built(g, c, yid)
    ensures Built(Appended(g, c, s), c, yid)
    ensures Grown(g, Appended(g, c, s), c, c)
  {
    BuiltSetStatements(g, c, yid, g[c].kind.statements + [s]);
  }

  lemma YieldDone(g: seq<Node>, c: nat, yid: nat)
    requires Built(g, c, yid)
    ensures Built(WithNewYield(g, c, yid), |g| + 1, yid + 1)
    ensures Grown(g, WithNewYield(g, c, yid), c, |g| + 1)
    ensures Opened(g, WithNewYield(g, c, yid), c)
  {
    YieldStep(g, c, yid);
    BuiltYield(g, c, yid);
  }

  lemma YieldStep(g: seq<Node>, c: nat, yid: nat)
    requires c < |g| && g[c].kind.BlockKind?
    ensures Extends(g, WithNewYield(g, c, yid), c)
    ensures Opened(g, WithNewYield(g, c, yid), c)
    ensures BranchesComplete(WithNewYield(g, c, yid), |g|)
  {
    NewYieldShape(g, c, yid);
  }

  /** The state after the `while` body: `g2`, current block `end`. */
  ghost predicate LoopBodyDone(g0: seq<Node>, c0: nat, yid0: nat, test: Expr, g2: seq<Node>, end: nat, yid: nat)
  {
    Built(g0, c0, yid0) && Built(g2, end, yid) &&
    Grown(WithNewBranch(g0, c0, test), g2, |g0| + 1, end) && |g0| + 1 < |g2|
  }

  lemma WhileDone(g0: seq<Node>, c0: nat, yid0: nat, test: Expr, g2: seq<Node>, end: nat, yid: nat)
    requires LoopBodyDone(g0, c0, yid0, test, g2, end, yid)
    ensures g2[|g0|].kind.BranchKind?
    ensures (AddEdge(g2, end, |g0|, Plain) + [EmptyBlock])[|g0|].kind.BranchKind?
    ensures Built(LoopClosed(g2, end, |g0|), |g2|, yid)
    ensures Grown(g0, LoopClosed(g2, end, |g0|), c0, |g2|)
    ensures Opened(g0, LoopClosed(g2, end, |g0|), c0)
    ensures LoopWired(LoopClosed(g2, end, |g0|), c0, |g0|, test, |g2|)
  {
    NewBranchShape(g0, c0, test);
    assert ArmGrown(g0, c0, test, g2, end);
    LoopClosedBuilt(g0, c0, yid0, test, g2, end, yid);
    WhileFrame(g0, c0, test, g2, end);
    WhileComplete(g0, c0, test, g2, end);
    WhileWiring(g0, c0, test, g2, end);
  }

  lemma IfDone(g0: seq<Node>, c0: nat, yid0: nat, test: Expr, g2: seq<Node>, endThen: nat, yid: nat)
    requires LoopBodyDone(g0, c0, yid0, test, g2, endThen, yid)
    ensures g2[|g0|].kind.BranchKind?
    ensures AddEdge(g2 + [EmptyBlock], endThen, |g2|, Plain)[|g0|].kind.BranchKind?
    ensures Built(IfJoined(g2, endThen, |g0|), |g2|, yid)
    ensures Grown(g0, IfJoined(g2, endThen, |g0|), c0, |g2|)
    ensures Opened(g0, IfJoined(g2, endThen, |g0|), c0)
    ensures IfWired(IfJoined(g2, endThen, |g0|), c0, |g0|, test, |g2|)
  {
    NewBranchShape(g0, c0, test);
    assert ArmGrown(g0, c0, test, g2, endThen);
    IfJoinedBuilt(g0, c0, yid0, test, g2, endThen, yid);
    IfFrame(g0, c0, test, g2, endThen);
    IfComplete(g0, c0, test, g2, endThen);
    IfWiring(g0, c0, test, g2, endThen);
  }

  lemma ElseStart(g0: seq<Node>, c0: nat, yid0: nat, test: Expr, g2: seq<Node>, endThen: nat, yid: nat)
    requires LoopBodyDone(g0, c0, yid0, test, g2, endThen, yid)
    ensures g2[|g0|].kind.BranchKind?
    ensures Built(ElseOpened(g2, |g0|), |g2|, yid)
  {
    NewBranchShape(g0, c0, test);
    ElseOpenedBuilt(g0, c0, yid0, test, g2, endThen, yid);
  }

  /** The state after both arms of an `if ... else`. */
  ghost predicate ElseBodyDone(g0: seq<Node>, c0: nat, yid0: nat, test: Expr, g2: seq<Node>, endThen: nat,
                               yid2: nat, g4: seq<Node>, endElse: nat, yid: nat)
  {
    LoopBodyDone(g0, c0, yid0, test, g2, endThen, yid2) && g2[|g0|].kind.BranchKind? &&
    Built(g4, endElse, yid) && Grown(ElseOpened(g2, |g0|), g4, |g2|, endElse)
  }

  lemma IfElseDone(g0: seq<Node>, c0: nat, yid0: nat, test: Expr, g2: seq<Node>, endThen: nat,
                   yid2: nat, g4: seq<Node>, endElse: nat, yid: nat)
    requires ElseBodyDone(g0, c0, yid0, test, g2, endThen, yid2, g4, endElse, yid)
    ensures endThen < |g4| && endElse < |g4|
    ensures Built(ArmsJoined(g4, endThen, endElse), |g4|, yid)
    ensures Grown(g0, ArmsJoined(g4, endThen, endElse), c0, |g4|)
    ensures Opened(g0, ArmsJoined(g4, endThen, endElse), c0)
    ensures IfElseWired(ArmsJoined(g4, endThen, endElse), c0, |g0|, test, |g4|)
  {
    NewBranchShape(g0, c0, test);
    ElseOpenedNodes(g2, |g0|);
    assert ArmsGrown(g0, c0, test, g2, endThen, g4, endElse);
    IfElseNodes(g0, c0, test, g2, endThen, g4, endElse);
    ArmsJoinedBuilt(g4, endThen, endElse, yid);
    IfElseFrame(g0, c0, test, g2, endThen, g4, endElse);
    IfElseComplete(g0, c0, test, g2, endThen, g4, endElse);
    IfElseWiring(g0, c0, test, g2, endThen, g4, endElse);
  }
}
