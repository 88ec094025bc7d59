/** `get_basic_blocks_followed_by_branches` and `bypass_conds` of
    silica/cfg/control_flow_graph.py on the arena value: a BasicBlock whose
    first successor is a Branch is sent straight to one arm when the
    Branch's condition evaluates under the block's own constants. */
module Bypass {
  import opened Base
  import opened PyAst
  import opened Graph
  import opened Transforms
  import opened Simplify
  import opened Dataflow

  /** The filter's test on block `b`: a BasicBlock whose first outgoing
      edge leads to a Branch. A BasicBlock without outgoing edges raises
      IndexError; anything else is not a BasicBlock and is skipped. */
  function FollowsBranch(g: seq<Node>, b: nat): (r: Result<bool>)
    requires b < |g| && NodeClosed(g[b], |g|)
    ensures r == Err(IndexError) <==> g[b].kind.BlockKind? && g[b].outgoing == []
    ensures r == Ok(true) <==>
      g[b].kind.BlockKind? && g[b].outgoing != [] && g[g[b].outgoing[0].node].kind.BranchKind?
  {
    if !g[b].kind.BlockKind? then Ok(false)
    else if g[b].outgoing == [] then Err(IndexError)
    else Ok(g[g[b].outgoing[0].node].kind.BranchKind?)
  }

  /** `get_basic_blocks_followed_by_branches()`: `self.blocks` filtered by
      `FollowsBranch`, in order. */
  function FollowedByBranches(g: seq<Node>, bs: seq<nat>): Result<seq<nat>>
    requires Closed(g) && Listed(bs, |g|)
  {
    if bs == [] then Ok([])
    else
      var pre :- FollowedByBranches(g, bs[..|bs| - 1]);
      var b := bs[|bs| - 1];
      var keep :- FollowsBranch(g, b);
      Ok(if keep then pre + [b] else pre)
  }

  /** A listed BasicBlock without outgoing edges, on which the filter raises. */
  predicate Stuck(g: seq<Node>, b: nat)
  {
    b < |g| && g[b].kind.BlockKind? && g[b].outgoing == []
  }

  /** The filter fails, with IndexError, exactly when some listed
      BasicBlock has no outgoing edge. */
  lemma {:induction false} FollowedByBranchesFails(g: seq<Node>, bs: seq<nat>)
    requires Closed(g) && Listed(bs, |g|)
    ensures FollowedByBranches(g, bs).Err? <==> exists k :: 0 <= k < |bs| && Stuck(g, bs[k])
    ensures FollowedByBranches(g, bs).Err? ==> FollowedByBranches(g, bs).error == IndexError
    decreases |bs|
  {
    if bs != [] {
      var pre := bs[..|bs| - 1];
      FollowedByBranchesFails(g, pre);
      assert forall k :: 0 <= k < |pre| ==> pre[k] == bs[k];
      assert NodeClosed(g[bs[|bs| - 1]], |g|);
    }
  }

  /** When it succeeds, the filter holds exactly the listed blocks that
      test true. */
  lemma {:induction false} FollowedByBranchesMembers(g: seq<Node>, bs: seq<nat>, b: nat)
    requires Closed(g) && Listed(bs, |g|) && FollowedByBranches(g, bs).Ok?
    ensures b in FollowedByBranches(g, bs).value <==> b in bs && FollowsBranch(g, b) == Ok(true)
    decreases |bs|
  {
    if bs != [] {
      var pre := bs[..|bs| - 1];
      FollowedByBranchesMembers(g, pre, b);
      assert bs == pre + [bs[|bs| - 1]];
      assert NodeClosed(g[bs[|bs| - 1]], |g|);
    }
  }

  /** What `bypass_conds` decides for block `b`: `None` leaves it alone,
      `Some(a)` sends it to node `a`. The condition of the Branch that
      follows is specialised with the block's constants and evaluated: a
      name left unbound (NameError) means no change, another exception
      propagates, a nonzero value picks `true_edge`, zero `false_edge`. An
      arm that is still unset is not modelled. */
  function Decide(g: seq<Node>, b: nat): (r: Result<Option<nat>>)
    requires Closed(g) && b < |g|
    ensures r.Ok? && r.value.Some? ==>
      FollowsBranch(g, b) == Ok(true) && r.value.value < |g| &&
      r.value in {g[g[b].outgoing[0].node].kind.trueEdge, g[g[b].outgoing[0].node].kind.falseEdge}
  {
    assert NodeClosed(g[b], |g|);
    var follows :- FollowsBranch(g, b);
    if !follows then Ok(None)
    else
      var br := g[g[b].outgoing[0].node].kind;
      var constants :- ConstantAssigns(g[b].kind.statements);
      match Eval(SpecializeConstants(br.cond, constants))
      case Unbound => Ok(None)
      case Fault => Err(EvalError)
      case Value(v) =>
        var arm := if v != 0 then br.trueEdge else br.falseEdge;
        if arm.None? then Err(Unmodelled) else Ok(Some(arm.value))
  }

  /** The rewiring itself: the block's outgoing set becomes the single
      unlabelled edge to `a`; the sink's incoming set is not touched. */
  function Redirect(g: seq<Node>, b: nat, a: nat): (r: seq<Node>)
    requires b < |g|
    ensures |r| == |g| && r[b].outgoing == [Edge(a, Plain)]
    ensures forall i :: 0 <= i < |g| ==> r[i].kind == g[i].kind && r[i].incoming == g[i].incoming
    ensures forall i :: 0 <= i < |g| && i != b ==> r[i] == g[i]
  {
    g[b := g[b].(outgoing := [Edge(a, Plain)])]
  }

  /** `bypass_conds()`: the loop over the filtered blocks, each decided on
      the graph as the earlier bypasses left it. */
  function BypassAll(g: seq<Node>, bs: seq<nat>): (r: Result<seq<Node>>)
    requires Closed(g) && Listed(bs, |g|)
    ensures r.Ok? ==> |r.value| == |g| && Closed(r.value)
    decreases |bs|
  {
    if bs == [] then Ok(g)
    else
      var h :- BypassAll(g, bs[..|bs| - 1]);
      var b := bs[|bs| - 1];
      var d :- Decide(h, b);
      if d.None? then Ok(h) else Ok(Redirect(h, b, d.value))
  }
  /** The decision for a block reads only that block and the kind of the
      node after it. */
  lemma DecideFrame(g: seq<Node>, h: seq<Node>, b: nat)
    requires Closed(g) && Closed(h) && |h| == |g| && b < |g| && h[b] == g[b]
    requires forall i :: 0 <= i < |g| ==> h[i].kind == g[i].kind
    ensures Decide(h, b) == Decide(g, b)
  {
    assert NodeClosed(g[b], |g|);
  }

  /** `bypass_conds` never changes a node's kind or incoming set (the
      sink of a redirected block does not learn of its new predecessor). */
  lemma {:induction false} BypassKeeps(g: seq<Node>, bs: seq<nat>)
    requires Closed(g) && Listed(bs, |g|) && BypassAll(g, bs).Ok?
    ensures forall i :: 0 <= i < |g| ==>
      BypassAll(g, bs).value[i].kind == g[i].kind && BypassAll(g, bs).value[i].incoming == g[i].incoming
    decreases |bs|
  {
    if bs != [] {
      BypassKeeps(g, bs[..|bs| - 1]);
    }
  }

  /** With the blocks distinct, `bypass_conds` succeeds exactly when every
      block's decision on the original graph does, and then each listed
      block's outgoing set is what its decision says, every other node's is
      unchanged. */
  lemma {:induction false} BypassOutgoing(g: seq<Node>, bs: seq<nat>)
    requires Closed(g) && Listed(bs, |g|) && Distinct(bs)
    ensures BypassAll(g, bs).Ok? <==> forall k :: 0 <= k < |bs| ==> Decide(g, bs[k]).Ok?
    ensures BypassAll(g, bs).Ok? ==> forall i :: 0 <= i < |g| ==>
      BypassAll(g, bs).value[i].outgoing ==
        if i in bs && Decide(g, i).value.Some? then [Edge(Decide(g, i).value.value, Plain)] else g[i].outgoing
    decreases |bs|
  {
    if bs != [] {
      var pre, b := bs[..|bs| - 1], bs[|bs| - 1];
      assert forall k :: 0 <= k < |pre| ==> pre[k] == bs[k];
      BypassOutgoing(g, pre);
      if BypassAll(g, pre).Ok? {
        var h := BypassAll(g, pre).value;
        BypassKeeps(g, pre);
        assert b !in pre;
        assert h[b] == g[b];
        DecideFrame(g, h, b);
      }
    }
  }

  /** What `bypass_conds` does to one block of `self.blocks` that is
      followed by a Branch, in terms of the source's promise: with the
      block's constants `c`, a condition left with an unbound name keeps
      the block as it was; a value picks the single unlabelled edge to
      `true_edge` when nonzero and to `false_edge` when zero. */
  lemma BypassBlock(g: seq<Node>, bs: seq<nat>, b: nat, c: map<string, int>)
    requires Closed(g) && Listed(bs, |g|) && Distinct(bs) && BypassAll(g, bs).Ok?
    requires b in bs && FollowsBranch(g, b) == Ok(true)
    requires ConstantAssigns(g[b].kind.statements) == Ok(c)
    ensures var br := g[g[b].outgoing[0].node].kind;
      match Eval(SpecializeConstants(br.cond, c))
      case Unbound => BypassAll(g, bs).value[b].outgoing == g[b].outgoing
      case Value(v) =>
        var arm := if v != 0 then br.trueEdge else br.falseEdge;
        arm.Some? && BypassAll(g, bs).value[b].outgoing == [Edge(arm.value, Plain)]
      case Fault => false
  {
    BypassOutgoing(g, bs);
    var k :| 0 <= k < |bs| && bs[k] == b;
    assert Decide(g, bs[k]).Ok?;
  }

  /** A Branch on the literal `True` is always bypassed to its true arm. */
  lemma DecideTrue(g: seq<Node>, b: nat)
    requires Closed(g) && b < |g| && FollowsBranch(g, b) == Ok(true)
    requires g[g[b].outgoing[0].node].kind.cond == NameConstant(true)
    requires ConstantAssigns(g[b].kind.statements).Ok?
    ensures Decide(g, b).Ok? || g[g[b].outgoing[0].node].kind.trueEdge.None?
    ensures Decide(g, b).Ok? ==> Decide(g, b).value == g[g[b].outgoing[0].node].kind.trueEdge
  {
    assert NodeClosed(g[b], |g|);
  }

  /** When the arms of the Branch that follows block `b` match its
      labelled edges, the block is only ever sent to a successor of that
      Branch. */
  lemma DecideSuccessor(g: seq<Node>, b: nat)
    requires Closed(g) && b < |g| && Decide(g, b).Ok? && Decide(g, b).value.Some?
    requires g[b].outgoing != [] && g[b].outgoing[0].node < |g| && ArmsMatch(g[g[b].outgoing[0].node])
    ensures var j := g[b].outgoing[0].node;
      Edge(Decide(g, b).value.value, TrueLabel) in g[j].outgoing ||
      Edge(Decide(g, b).value.value, FalseLabel) in g[j].outgoing
  {
    assert NodeClosed(g[b], |g|);
  }
  /** Once a block's decision has raised, `bypass_conds` raises that error. */
  lemma {:induction false} BypassAllFails(g: seq<Node>, bs: seq<nat>, k: nat)
    requires Closed(g) && Listed(bs, |g|) && k <= |bs| && BypassAll(g, bs[..k]).Err?
    ensures BypassAll(g, bs) == BypassAll(g, bs[..k])
    decreases |bs|
  {
    if k < |bs| {
      var pre := bs[..|bs| - 1];
      assert pre[..k] == bs[..k];
      BypassAllFails(g, pre, k);
    } else {
      assert bs[..k] == bs;
    }
  }

  /** One more block of the loop: it is decided on the graph the earlier
      ones left, and either raises, is left alone or is redirected. */
  lemma BypassAllStep(g: seq<Node>, bs: seq<nat>, k: nat, h: seq<Node>)
    requires Closed(g) && Listed(bs, |g|) && k < |bs| && BypassAll(g, bs[..k]) == Ok(h)
    ensures Closed(h) && bs[k] < |h|
    ensures Decide(h, bs[k]).Err? ==> BypassAll(g, bs[..k + 1]) == Err(Decide(h, bs[k]).error)
    ensures Decide(h, bs[k]).Ok? && Decide(h, bs[k]).value.None? ==> BypassAll(g, bs[..k + 1]) == Ok(h)
    ensures Decide(h, bs[k]).Ok? && Decide(h, bs[k]).value.Some? ==>
      BypassAll(g, bs[..k + 1]) == Ok(Redirect(h, bs[k], Decide(h, bs[k]).value.value))
  {
    assert bs[..k + 1][..k] == bs[..k];
  }
}
