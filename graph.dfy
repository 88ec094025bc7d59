/** The nodes of Silica's control flow graph, held in an arena: a node is
    named by its index in a sequence, in creation order. Every node keeps
    the paired outgoing and incoming edge sets of `silica/cfg/types.py`
    (insertion-ordered, no entry twice); a Branch also keeps its
    `true_edge`/`false_edge` back-references. */
module Graph {
  import opened Base
  import opened PyAst

  /** Edge labels: `""` for plain flow, `"T"` and `"F"` for a branch's arms. */
  datatype Label = Plain | TrueLabel | FalseLabel

  /** One entry of an edge set: the node at the other end, and the label. */
  datatype Edge = Edge(node: nat, lbl: Label)

  datatype Kind =
    | HeadKind
    | BlockKind(statements: seq<Stmt>)
    | BranchKind(cond: Expr, trueEdge: Option<nat>, falseEdge: Option<nat>)
    | YieldKind(yieldId: nat)

  datatype Node = Node(kind: Kind, outgoing: seq<Edge>, incoming: seq<Edge>)

  const EmptyBlock := Node(BlockKind([]), [], [])

  /** Adding to an edge set: nothing happens when the entry is already there. */
  function Insert(s: seq<Edge>, e: Edge): (r: seq<Edge>)
    ensures forall x :: x in r <==> x in s || x == e
    ensures e in s ==> r == s
  {
    if e in s then s else s + [e]
  }

  /** Removing an entry from an edge set. */
  function Remove(s: seq<Edge>, e: Edge): (r: seq<Edge>)
    ensures forall x :: x in r <==> x in s && x != e
    ensures |r| <= |s|
  {
    if s == [] then []
    else (if s[0] == e then [] else [s[0]]) + Remove(s[1..], e)
  }

  /** `add_edge(source, sink, label)`: the entry `(sink, label)` joins the
      source's outgoing set and `(source, label)` the sink's incoming set. */
  function AddEdge(g: seq<Node>, src: nat, dst: nat, lbl: Label): (r: seq<Node>)
    requires src < |g| && dst < |g|
    ensures |r| == |g|
    ensures forall i :: 0 <= i < |g| ==>
      r[i] == Node(g[i].kind,
                   if i == src then Insert(g[i].outgoing, Edge(dst, lbl)) else g[i].outgoing,
                   if i == dst then Insert(g[i].incoming, Edge(src, lbl)) else g[i].incoming)
  {
    var g1 := g[src := g[src].(outgoing := Insert(g[src].outgoing, Edge(dst, lbl)))];
    g1[dst := g1[dst].(incoming := Insert(g1[dst].incoming, Edge(src, lbl)))]
  }

  /** `add_true_edge(source, sink)`: a `"T"` edge, and `true_edge` set. */
  function AddTrueEdge(g: seq<Node>, src: nat, dst: nat): (r: seq<Node>)
    requires src < |g| && dst < |g| && g[src].kind.BranchKind?
    ensures |r| == |g|
    ensures forall i :: 0 <= i < |g| ==>
      r[i] == Node(if i == src then g[i].kind.(trueEdge := Some(dst)) else g[i].kind,
                   if i == src then Insert(g[i].outgoing, Edge(dst, TrueLabel)) else g[i].outgoing,
                   if i == dst then Insert(g[i].incoming, Edge(src, TrueLabel)) else g[i].incoming)
  {
    var g1 := AddEdge(g, src, dst, TrueLabel);
    g1[src := g1[src].(kind := g1[src].kind.(trueEdge := Some(dst)))]
  }

  /** `add_false_edge(source, sink)`: an `"F"` edge, and `false_edge` set. */
  function AddFalseEdge(g: seq<Node>, src: nat, dst: nat): (r: seq<Node>)
    requires src < |g| && dst < |g| && g[src].kind.BranchKind?
    ensures |r| == |g|
    ensures forall i :: 0 <= i < |g| ==>
      r[i] == Node(if i == src then g[i].kind.(falseEdge := Some(dst)) else g[i].kind,
                   if i == src then Insert(g[i].outgoing, Edge(dst, FalseLabel)) else g[i].outgoing,
                   if i == dst then Insert(g[i].incoming, Edge(src, FalseLabel)) else g[i].incoming)
  {
    var g1 := AddEdge(g, src, dst, FalseLabel);
    g1[src := g1[src].(kind := g1[src].kind.(falseEdge := Some(dst)))]
  }

  /** Two kinds of node agree on everything but a branch's back-references. */
  predicate SameShape(k: Kind, k': Kind)
  {
    match k
    case HeadKind => k'.HeadKind?
    case BlockKind(ss) => k' == BlockKind(ss)
    case BranchKind(c, _, _) => k'.BranchKind? && k'.cond == c
    case YieldKind(id) => k' == YieldKind(id)
  }

  predicate NodeClosed(n: Node, size: nat)
  {
    (forall e :: e in n.outgoing ==> e.node < size) &&
    (forall e :: e in n.incoming ==> e.node < size) &&
    (n.kind.BranchKind? ==>
      (n.kind.trueEdge.Some? ==> n.kind.trueEdge.value < size) &&
      (n.kind.falseEdge.Some? ==> n.kind.falseEdge.value < size))
  }

  /** Every edge and back-reference names a node of the arena. */
  ghost predicate Closed(g: seq<Node>)
  {
    forall i :: 0 <= i < |g| ==> NodeClosed(g[i], |g|)
  }

  /** The edge sets are paired: `(sink, l)` is outgoing at the source exactly
      when `(source, l)` is incoming at the sink. */
  ghost predicate Paired(g: seq<Node>)
  {
    (forall i, e :: 0 <= i < |g| && e in g[i].outgoing ==>
       e.node < |g| && Edge(i, e.lbl) in g[e.node].incoming) &&
    (forall i, e :: 0 <= i < |g| && e in g[i].incoming ==>
       e.node < |g| && Edge(i, e.lbl) in g[e.node].outgoing)
  }

  /** A branch's outgoing edges carry `"T"` or `"F"`, and `true_edge`
      (`false_edge`) names exactly the sink of the `"T"` (`"F"`) edge. */
  predicate ArmsMatch(n: Node)
  {
    n.kind.BranchKind? ==>
      (forall e :: e in n.outgoing ==> e.lbl != Plain) &&
      (forall e :: e in n.outgoing && e.lbl == TrueLabel ==> n.kind.trueEdge == Some(e.node)) &&
      (forall e :: e in n.outgoing && e.lbl == FalseLabel ==> n.kind.falseEdge == Some(e.node)) &&
      (n.kind.trueEdge.Some? ==> Edge(n.kind.trueEdge.value, TrueLabel) in n.outgoing) &&
      (n.kind.falseEdge.Some? ==> Edge(n.kind.falseEdge.value, FalseLabel) in n.outgoing)
  }

  ghost predicate ArmsLabelled(g: seq<Node>)
  {
    forall i :: 0 <= i < |g| ==> ArmsMatch(g[i])
  }

  /** Node `d` is the block created right after a Yield. */
  predicate PostYield(g: seq<Node>, d: nat)
  {
    0 < d <= |g| && g[d - 1].kind.YieldKind?
  }

  /** Each Yield is followed by exactly one fresh BasicBlock: the Yield's only
      edge leads to the next node, a block whose only incoming edge is it. */
  ghost predicate YieldsFollowed(g: seq<Node>)
  {
    forall y :: 0 <= y < |g| && g[y].kind.YieldKind? ==>
      y + 1 < |g| && g[y + 1].kind.BlockKind? &&
      g[y].outgoing == [Edge(y + 1, Plain)] && g[y + 1].incoming == [Edge(y, Plain)]
  }

  /** The invariant the graph builder keeps between statements. */
  ghost predicate WellFormed(g: seq<Node>)
  {
    Closed(g) && Paired(g) && ArmsLabelled(g) && YieldsFollowed(g)
  }

  /** `r` is `g` with one more entry `(dst, l)` out of `src` and `(src, l)`
      into `dst`, and every node of the same shape. */
  ghost predicate EdgeAdded(g: seq<Node>, r: seq<Node>, src: nat, dst: nat, l: Label)
  {
    |r| == |g| && src < |g| && dst < |g| &&
    (forall i :: 0 <= i < |g| ==> SameShape(g[i].kind, r[i].kind)) &&
    (forall i, e :: 0 <= i < |g| ==>
       (e in r[i].outgoing <==> e in g[i].outgoing || (i == src && e == Edge(dst, l)))) &&
    (forall i, e :: 0 <= i < |g| ==>
       (e in r[i].incoming <==> e in g[i].incoming || (i == dst && e == Edge(src, l))))
  }

  lemma AddEdgeAdds(g: seq<Node>, src: nat, dst: nat, l: Label)
    requires src < |g| && dst < |g|
    ensures EdgeAdded(g, AddEdge(g, src, dst, l), src, dst, l)
  {
  }

  lemma AddTrueEdgeAdds(g: seq<Node>, src: nat, dst: nat)
    requires src < |g| && dst < |g| && g[src].kind.BranchKind?
    ensures EdgeAdded(g, AddTrueEdge(g, src, dst), src, dst, TrueLabel)
  {
  }

  lemma AddFalseEdgeAdds(g: seq<Node>, src: nat, dst: nat)
    requires src < |g| && dst < |g| && g[src].kind.BranchKind?
    ensures EdgeAdded(g, AddFalseEdge(g, src, dst), src, dst, FalseLabel)
  {
  }

  /** A branch's arms name nodes of an arena of `size` nodes. */
  predicate ArmInside(n: Node, size: nat)
  {
    n.kind.BranchKind? ==>
      (n.kind.trueEdge.Some? ==> n.kind.trueEdge.value < size) &&
      (n.kind.falseEdge.Some? ==> n.kind.falseEdge.value < size)
  }

  ghost predicate ArmsInside(g: seq<Node>)
  {
    forall i :: 0 <= i < |g| ==> ArmInside(g[i], |g|)
  }

  /** One more edge between two nodes of the arena keeps the edge sets
      paired and inside the arena. */
  lemma {:induction false} EdgeAddedKeepsPaired(g: seq<Node>, r: seq<Node>, src: nat, dst: nat, l: Label)
    requires Closed(g) && Paired(g) && EdgeAdded(g, r, src, dst, l) && ArmsInside(r)
    ensures Closed(r) && Paired(r)
  {
    forall i | 0 <= i < |r|
      ensures NodeClosed(r[i], |r|)
    {
      assert NodeClosed(g[i], |g|) && ArmInside(r[i], |r|);
      forall e | e in r[i].outgoing ensures e.node < |r| {
        if !(i == src && e == Edge(dst, l)) { assert e in g[i].outgoing; }
      }
      forall e | e in r[i].incoming ensures e.node < |r| {
        if !(i == dst && e == Edge(src, l)) { assert e in g[i].incoming; }
      }
    }
    forall i, e | 0 <= i < |r| && e in r[i].outgoing
      ensures e.node < |r| && Edge(i, e.lbl) in r[e.node].incoming
    {
      if !(i == src && e == Edge(dst, l)) {
        assert e in g[i].outgoing;
        assert Edge(i, e.lbl) in g[e.node].incoming;
      }
    }
    forall i, e | 0 <= i < |r| && e in r[i].incoming
      ensures e.node < |r| && Edge(i, e.lbl) in r[e.node].outgoing
    {
      if !(i == dst && e == Edge(src, l)) {
        assert e in g[i].incoming;
        assert Edge(i, e.lbl) in g[e.node].outgoing;
      }
    }
  }

  /** A new node without edges keeps the edge sets paired and inside the arena. */
  lemma AppendKeepsPaired(g: seq<Node>, k: Kind)
    requires Closed(g) && Paired(g)
    requires k.BranchKind? ==> k.trueEdge.None? && k.falseEdge.None?
    ensures Closed(g + [Node(k, [], [])]) && Paired(g + [Node(k, [], [])])
  {
    var h := g + [Node(k, [], [])];
    assert forall i :: 0 <= i < |g| ==> h[i] == g[i];
    forall i | 0 <= i < |h| ensures NodeClosed(h[i], |h|) {
      if i < |g| { assert NodeClosed(g[i], |g|); }
    }
    forall i, e | 0 <= i < |h| && e in h[i].outgoing
      ensures e.node < |h| && Edge(i, e.lbl) in h[e.node].incoming
    {
      assert e in g[i].outgoing;
    }
    forall i, e | 0 <= i < |h| && e in h[i].incoming
      ensures e.node < |h| && Edge(i, e.lbl) in h[e.node].outgoing
    {
      assert e in g[i].incoming;
    }
  }

  /** A new node without edges keeps the graph well formed. */
  lemma AppendKeepsWellFormed(g: seq<Node>, k: Kind)
    requires WellFormed(g)
    requires k.BlockKind? || (k.BranchKind? && k.trueEdge.None? && k.falseEdge.None?)
    ensures WellFormed(g + [Node(k, [], [])])
  {
    var h := g + [Node(k, [], [])];
    assert forall i :: 0 <= i < |g| ==> h[i] == g[i];
    AppendKeepsPaired(g, k);
    forall y | 0 <= y < |h| && h[y].kind.YieldKind?
      ensures y + 1 < |h| && h[y + 1].kind.BlockKind?
      ensures h[y].outgoing == [Edge(y + 1, Plain)] && h[y + 1].incoming == [Edge(y, Plain)]
    {
      assert y < |g|;
    }
  }

  /** `r` is `g` with the entry `(dst, l)` inserted out of `src` and
      `(src, l)` into `dst`, every kind keeping its shape. */
  ghost predicate EdgeInserted(g: seq<Node>, r: seq<Node>, src: nat, dst: nat, l: Label)
  {
    |r| == |g| && src < |g| && dst < |g| &&
    forall i :: 0 <= i < |g| ==>
      SameShape(g[i].kind, r[i].kind) &&
      r[i].outgoing == (if i == src then Insert(g[i].outgoing, Edge(dst, l)) else g[i].outgoing) &&
      r[i].incoming == (if i == dst then Insert(g[i].incoming, Edge(src, l)) else g[i].incoming)
  }

  lemma AddEdgeInserted(g: seq<Node>, src: nat, dst: nat)
    requires src < |g| && dst < |g|
    ensures EdgeInserted(g, AddEdge(g, src, dst, Plain), src, dst, Plain)
  {
  }

  lemma AddTrueEdgeInserted(g: seq<Node>, src: nat, dst: nat)
    requires src < |g| && dst < |g| && g[src].kind.BranchKind?
    ensures EdgeInserted(g, AddTrueEdge(g, src, dst), src, dst, TrueLabel)
  {
  }

  lemma AddFalseEdgeInserted(g: seq<Node>, src: nat, dst: nat)
    requires src < |g| && dst < |g| && g[src].kind.BranchKind?
    ensures EdgeInserted(g, AddFalseEdge(g, src, dst), src, dst, FalseLabel)
  {
  }

  /** An edge out of a node that is not a Yield, into a node that is not
      the block right after a Yield, keeps every Yield followed by its block. */
  lemma EdgeInsertedKeepsFollowed(g: seq<Node>, r: seq<Node>, src: nat, dst: nat, l: Label)
    requires YieldsFollowed(g) && EdgeInserted(g, r, src, dst, l)
    requires !g[src].kind.YieldKind? && !PostYield(g, dst)
    ensures YieldsFollowed(r)
  {
    forall y | 0 <= y < |r| && r[y].kind.YieldKind?
      ensures y + 1 < |r| && r[y + 1].kind.BlockKind?
      ensures r[y].outgoing == [Edge(y + 1, Plain)] && r[y + 1].incoming == [Edge(y, Plain)]
    {
      assert SameShape(g[y].kind, r[y].kind);
      assert g[y].kind.YieldKind?;
      assert PostYield(g, y + 1);
      assert SameShape(g[y + 1].kind, r[y + 1].kind);
    }
  }

  /** A plain edge out of a BasicBlock leaves every branch's arms as they were. */
  lemma PlainEdgeKeepsArms(g: seq<Node>, src: nat, dst: nat)
    requires Closed(g) && ArmsLabelled(g) && src < |g| && dst < |g| && g[src].kind.BlockKind?
    ensures ArmsLabelled(AddEdge(g, src, dst, Plain))
    ensures ArmsInside(AddEdge(g, src, dst, Plain))
  {
    var r := AddEdge(g, src, dst, Plain);
    forall i | 0 <= i < |r| ensures ArmsMatch(r[i]) && ArmInside(r[i], |r|) {
      assert ArmsMatch(g[i]) && NodeClosed(g[i], |g|);
    }
  }

  /** The `"T"` edge of a branch without one sets its `true_edge` and
      nothing else. */
  lemma TrueEdgeKeepsArms(g: seq<Node>, src: nat, dst: nat)
    requires Closed(g) && ArmsLabelled(g) && src < |g| && dst < |g|
    requires g[src].kind.BranchKind? && g[src].kind.trueEdge.None?
    ensures ArmsLabelled(AddTrueEdge(g, src, dst))
    ensures ArmsInside(AddTrueEdge(g, src, dst))
  {
    var r := AddTrueEdge(g, src, dst);
    forall i | 0 <= i < |r| ensures ArmsMatch(r[i]) && ArmInside(r[i], |r|) {
      assert ArmsMatch(g[i]) && NodeClosed(g[i], |g|);
    }
  }

  /** The `"F"` edge of a branch without one sets its `false_edge` and
      nothing else. */
  lemma FalseEdgeKeepsArms(g: seq<Node>, src: nat, dst: nat)
    requires Closed(g) && ArmsLabelled(g) && src < |g| && dst < |g|
    requires g[src].kind.BranchKind? && g[src].kind.falseEdge.None?
    ensures ArmsLabelled(AddFalseEdge(g, src, dst))
    ensures ArmsInside(AddFalseEdge(g, src, dst))
  {
    var r := AddFalseEdge(g, src, dst);
    forall i | 0 <= i < |r| ensures ArmsMatch(r[i]) && ArmInside(r[i], |r|) {
      assert ArmsMatch(g[i]) && NodeClosed(g[i], |g|);
    }
  }

  /** A plain edge out of a BasicBlock keeps the graph well formed, unless it
      would be a second way into the block that follows a Yield. */
  lemma AddPlainEdgeKeepsWellFormed(g: seq<Node>, src: nat, dst: nat)
    requires WellFormed(g) && src < |g| && dst < |g|
    requires g[src].kind.BlockKind? && !PostYield(g, dst)
    ensures WellFormed(AddEdge(g, src, dst, Plain))
  {
    var r := AddEdge(g, src, dst, Plain);
    AddEdgeAdds(g, src, dst, Plain);
    PlainEdgeKeepsArms(g, src, dst);
    EdgeAddedKeepsPaired(g, r, src, dst, Plain);
    AddEdgeInserted(g, src, dst);
    EdgeInsertedKeepsFollowed(g, r, src, dst, Plain);
  }

  /** The `"T"` edge of a branch that has none yet keeps the graph well formed. */
  lemma AddTrueEdgeKeepsWellFormed(g: seq<Node>, src: nat, dst: nat)
    requires WellFormed(g) && src < |g| && dst < |g|
    requires g[src].kind.BranchKind? && g[src].kind.trueEdge.None? && !PostYield(g, dst)
    ensures WellFormed(AddTrueEdge(g, src, dst))
  {
    var r := AddTrueEdge(g, src, dst);
    AddTrueEdgeAdds(g, src, dst);
    TrueEdgeKeepsArms(g, src, dst);
    EdgeAddedKeepsPaired(g, r, src, dst, TrueLabel);
    AddTrueEdgeInserted(g, src, dst);
    EdgeInsertedKeepsFollowed(g, r, src, dst, TrueLabel);
  }

  /** The `"F"` edge of a branch that has none yet keeps the graph well formed. */
  lemma AddFalseEdgeKeepsWellFormed(g: seq<Node>, src: nat, dst: nat)
    requires WellFormed(g) && src < |g| && dst < |g|
    requires g[src].kind.BranchKind? && g[src].kind.falseEdge.None? && !PostYield(g, dst)
    ensures WellFormed(AddFalseEdge(g, src, dst))
  {
    var r := AddFalseEdge(g, src, dst);
    AddFalseEdgeAdds(g, src, dst);
    FalseEdgeKeepsArms(g, src, dst);
    EdgeAddedKeepsPaired(g, r, src, dst, FalseLabel);
    AddFalseEdgeInserted(g, src, dst);
    EdgeInsertedKeepsFollowed(g, r, src, dst, FalseLabel);
  }

  /** A fresh node of kind `k` without edges, then a plain edge to it
      from `src`: the first half of `add_new_yield` and `add_new_branch`,
      and `add_new_block` after a Yield. */
  function Linked(g: seq<Node>, k: Kind, src: nat): seq<Node>
    requires src < |g|
  {
    AddEdge(g + [Node(k, [], [])], src, |g|, Plain)
  }

  lemma LinkedShape(g: seq<Node>, k: Kind, src: nat)
    requires src < |g|
    ensures |Linked(g, k, src)| == |g| + 1
    ensures forall i :: 0 <= i < |g| && i != src ==> Linked(g, k, src)[i] == g[i]
    ensures Linked(g, k, src)[src] == g[src].(outgoing := Insert(g[src].outgoing, Edge(|g|, Plain)))
    ensures Linked(g, k, src)[|g|] == Node(k, [], [Edge(src, Plain)])
  {
    var g1 := g + [Node(k, [], [])];
    assert forall i :: 0 <= i < |g| ==> g1[i] == g[i];
  }

  /** `add_new_yield`'s graph: a Yield after block `c`, then its fresh block. */
  function WithNewYield(g: seq<Node>, c: nat, id: nat): seq<Node>
    requires c < |g|
  {
    Linked(Linked(g, YieldKind(id), c), BlockKind([]), |g|)
  }

  lemma NewYieldShape(g: seq<Node>, c: nat, id: nat)
    requires c < |g|
    ensures |WithNewYield(g, c, id)| == |g| + 2
    ensures forall i :: 0 <= i < |g| && i != c ==> WithNewYield(g, c, id)[i] == g[i]
    ensures WithNewYield(g, c, id)[c] == g[c].(outgoing := Insert(g[c].outgoing, Edge(|g|, Plain)))
    ensures WithNewYield(g, c, id)[|g|] == Node(YieldKind(id), [Edge(|g| + 1, Plain)], [Edge(c, Plain)])
    ensures WithNewYield(g, c, id)[|g| + 1] == Node(BlockKind([]), [], [Edge(|g|, Plain)])
  {
    LinkedShape(g, YieldKind(id), c);
    LinkedShape(Linked(g, YieldKind(id), c), BlockKind([]), |g|);
  }

  /** A fresh node with no edges, then a plain edge to it from `src`. */
  lemma AppendLinkKeepsPaired(g: seq<Node>, k: Kind, src: nat)
    requires Closed(g) && Paired(g) && src < |g|
    requires k.BranchKind? ==> k.trueEdge.None? && k.falseEdge.None?
    ensures Closed(Linked(g, k, src)) && Paired(Linked(g, k, src))
  {
    var g1 := g + [Node(k, [], [])];
    var r := AddEdge(g1, src, |g|, Plain);
    AppendKeepsPaired(g, k);
    AddEdgeAdds(g1, src, |g|, Plain);
    forall i | 0 <= i < |r| ensures ArmInside(r[i], |r|) {
      assert NodeClosed(g1[i], |g1|);
    }
    EdgeAddedKeepsPaired(g1, r, src, |g|, Plain);
  }

  lemma NewYieldKeepsPaired(g: seq<Node>, c: nat, id: nat)
    requires Closed(g) && Paired(g) && c < |g|
    ensures Closed(WithNewYield(g, c, id)) && Paired(WithNewYield(g, c, id))
  {
    AppendLinkKeepsPaired(g, YieldKind(id), c);
    AppendLinkKeepsPaired(Linked(g, YieldKind(id), c), BlockKind([]), |g|);
  }

  lemma NewYieldKeepsWellFormed(g: seq<Node>, c: nat, id: nat)
    requires WellFormed(g) && c < |g| && g[c].kind.BlockKind?
    ensures WellFormed(WithNewYield(g, c, id))
  {
    var n := |g|;
    var r := WithNewYield(g, c, id);
    NewYieldShape(g, c, id);
    NewYieldKeepsPaired(g, c, id);
    forall i | 0 <= i < |r| ensures ArmsMatch(r[i]) {
      if i < n && i != c { assert ArmsMatch(g[i]); }
    }
    forall y | 0 <= y < |r| && r[y].kind.YieldKind?
      ensures y + 1 < |r| && r[y + 1].kind.BlockKind?
      ensures r[y].outgoing == [Edge(y + 1, Plain)] && r[y + 1].incoming == [Edge(y, Plain)]
    {
      if y < n {
        assert g[y].kind.YieldKind?;
        assert y + 1 < n;
        assert y != c;
      }
    }
  }

  /** `add_new_branch`'s graph: a Branch after block `c`, then the fresh
      block its `"T"` edge leads to. */
  function WithNewBranch(g: seq<Node>, c: nat, cond: Expr): seq<Node>
    requires c < |g|
  {
    LinkedShape(g, BranchKind(cond, None, None), c);
    WithTrueArm(Linked(g, BranchKind(cond, None, None), c))
  }

  /** The second half: a fresh block on the `"T"` arm of the last node. */
  function WithTrueArm(g: seq<Node>): seq<Node>
    requires |g| > 0 && g[|g| - 1].kind.BranchKind?
  {
    AddTrueEdge(g + [EmptyBlock], |g| - 1, |g|)
  }

  lemma NewBranchShape(g: seq<Node>, c: nat, cond: Expr)
    requires c < |g|
    ensures |WithNewBranch(g, c, cond)| == |g| + 2
    ensures forall i :: 0 <= i < |g| && i != c ==> WithNewBranch(g, c, cond)[i] == g[i]
    ensures WithNewBranch(g, c, cond)[c] == g[c].(outgoing := Insert(g[c].outgoing, Edge(|g|, Plain)))
    ensures WithNewBranch(g, c, cond)[|g|] ==
      Node(BranchKind(cond, Some(|g| + 1), None), [Edge(|g| + 1, TrueLabel)], [Edge(c, Plain)])
    ensures WithNewBranch(g, c, cond)[|g| + 1] == Node(BlockKind([]), [], [Edge(|g|, TrueLabel)])
  {
    LinkedShape(g, BranchKind(cond, None, None), c);
    TrueArmShape(Linked(g, BranchKind(cond, None, None), c));
  }

  lemma TrueArmShape(g: seq<Node>)
    requires |g| > 0 && g[|g| - 1].kind.BranchKind?
    ensures |WithTrueArm(g)| == |g| + 1
    ensures forall i :: 0 <= i < |g| - 1 ==> WithTrueArm(g)[i] == g[i]
    ensures WithTrueArm(g)[|g| - 1] ==
      Node(g[|g| - 1].kind.(trueEdge := Some(|g|)), Insert(g[|g| - 1].outgoing, Edge(|g|, TrueLabel)),
           g[|g| - 1].incoming)
    ensures WithTrueArm(g)[|g|] == Node(BlockKind([]), [], [Edge(|g| - 1, TrueLabel)])
  {
    var g3 := g + [EmptyBlock];
    assert forall i :: 0 <= i < |g| ==> g3[i] == g[i];
  }

  /** The first half of `add_new_branch` keeps the graph well formed. */
  lemma BranchLinkedKeepsWellFormed(g: seq<Node>, c: nat, cond: Expr)
    requires WellFormed(g) && c < |g| && g[c].kind.BlockKind?
    ensures WellFormed(Linked(g, BranchKind(cond, None, None), c))
  {
    var n := |g|;
    var g1 := g + [Node(BranchKind(cond, None, None), [], [])];
    AppendKeepsWellFormed(g, BranchKind(cond, None, None));
    assert !PostYield(g1, n);
    AddPlainEdgeKeepsWellFormed(g1, c, n);
  }

  /** The second half of `add_new_branch`: the fresh block on the `"T"` arm of
      the last node, a Branch without arms yet. */
  lemma TrueArmKeepsWellFormed(g: seq<Node>)
    requires WellFormed(g) && |g| > 0
    requires g[|g| - 1].kind.BranchKind? && g[|g| - 1].kind.trueEdge.None?
    ensures WellFormed(WithTrueArm(g))
  {
    var n := |g| - 1;
    AppendKeepsWellFormed(g, BlockKind([]));
    var g3 := g + [EmptyBlock];
    assert g3[n] == g[n];
    AddTrueEdgeKeepsWellFormed(g3, n, n + 1);
  }

  lemma NewBranchKeepsWellFormed(g: seq<Node>, c: nat, cond: Expr)
    requires WellFormed(g) && c < |g| && g[c].kind.BlockKind?
    ensures WellFormed(WithNewBranch(g, c, cond))
  {
    BranchLinkedKeepsWellFormed(g, c, cond);
    LinkedShape(g, BranchKind(cond, None, None), c);
    TrueArmKeepsWellFormed(Linked(g, BranchKind(cond, None, None), c));
  }

  /** Replacing a block's statements keeps the graph well formed. */
  lemma SetStatementsKeepsWellFormed(g: seq<Node>, c: nat, ss: seq<Stmt>)
    requires WellFormed(g) && c < |g| && g[c].kind.BlockKind?
    ensures WellFormed(g[c := g[c].(kind := BlockKind(ss))])
  {
    var r := g[c := g[c].(kind := BlockKind(ss))];
    forall i | 0 <= i < |r| ensures NodeClosed(r[i], |r|) && ArmsMatch(r[i]) {
      assert NodeClosed(g[i], |g|) && ArmsMatch(g[i]);
    }
    forall y | 0 <= y < |r| && r[y].kind.YieldKind?
      ensures y + 1 < |r| && r[y + 1].kind.BlockKind?
      ensures r[y].outgoing == [Edge(y + 1, Plain)] && r[y + 1].incoming == [Edge(y, Plain)]
    {
      assert g[y].kind.YieldKind?;
    }
  }

  /** Two kinds agree on being a Yield, and on its id. */
  predicate SameYield(k: Kind, k': Kind)
  {
    (k.YieldKind? <==> k'.YieldKind?) && (k.YieldKind? ==> k.yieldId == k'.yieldId)
  }

  /** The Yield ids of the listed nodes, in list order. */
  function YieldIds(g: seq<Node>, bs: seq<nat>): seq<nat>
    requires forall k :: 0 <= k < |bs| ==> bs[k] < |g|
  {
    if bs == [] then []
    else
      YieldIds(g, bs[..|bs| - 1]) +
      (match g[bs[|bs| - 1]].kind case YieldKind(id) => [id] case _ => [])
  }

  /** Changing anything but which nodes are Yields, and their ids, leaves
      the Yield ids of a list unchanged. */
  lemma {:induction false} YieldIdsFrame(g: seq<Node>, h: seq<Node>, bs: seq<nat>)
    requires forall k :: 0 <= k < |bs| ==> bs[k] < |g| && bs[k] < |h|
    requires forall k :: 0 <= k < |bs| ==> SameYield(g[bs[k]].kind, h[bs[k]].kind)
    ensures YieldIds(g, bs) == YieldIds(h, bs)
  {
    if bs != [] {
      YieldIdsFrame(g, h, bs[..|bs| - 1]);
    }
  }

  /** The Yield ids of a list extended at its end. */
  lemma {:induction false} YieldIdsExtend(g: seq<Node>, h: seq<Node>, bs: seq<nat>, extra: seq<nat>)
    requires forall k :: 0 <= k < |bs| ==> bs[k] < |g| && bs[k] < |h|
    requires forall k :: 0 <= k < |bs| ==> SameYield(g[bs[k]].kind, h[bs[k]].kind)
    requires forall k :: 0 <= k < |extra| ==> extra[k] < |h|
    ensures YieldIds(h, bs + extra) == YieldIds(g, bs) + YieldIds(h, extra)
  {
    if extra == [] {
      assert bs + extra == bs;
      YieldIdsFrame(g, h, bs);
    } else {
      YieldIdsExtend(g, h, bs, extra[..|extra| - 1]);
      assert (bs + extra)[..|bs + extra| - 1] == bs + extra[..|extra| - 1];
    }
  }

  /** The numbers `lo, lo + 1, ..., hi - 1`. */
  function Range(lo: nat, hi: nat): (r: seq<nat>)
    requires lo <= hi
  {
    seq(hi - lo, k => lo + k)
  }
}
