/** `find_paths` and `collect_paths_between_yields` of
    silica/cfg/control_flow_graph.py: every path of the graph from the
    Head or a Yield up to the next Yield, as a sequence of node copies. */
module Paths {
  import opened Base
  import opened PyAst
  import opened Graph
  import opened Simplify

  /** A copy of arena node `origin` (the source's `deepcopy`). A Branch copy
      has one arm pointed at the next element of its path: `taken` says
      which (`TrueLabel` for `true_edge`, `FalseLabel` for `false_edge`);
      other copies have `Plain`. */
  datatype PathNode = PathNode(origin: nat, kind: Kind, taken: Label)

  type Path = seq<PathNode>

  /** Node `n` prepended to every path of `ps`. */
  function Prefixed(n: PathNode, ps: seq<Path>): (r: seq<Path>)
    ensures |r| == |ps| && forall k :: 0 <= k < |ps| ==> r[k] == [n] + ps[k]
  {
    seq(|ps|, k requires 0 <= k < |ps| => [n] + ps[k])
  }

  /** `find_paths(block)`, with `fuel` standing for Python's recursion
      limit. A Yield ends the path; a BasicBlock continues with its first
      outgoing edge (IndexError if it has none); a Branch lists its
      true-arm paths, then its false-arm paths; an unset arm or any other
      node raises NotImplementedError. */
  function FindPaths(g: seq<Node>, i: nat, fuel: nat): Result<seq<Path>>
    requires Closed(g) && i < |g|
    decreases fuel
  {
    assert NodeClosed(g[i], |g|);
    if fuel == 0 then Err(RecursionError)
    else match g[i].kind
      case YieldKind(_) => Ok([[PathNode(i, g[i].kind, Plain)]])
      case BlockKind(_) =>
        if g[i].outgoing == [] then Err(IndexError)
        else
          var ps :- FindPaths(g, g[i].outgoing[0].node, fuel - 1);
          Ok(Prefixed(PathNode(i, g[i].kind, Plain), ps))
      case BranchKind(_, t, f) =>
        if t.None? then Err(NotImplementedError)
        else
          var ts :- FindPaths(g, t.value, fuel - 1);
          if f.None? then Err(NotImplementedError)
          else
            var fs :- FindPaths(g, f.value, fuel - 1);
            Ok(Prefixed(PathNode(i, g[i].kind, TrueLabel), ts) + Prefixed(PathNode(i, g[i].kind, FalseLabel), fs))
      case HeadKind => Err(NotImplementedError)
  }

  /** Copy `n` is followed, in the graph, by node `next`: a BasicBlock by
      the sink of its first edge, a Branch by the arm its copy records. */
  predicate Leads(g: seq<Node>, n: PathNode, next: nat)
    requires n.origin < |g|
  {
    match n.kind
    case BlockKind(_) => n.taken == Plain && g[n.origin].outgoing != [] && g[n.origin].outgoing[0].node == next
    case BranchKind(_, t, f) =>
      (n.taken == TrueLabel && t == Some(next)) || (n.taken == FalseLabel && f == Some(next))
    case _ => false
  }

  /** `p` is a walk through `g` that stops at the first Yield it meets:
      every element is a faithful copy, each leads to the next, and only
      the last is a Yield. */
  ghost predicate Walk(g: seq<Node>, p: Path)
    decreases |p|
  {
    |p| >= 1 && p[0].origin < |g| && p[0].kind == g[p[0].origin].kind &&
    if |p| == 1 then p[0].kind.YieldKind? && p[0].taken == Plain
    else Leads(g, p[0], p[1].origin) && Walk(g, p[1..])
  }

  /** A walk ends at a Yield and meets no Yield before its last element;
      every copy has its original's kind and leads to the next element (a
      Branch copy through the arm it records). */
  lemma {:induction false} WalkEnds(g: seq<Node>, p: Path)
    requires Walk(g, p)
    ensures p[|p| - 1].kind.YieldKind?
    ensures forall k :: 0 <= k < |p| - 1 ==> !p[k].kind.YieldKind?
    ensures forall k :: 0 <= k < |p| ==> p[k].origin < |g| && p[k].kind == g[p[k].origin].kind
    ensures forall k :: 0 <= k < |p| - 1 ==> Leads(g, p[k], p[k + 1].origin)
    decreases |p|
  {
    if |p| > 1 {
      WalkEnds(g, p[1..]);
      assert forall k :: 0 < k < |p| ==> p[k] == p[1..][k - 1];
    }
  }

  /** Every path `find_paths(i)` returns is a walk from `i` to the next
      Yield. */
  lemma {:induction false} FindPathsWalk(g: seq<Node>, i: nat, fuel: nat)
    requires Closed(g) && i < |g| && FindPaths(g, i, fuel).Ok?
    ensures forall p: Path :: p in FindPaths(g, i, fuel).value ==> Walk(g, p) && p[0].origin == i
    decreases fuel
  {
    assert NodeClosed(g[i], |g|);
    var ps := FindPaths(g, i, fuel).value;
    match g[i].kind
    case YieldKind(_) =>
    case BlockKind(_) =>
      var j := g[i].outgoing[0].node;
      FindPathsWalk(g, j, fuel - 1);
      forall p: Path | p in ps ensures Walk(g, p) && p[0].origin == i {
        var q :| q in FindPaths(g, j, fuel - 1).value && p == [PathNode(i, g[i].kind, Plain)] + q;
        assert p[1..] == q;
      }
    case BranchKind(_, t, f) =>
      FindPathsWalk(g, t.value, fuel - 1);
      FindPathsWalk(g, f.value, fuel - 1);
      var ts := FindPaths(g, t.value, fuel - 1).value;
      var fs := FindPaths(g, f.value, fuel - 1).value;
      forall p: Path | p in ps ensures Walk(g, p) && p[0].origin == i {
        if p in Prefixed(PathNode(i, g[i].kind, TrueLabel), ts) {
          var q :| q in ts && p == [PathNode(i, g[i].kind, TrueLabel)] + q;
          assert p[1..] == q;
        } else {
          var q :| q in fs && p == [PathNode(i, g[i].kind, FalseLabel)] + q;
          assert p[1..] == q;
        }
      }
  }

  /** Conversely, every walk from `i` to the next Yield is among the paths
      `find_paths(i)` returns: the enumeration is exhaustive. */
  lemma {:induction false} FindPathsComplete(g: seq<Node>, i: nat, fuel: nat, p: Path)
    requires Closed(g) && i < |g| && FindPaths(g, i, fuel).Ok?
    requires Walk(g, p) && p[0].origin == i
    ensures p in FindPaths(g, i, fuel).value
    decreases fuel
  {
    assert NodeClosed(g[i], |g|);
    var n := PathNode(i, g[i].kind, p[0].taken);
    assert p[0] == n;
    match g[i].kind
    case YieldKind(_) =>
      assert p == [n];
    case BlockKind(_) =>
      var j := g[i].outgoing[0].node;
      FindPathsComplete(g, j, fuel - 1, p[1..]);
      assert p == [n] + p[1..];
    case BranchKind(_, t, f) =>
      var ts := FindPaths(g, t.value, fuel - 1).value;
      var fs := FindPaths(g, f.value, fuel - 1).value;
      assert p == [n] + p[1..];
      if p[0].taken == TrueLabel {
        FindPathsComplete(g, t.value, fuel - 1, p[1..]);
        var k :| 0 <= k < |ts| && ts[k] == p[1..];
        assert Prefixed(n, ts)[k] == p;
      } else {
        FindPathsComplete(g, f.value, fuel - 1, p[1..]);
        var k :| 0 <= k < |fs| && fs[k] == p[1..];
        assert Prefixed(n, fs)[k] == p;
      }
  }

  /** `find_paths(i)` returns exactly the walks from `i` to the next
      Yield. */
  lemma FindPathsExact(g: seq<Node>, i: nat, fuel: nat, p: Path)
    requires Closed(g) && i < |g| && FindPaths(g, i, fuel).Ok?
    ensures p in FindPaths(g, i, fuel).value <==> Walk(g, p) && p[0].origin == i
  {
    FindPathsWalk(g, i, fuel);
    if Walk(g, p) && p[0].origin == i {
      FindPathsComplete(g, i, fuel, p);
    }
  }

  /** From a Branch, every path through the true arm comes before every
      path through the false arm. */
  lemma TrueArmFirst(g: seq<Node>, i: nat, fuel: nat)
    requires Closed(g) && i < |g| && g[i].kind.BranchKind? && FindPaths(g, i, fuel).Ok?
    ensures var ps := FindPaths(g, i, fuel).value;
      (forall k :: 0 <= k < |ps| ==> ps[k][0].taken in {TrueLabel, FalseLabel}) &&
      forall a, b :: 0 <= a < b < |ps| && ps[a][0].taken == FalseLabel ==> ps[b][0].taken == FalseLabel
  {
    assert NodeClosed(g[i], |g|);
  }

  /** A path between two yields: its first element is the Head or a Yield,
      taken as it is, and the rest is a walk from the first sink of that
      node to the next Yield. */
  ghost predicate BetweenYields(g: seq<Node>, p: Path)
  {
    |p| >= 2 && p[0].origin < |g| && p[0] == PathNode(p[0].origin, g[p[0].origin].kind, Plain) &&
    (p[0].kind.YieldKind? || p[0].kind.HeadKind?) &&
    g[p[0].origin].outgoing != [] && g[p[0].origin].outgoing[0].node == p[1].origin &&
    Walk(g, p[1..])
  }

  /** `collect_paths_between_yields()`: for each Yield or Head of
      `self.blocks`, in order, the paths from its first sink, each prefixed
      with the node itself (IndexError if it has no outgoing edge). */
  function PathsBetween(g: seq<Node>, bs: seq<nat>, fuel: nat): Result<seq<Path>>
    requires Closed(g) && Listed(bs, |g|)
  {
    if bs == [] then Ok([])
    else
      var pre :- PathsBetween(g, bs[..|bs| - 1], fuel);
      var b := bs[|bs| - 1];
      assert NodeClosed(g[b], |g|);
      if !(g[b].kind.YieldKind? || g[b].kind.HeadKind?) then Ok(pre)
      else if g[b].outgoing == [] then Err(IndexError)
      else
        var ps :- FindPaths(g, g[b].outgoing[0].node, fuel);
        Ok(pre + Prefixed(PathNode(b, g[b].kind, Plain), ps))
  }

  /** Every collected path runs from a listed Head or Yield to the next
      Yield. */
  lemma {:induction false} PathsBetweenYields(g: seq<Node>, bs: seq<nat>, fuel: nat)
    requires Closed(g) && Listed(bs, |g|) && PathsBetween(g, bs, fuel).Ok?
    ensures forall p: Path :: p in PathsBetween(g, bs, fuel).value ==> BetweenYields(g, p) && p[0].origin in bs
    decreases |bs|
  {
    if bs != [] {
      var pre, b := bs[..|bs| - 1], bs[|bs| - 1];
      PathsBetweenYields(g, pre, fuel);
      assert NodeClosed(g[b], |g|);
      if (g[b].kind.YieldKind? || g[b].kind.HeadKind?) {
        var j := g[b].outgoing[0].node;
        FindPathsWalk(g, j, fuel);
        forall p: Path | p in Prefixed(PathNode(b, g[b].kind, Plain), FindPaths(g, j, fuel).value)
          ensures BetweenYields(g, p) && p[0].origin in bs
        {
          var q :| q in FindPaths(g, j, fuel).value && p == [PathNode(b, g[b].kind, Plain)] + q;
          assert p[1..] == q;
        }
      }
    }
  }

  /** Conversely, every path from a listed Head or Yield to the next Yield
      is collected. */
  lemma {:induction false} PathsBetweenComplete(g: seq<Node>, bs: seq<nat>, fuel: nat, p: Path)
    requires Closed(g) && Listed(bs, |g|) && PathsBetween(g, bs, fuel).Ok?
    requires BetweenYields(g, p) && p[0].origin in bs
    ensures p in PathsBetween(g, bs, fuel).value
    decreases |bs|
  {
    var pre, b := bs[..|bs| - 1], bs[|bs| - 1];
    var found := PathsBetween(g, pre, fuel).value;
    if p[0].origin in pre {
      PathsBetweenComplete(g, pre, fuel, p);
      var k :| 0 <= k < |found| && found[k] == p;
      assert PathsBetween(g, bs, fuel).value[k] == p;
    } else {
      assert p[0].origin == b;
      assert NodeClosed(g[b], |g|);
      var j := g[b].outgoing[0].node;
      var ps := FindPaths(g, j, fuel).value;
      FindPathsComplete(g, j, fuel, p[1..]);
      var k :| 0 <= k < |ps| && ps[k] == p[1..];
      assert p == [PathNode(b, g[b].kind, Plain)] + p[1..];
      assert PathsBetween(g, bs, fuel).value[|found| + k] == p;
    }
  }

  /** `collect_paths_between_yields()` returns exactly the paths from a
      listed Head or Yield to the next Yield. */
  lemma PathsBetweenExact(g: seq<Node>, bs: seq<nat>, fuel: nat, p: Path)
    requires Closed(g) && Listed(bs, |g|) && PathsBetween(g, bs, fuel).Ok?
    ensures p in PathsBetween(g, bs, fuel).value <==> BetweenYields(g, p) && p[0].origin in bs
  {
    PathsBetweenYields(g, bs, fuel);
    if BetweenYields(g, p) && p[0].origin in bs {
      PathsBetweenComplete(g, bs, fuel, p);
    }
  }

  /** The shape `append_state_info` relies on: the path starts at the Head
      or a Yield and ends at a Yield. */
  predicate Framed(p: Path)
  {
    |p| >= 1 && (p[0].kind.HeadKind? || p[0].kind.YieldKind?) && p[|p| - 1].kind.YieldKind?
  }

  /** Every collected path is framed. */
  lemma PathsBetweenFramed(g: seq<Node>, bs: seq<nat>, fuel: nat)
    requires Closed(g) && Listed(bs, |g|) && PathsBetween(g, bs, fuel).Ok?
    ensures forall p: Path :: p in PathsBetween(g, bs, fuel).value ==> Framed(p)
  {
    PathsBetweenYields(g, bs, fuel);
    forall p: Path | p in PathsBetween(g, bs, fuel).value ensures Framed(p) {
      WalkEnds(g, p[1..]);
      assert p[1..][|p| - 2] == p[|p| - 1];
    }
  }

  /** Once the blocks of a prefix have raised, the collection raises the
      same error. */
  lemma {:induction false} PathsBetweenPrefixFails(g: seq<Node>, bs: seq<nat>, fuel: nat, k: nat)
    requires Closed(g) && Listed(bs, |g|) && k <= |bs|
    requires PathsBetween(g, bs[..k], fuel).Err?
    ensures PathsBetween(g, bs, fuel) == PathsBetween(g, bs[..k], fuel)
    decreases |bs|
  {
    if k < |bs| {
      var pre := bs[..|bs| - 1];
      assert pre[..k] == bs[..k];
      PathsBetweenPrefixFails(g, pre, fuel, k);
    } else {
      assert bs[..k] == bs;
    }
  }
}
