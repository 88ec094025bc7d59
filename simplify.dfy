/** `ControlFlowGraph.remove_block` on the arena value: the three loops of
    silica/cfg/control_flow_graph.py:266-290 as three folds, and what the
    splice does to every edge set and back-reference. */
module Simplify {
  import opened Base
  import opened PyAst
  import opened Graph

  /** The nodes at the far end of the entries of an edge set. */
  function Ends(s: seq<Edge>): set<nat>
  {
    set e | e in s :: e.node
  }

  /** Every entry of `s` names a node of an arena of `n` nodes. */
  predicate Within(s: seq<Edge>, n: nat)
  {
    forall e :: e in s ==> e.node < n
  }

  /** No entry twice, as in the Python sets the edge lists stand for. */
  predicate NoDup(s: seq<Edge>)
  {
    forall i, j :: 0 <= i < j < |s| ==> s[i] != s[j]
  }

  /** Edge lists built by `Insert` and `Remove` stay duplicate-free, so
      the length of one is the size of the Python set. */
  lemma InsertNoDup(s: seq<Edge>, e: Edge)
    requires NoDup(s)
    ensures NoDup(Insert(s, e))
  {
  }

  lemma {:induction false} RemoveNoDup(s: seq<Edge>, e: Edge)
    requires NoDup(s)
    ensures NoDup(Remove(s, e))
    decreases |s|
  {
    if s != [] {
      RemoveNoDup(s[1..], e);
      var r := Remove(s[1..], e);
      assert forall x :: x in r ==> x in s[1..];
      assert s[0] !in s[1..];
    }
  }

  /** The first loop: every source `(s, l)` of `b` drops the entry `(b, l)`
      from its outgoing set; a missing entry raises KeyError. */
  function DropFromSources(g: seq<Node>, b: nat, sources: seq<Edge>): (r: Result<seq<Node>>)
    requires Within(sources, |g|)
    ensures r.Ok? ==> |r.value| == |g|
  {
    if sources == [] then Ok(g)
    else
      var e := sources[|sources| - 1];
      var h :- DropFromSources(g, b, sources[..|sources| - 1]);
      if Edge(b, e.lbl) in h[e.node].outgoing then
        Ok(h[e.node := h[e.node].(outgoing := Remove(h[e.node].outgoing, Edge(b, e.lbl)))])
      else Err(KeyError)
  }

  /** The second loop: every sink `(t, l)` of `b` drops the entry `(b, l)`
      from its incoming set; a missing entry raises KeyError. */
  function DropFromSinks(g: seq<Node>, b: nat, sinks: seq<Edge>): (r: Result<seq<Node>>)
    requires Within(sinks, |g|)
    ensures r.Ok? ==> |r.value| == |g|
  {
    if sinks == [] then Ok(g)
    else
      var e := sinks[|sinks| - 1];
      var h :- DropFromSinks(g, b, sinks[..|sinks| - 1]);
      if Edge(b, e.lbl) in h[e.node].incoming then
        Ok(h[e.node := h[e.node].(incoming := Remove(h[e.node].incoming, Edge(b, e.lbl)))])
      else Err(KeyError)
  }

  /** The inner loop for a source that is not a Branch: an edge labelled
      `l` from `src` to every sink of `out`. */
  function LinkAll(g: seq<Node>, src: nat, l: Label, out: seq<Edge>): (r: seq<Node>)
    requires src < |g| && Within(out, |g|)
    ensures |r| == |g|
  {
    if out == [] then g
    else AddEdge(LinkAll(g, src, l, out[..|out| - 1]), src, out[|out| - 1].node, l)
  }

  /** One pass of the third loop: source `(s, l)` of the removed block is
      linked with label `l` to the block's sinks. A Branch source takes the
      single sink as the arm `l` names (AssertionError for a plain label, or
      for more than one sink), and gets no edge when there is no sink. */
  function RelinkSource(g: seq<Node>, e: Edge, out: seq<Edge>): (r: Result<seq<Node>>)
    requires e.node < |g| && Within(out, |g|)
    ensures r.Ok? ==> |r.value| == |g|
  {
    if !g[e.node].kind.BranchKind? then Ok(LinkAll(g, e.node, e.lbl, out))
    else if |out| == 1 && e.lbl == TrueLabel then Ok(AddTrueEdge(g, e.node, out[0].node))
    else if |out| == 1 && e.lbl == FalseLabel then Ok(AddFalseEdge(g, e.node, out[0].node))
    else if out == [] then Ok(g)
    else Err(AssertionError)
  }

  /** The third loop, over the sources `inc` of the removed block. */
  function Relink(g: seq<Node>, inc: seq<Edge>, out: seq<Edge>): (r: Result<seq<Node>>)
    requires Within(inc, |g|) && Within(out, |g|)
    ensures r.Ok? ==> |r.value| == |g|
  {
    if inc == [] then Ok(g)
    else
      var h :- Relink(g, inc[..|inc| - 1], out);
      RelinkSource(h, inc[|inc| - 1], out)
  }

  /** Both edge sets of `b` name nodes of the arena. */
  predicate Removable(g: seq<Node>, b: nat)
  {
    b < |g| && Within(g[b].incoming, |g|) && Within(g[b].outgoing, |g|)
  }

  /** `remove_block(b)`: the three loops in turn, the first exception
      ending the removal. A block with an edge to itself is `Unmodelled`:
      Python then iterates a set it is changing. */
  function Splice(g: seq<Node>, b: nat): (r: Result<seq<Node>>)
    requires Removable(g, b)
  {
    var inc, out := g[b].incoming, g[b].outgoing;
    if b in Ends(inc) || b in Ends(out) then Err(Unmodelled)
    else
      var h1 :- DropFromSources(g, b, inc);
      var h2 :- DropFromSinks(h1, b, out);
      Relink(h2, inc, out)
  }

  /** The back-references of a Branch source once its arm(s) into the
      removed block are moved to the single sink. */
  function Rearmed(k: Kind, i: nat, inc: seq<Edge>, out: seq<Edge>): Kind
  {
    if k.BranchKind? && |out| == 1 then
      k.(trueEdge := if Edge(i, TrueLabel) in inc then Some(out[0].node) else k.trueEdge,
         falseEdge := if Edge(i, FalseLabel) in inc then Some(out[0].node) else k.falseEdge)
    else k
  }

  /** The first loop's effect: only outgoing sets change, and an entry
      `(b, l)` leaves the outgoing set of `s` when `(s, l)` is a source. */
  ghost predicate SourcesDropped(g: seq<Node>, h: seq<Node>, b: nat, sources: seq<Edge>)
  {
    |h| == |g| &&
    (forall i :: 0 <= i < |g| ==> h[i].kind == g[i].kind && h[i].incoming == g[i].incoming) &&
    (forall i, x :: 0 <= i < |g| ==>
      (x in h[i].outgoing <==> x in g[i].outgoing && !(x.node == b && Edge(i, x.lbl) in sources)))
  }

  /** The second loop's effect: only incoming sets change, and an entry
      `(b, l)` leaves the incoming set of `t` when `(t, l)` is a sink. */
  ghost predicate SinksDropped(g: seq<Node>, h: seq<Node>, b: nat, sinks: seq<Edge>)
  {
    |h| == |g| &&
    (forall i :: 0 <= i < |g| ==> h[i].kind == g[i].kind && h[i].outgoing == g[i].outgoing) &&
    (forall i, x :: 0 <= i < |g| ==>
      (x in h[i].incoming <==> x in g[i].incoming && !(x.node == b && Edge(i, x.lbl) in sinks)))
  }

  lemma {:induction false} DropFromSourcesEdges(g: seq<Node>, b: nat, sources: seq<Edge>, h: seq<Node>)
    requires Within(sources, |g|) && DropFromSources(g, b, sources) == Ok(h)
    ensures SourcesDropped(g, h, b, sources)
    decreases |sources|
  {
    if sources != [] {
      var pre := sources[..|sources| - 1];
      var e := sources[|sources| - 1];
      assert sources == pre + [e];
      var h0 := DropFromSources(g, b, pre).value;
      DropFromSourcesEdges(g, b, pre, h0);
    }
  }

  lemma {:induction false} DropFromSinksEdges(g: seq<Node>, b: nat, sinks: seq<Edge>, h: seq<Node>)
    requires Within(sinks, |g|) && DropFromSinks(g, b, sinks) == Ok(h)
    ensures SinksDropped(g, h, b, sinks)
    decreases |sinks|
  {
    if sinks != [] {
      var pre := sinks[..|sinks| - 1];
      var e := sinks[|sinks| - 1];
      assert sinks == pre + [e];
      var h0 := DropFromSinks(g, b, pre).value;
      DropFromSinksEdges(g, b, pre, h0);
    }
  }

  /** In a paired graph, every source of `b` does hold the entry the
      first loop removes: no KeyError. */
  lemma {:induction false} DropFromSourcesOk(g: seq<Node>, b: nat, sources: seq<Edge>)
    requires Within(sources, |g|) && NoDup(sources)
    requires forall e :: e in sources ==> Edge(b, e.lbl) in g[e.node].outgoing
    ensures DropFromSources(g, b, sources).Ok?
    decreases |sources|
  {
    if sources != [] {
      var pre := sources[..|sources| - 1];
      var e := sources[|sources| - 1];
      DropFromSourcesOk(g, b, pre);
      var h0 := DropFromSources(g, b, pre).value;
      DropFromSourcesEdges(g, b, pre, h0);
      assert Edge(e.node, e.lbl) !in pre;
    }
  }

  lemma {:induction false} DropFromSinksOk(g: seq<Node>, b: nat, sinks: seq<Edge>)
    requires Within(sinks, |g|) && NoDup(sinks)
    requires forall e :: e in sinks ==> Edge(b, e.lbl) in g[e.node].incoming
    ensures DropFromSinks(g, b, sinks).Ok?
    decreases |sinks|
  {
    if sinks != [] {
      var pre := sinks[..|sinks| - 1];
      var e := sinks[|sinks| - 1];
      DropFromSinksOk(g, b, pre);
      var h0 := DropFromSinks(g, b, pre).value;
      DropFromSinksEdges(g, b, pre, h0);
      assert Edge(e.node, e.lbl) !in pre;
    }
  }

  lemma {:induction false} LinkAllEdges(g: seq<Node>, src: nat, l: Label, out: seq<Edge>)
    requires src < |g| && Within(out, |g|)
    ensures forall i :: 0 <= i < |g| ==> LinkAll(g, src, l, out)[i].kind == g[i].kind
    ensures forall i, e :: 0 <= i < |g| ==>
      (e in LinkAll(g, src, l, out)[i].outgoing <==>
       e in g[i].outgoing || (i == src && e.lbl == l && e.node in Ends(out)))
    ensures forall i, e :: 0 <= i < |g| ==>
      (e in LinkAll(g, src, l, out)[i].incoming <==>
       e in g[i].incoming || (e == Edge(src, l) && i in Ends(out)))
    decreases |out|
  {
    if out != [] {
      var pre := out[..|out| - 1];
      var t := out[|out| - 1];
      assert out == pre + [t];
      assert Ends(out) == Ends(pre) + {t.node};
      LinkAllEdges(g, src, l, pre);
    }
  }

  /** The third loop's effect on kinds, for the sources `inc`. */
  ghost predicate KindsRelinked(g: seq<Node>, h: seq<Node>, inc: seq<Edge>, out: seq<Edge>)
  {
    |h| == |g| && forall i :: 0 <= i < |g| ==> h[i].kind == Rearmed(g[i].kind, i, inc, out)
  }

  /** The third loop's effect on outgoing sets: each source `(s, l)` of
      `inc` gains `(t, l)` for every sink `t`, and nothing is removed. */
  ghost predicate OutgoingRelinked(g: seq<Node>, h: seq<Node>, inc: seq<Edge>, out: seq<Edge>)
  {
    |h| == |g| &&
    forall i, x :: 0 <= i < |g| ==>
      (x in h[i].outgoing <==> x in g[i].outgoing || (Edge(i, x.lbl) in inc && x.node in Ends(out)))
  }

  /** The third loop's effect on incoming sets: each sink gains every
      entry of `inc`, and nothing is removed. */
  ghost predicate IncomingRelinked(g: seq<Node>, h: seq<Node>, inc: seq<Edge>, out: seq<Edge>)
  {
    |h| == |g| &&
    forall j, x :: 0 <= j < |g| ==>
      (x in h[j].incoming <==> x in g[j].incoming || (x in inc && j in Ends(out)))
  }

  lemma RelinkSourceKinds(g: seq<Node>, e: Edge, out: seq<Edge>, h: seq<Node>)
    requires e.node < |g| && Within(out, |g|) && RelinkSource(g, e, out) == Ok(h)
    ensures KindsRelinked(g, h, [e], out)
  {
    if !g[e.node].kind.BranchKind? {
      LinkAllEdges(g, e.node, e.lbl, out);
    }
    forall i | 0 <= i < |g| && i != e.node
      ensures h[i].kind == Rearmed(g[i].kind, i, [e], out)
    {
      RearmedNone(g[i].kind, i, out);
      assert Rearmed(g[i].kind, i, [e], out) == Rearmed(g[i].kind, i, [], out);
    }
  }

  lemma RelinkSourceOutgoingAt(g: seq<Node>, e: Edge, out: seq<Edge>, h: seq<Node>, i: nat, x: Edge)
    requires e.node < |g| && Within(out, |g|) && RelinkSource(g, e, out) == Ok(h) && i < |g|
    ensures x in h[i].outgoing <==> x in g[i].outgoing || (Edge(i, x.lbl) in [e] && x.node in Ends(out))
  {
    if !g[e.node].kind.BranchKind? {
      LinkAllEdges(g, e.node, e.lbl, out);
    } else if |out| == 1 {
      assert Ends(out) == {out[0].node};
    }
  }

  lemma RelinkSourceOutgoing(g: seq<Node>, e: Edge, out: seq<Edge>, h: seq<Node>)
    requires e.node < |g| && Within(out, |g|) && RelinkSource(g, e, out) == Ok(h)
    ensures OutgoingRelinked(g, h, [e], out)
  {
    forall i, x | 0 <= i < |g|
      ensures x in h[i].outgoing <==> x in g[i].outgoing || (Edge(i, x.lbl) in [e] && x.node in Ends(out))
    {
      RelinkSourceOutgoingAt(g, e, out, h, i, x);
    }
  }

  lemma RelinkSourceIncoming(g: seq<Node>, e: Edge, out: seq<Edge>, h: seq<Node>)
    requires e.node < |g| && Within(out, |g|) && RelinkSource(g, e, out) == Ok(h)
    ensures IncomingRelinked(g, h, [e], out)
  {
    if !g[e.node].kind.BranchKind? {
      LinkAllEdges(g, e.node, e.lbl, out);
    } else if |out| == 1 {
      assert Ends(out) == {out[0].node};
    }
  }

  lemma RearmedSnoc(k: Kind, i: nat, pre: seq<Edge>, e: Edge, out: seq<Edge>)
    ensures Rearmed(Rearmed(k, i, pre, out), i, [e], out) == Rearmed(k, i, pre + [e], out)
  {
  }

  lemma RearmedNone(k: Kind, i: nat, out: seq<Edge>)
    ensures Rearmed(k, i, [], out) == k
  {
    if k.BranchKind? {
      assert k == BranchKind(k.cond, k.trueEdge, k.falseEdge);
    }
  }

  lemma KindsCompose(g: seq<Node>, h0: seq<Node>, h: seq<Node>, pre: seq<Edge>, e: Edge, out: seq<Edge>)
    requires KindsRelinked(g, h0, pre, out) && KindsRelinked(h0, h, [e], out)
    ensures KindsRelinked(g, h, pre + [e], out)
  {
    forall i | 0 <= i < |g|
      ensures h[i].kind == Rearmed(g[i].kind, i, pre + [e], out)
    {
      RearmedSnoc(g[i].kind, i, pre, e, out);
    }
  }

  lemma OutgoingCompose(g: seq<Node>, h0: seq<Node>, h: seq<Node>, pre: seq<Edge>, e: Edge, out: seq<Edge>)
    requires OutgoingRelinked(g, h0, pre, out) && OutgoingRelinked(h0, h, [e], out)
    ensures OutgoingRelinked(g, h, pre + [e], out)
  {
    forall i, x | 0 <= i < |g|
      ensures x in h[i].outgoing <==> x in g[i].outgoing || (Edge(i, x.lbl) in pre + [e] && x.node in Ends(out))
    {
      assert Edge(i, x.lbl) in pre + [e] <==> Edge(i, x.lbl) in pre || Edge(i, x.lbl) in [e];
    }
  }

  lemma IncomingCompose(g: seq<Node>, h0: seq<Node>, h: seq<Node>, pre: seq<Edge>, e: Edge, out: seq<Edge>)
    requires IncomingRelinked(g, h0, pre, out) && IncomingRelinked(h0, h, [e], out)
    ensures IncomingRelinked(g, h, pre + [e], out)
  {
    forall j, x | 0 <= j < |g|
      ensures x in h[j].incoming <==> x in g[j].incoming || (x in pre + [e] && j in Ends(out))
    {
      assert x in pre + [e] <==> x in pre || x in [e];
    }
  }

  lemma KindsRelinkedNone(g: seq<Node>, out: seq<Edge>)
    ensures KindsRelinked(g, g, [], out)
  {
    forall i | 0 <= i < |g|
      ensures g[i].kind == Rearmed(g[i].kind, i, [], out)
    {
      RearmedNone(g[i].kind, i, out);
    }
  }

  /** The third loop moves, for each Branch source, the arm(s) into the
      removed block to the single sink, and changes no other kind. */
  lemma {:induction false} RelinkKinds(g: seq<Node>, inc: seq<Edge>, out: seq<Edge>, h: seq<Node>)
    requires Within(inc, |g|) && Within(out, |g|) && Relink(g, inc, out) == Ok(h)
    ensures KindsRelinked(g, h, inc, out)
    decreases |inc|
  {
    if inc == [] {
      KindsRelinkedNone(g, out);
    } else {
      var pre, e := inc[..|inc| - 1], inc[|inc| - 1];
      assert inc == pre + [e];
      var h0 := Relink(g, pre, out).value;
      assert RelinkSource(h0, e, out) == Ok(h);
      RelinkKinds(g, pre, out, h0);
      RelinkSourceKinds(h0, e, out, h);
      KindsCompose(g, h0, h, pre, e, out);
    }
  }

  /** The third loop adds, out of each source `(s, l)`, the entries
      `(t, l)` for every sink `t`, and removes none. */
  lemma {:induction false} RelinkOutgoing(g: seq<Node>, inc: seq<Edge>, out: seq<Edge>, h: seq<Node>)
    requires Within(inc, |g|) && Within(out, |g|) && Relink(g, inc, out) == Ok(h)
    ensures OutgoingRelinked(g, h, inc, out)
    decreases |inc|
  {
    if inc != [] {
      var pre, e := inc[..|inc| - 1], inc[|inc| - 1];
      assert inc == pre + [e];
      var h0 := Relink(g, pre, out).value;
      assert RelinkSource(h0, e, out) == Ok(h);
      RelinkOutgoing(g, pre, out, h0);
      RelinkSourceOutgoing(h0, e, out, h);
      OutgoingCompose(g, h0, h, pre, e, out);
    }
  }

  /** The third loop adds, into each sink, every source entry `(s, l)`,
      and removes none. */
  lemma {:induction false} RelinkIncoming(g: seq<Node>, inc: seq<Edge>, out: seq<Edge>, h: seq<Node>)
    requires Within(inc, |g|) && Within(out, |g|) && Relink(g, inc, out) == Ok(h)
    ensures IncomingRelinked(g, h, inc, out)
    decreases |inc|
  {
    if inc != [] {
      var pre, e := inc[..|inc| - 1], inc[|inc| - 1];
      assert inc == pre + [e];
      var h0 := Relink(g, pre, out).value;
      assert RelinkSource(h0, e, out) == Ok(h);
      RelinkIncoming(g, pre, out, h0);
      RelinkSourceIncoming(h0, e, out, h);
      IncomingCompose(g, h0, h, pre, e, out);
    }
  }

  /** A Branch source that the third loop cannot relink: it has several
      sinks to choose from, or its edge into the block is unlabelled. */
  predicate BadArm(g: seq<Node>, e: Edge, out: seq<Edge>)
  {
    e.node < |g| && g[e.node].kind.BranchKind? && (|out| >= 2 || (|out| == 1 && e.lbl == Plain))
  }

  /** Whether some source in `inc` is a Branch the third loop cannot relink. */
  ghost predicate AnyBadArm(g: seq<Node>, inc: seq<Edge>, out: seq<Edge>)
  {
    exists e :: e in inc && BadArm(g, e, out)
  }

  /** One step of the third loop fails, with AssertionError, exactly when
      its source is a bad arm; earlier steps never change whether a node is
      a Branch. */
  lemma RelinkSourceFails(g: seq<Node>, h0: seq<Node>, pre: seq<Edge>, e: Edge, out: seq<Edge>)
    requires KindsRelinked(g, h0, pre, out) && e.node < |g| && Within(out, |g|)
    ensures RelinkSource(h0, e, out).Err? <==> BadArm(g, e, out)
    ensures RelinkSource(h0, e, out).Err? ==> RelinkSource(h0, e, out).error == AssertionError
  {
    assert h0[e.node].kind == Rearmed(g[e.node].kind, e.node, pre, out);
  }

  /** The third loop fails, with AssertionError, exactly when some source
      is a Branch it cannot relink. */
  lemma {:induction false} RelinkFails(g: seq<Node>, inc: seq<Edge>, out: seq<Edge>)
    requires Within(inc, |g|) && Within(out, |g|)
    ensures Relink(g, inc, out).Err? <==> AnyBadArm(g, inc, out)
    ensures Relink(g, inc, out).Err? ==> Relink(g, inc, out).error == AssertionError
    decreases |inc|
  {
    if inc != [] {
      var pre := inc[..|inc| - 1];
      var e := inc[|inc| - 1];
      assert inc == pre + [e];
      RelinkFails(g, pre, out);
      assert AnyBadArm(g, inc, out) <==> AnyBadArm(g, pre, out) || BadArm(g, e, out);
      if Relink(g, pre, out).Ok? {
        var h0 := Relink(g, pre, out).value;
        RelinkKinds(g, pre, out, h0);
        RelinkSourceFails(g, h0, pre, e, out);
      }
    }
  }

  /** `Splice` taken apart into the results of its three loops. */
  lemma SpliceParts(g: seq<Node>, b: nat, h: seq<Node>) returns (h1: seq<Node>, h2: seq<Node>)
    requires Removable(g, b) && Splice(g, b) == Ok(h)
    ensures b !in Ends(g[b].incoming) && b !in Ends(g[b].outgoing)
    ensures SourcesDropped(g, h1, b, g[b].incoming) && SinksDropped(h1, h2, b, g[b].outgoing)
    ensures KindsRelinked(h2, h, g[b].incoming, g[b].outgoing)
    ensures OutgoingRelinked(h2, h, g[b].incoming, g[b].outgoing)
    ensures IncomingRelinked(h2, h, g[b].incoming, g[b].outgoing)
  {
    var inc, out := g[b].incoming, g[b].outgoing;
    h1 := DropFromSources(g, b, inc).value;
    DropFromSourcesEdges(g, b, inc, h1);
    h2 := DropFromSinks(h1, b, out).value;
    DropFromSinksEdges(h1, b, out, h2);
    RelinkKinds(h2, inc, out, h);
    RelinkOutgoing(h2, inc, out, h);
    RelinkIncoming(h2, inc, out, h);
  }

  /** What the three loops do to the edges out of node `i`. */
  lemma OutgoingAt(g: seq<Node>, h1: seq<Node>, h2: seq<Node>, h: seq<Node>,
                   b: nat, inc: seq<Edge>, out: seq<Edge>, i: nat, x: Edge)
    requires SourcesDropped(g, h1, b, inc) && SinksDropped(h1, h2, b, out)
    requires OutgoingRelinked(h2, h, inc, out) && i < |g|
    ensures x in h[i].outgoing <==>
      (x in g[i].outgoing && !(x.node == b && Edge(i, x.lbl) in inc)) ||
      (Edge(i, x.lbl) in inc && x.node in Ends(out))
  {
    assert x in h[i].outgoing <==> x in h2[i].outgoing || (Edge(i, x.lbl) in inc && x.node in Ends(out));
    assert h2[i].outgoing == h1[i].outgoing;
    assert x in h1[i].outgoing <==> x in g[i].outgoing && !(x.node == b && Edge(i, x.lbl) in inc);
  }

  /** What the three loops do to the edges into node `j`. */
  lemma IncomingAt(g: seq<Node>, h1: seq<Node>, h2: seq<Node>, h: seq<Node>,
                   b: nat, inc: seq<Edge>, out: seq<Edge>, j: nat, x: Edge)
    requires SourcesDropped(g, h1, b, inc) && SinksDropped(h1, h2, b, out)
    requires IncomingRelinked(h2, h, inc, out) && j < |g|
    ensures x in h[j].incoming <==>
      (x in g[j].incoming && !(x.node == b && Edge(j, x.lbl) in out)) ||
      (x in inc && j in Ends(out))
  {
    assert x in h[j].incoming <==> x in h2[j].incoming || (x in inc && j in Ends(out));
    assert x in h2[j].incoming <==> x in h1[j].incoming && !(x.node == b && Edge(j, x.lbl) in out);
    assert h1[j].incoming == g[j].incoming;
  }

  /** What `remove_block(b)` does to the edges out of every node: the
      entries into `b` that `b` lists as incoming are dropped, and each
      source `(s, l)` of `b` gains `(t, l)` for every sink `t` of `b`. */
  lemma SpliceOutgoing(g: seq<Node>, b: nat, h: seq<Node>)
    requires Removable(g, b) && Splice(g, b) == Ok(h)
    ensures |h| == |g|
    ensures forall i, x :: 0 <= i < |g| ==>
      (x in h[i].outgoing <==>
         (x in g[i].outgoing && !(x.node == b && Edge(i, x.lbl) in g[b].incoming)) ||
         (Edge(i, x.lbl) in g[b].incoming && x.node in Ends(g[b].outgoing)))
  {
    var h1, h2 := SpliceParts(g, b, h);
    forall i, x | 0 <= i < |g|
      ensures x in h[i].outgoing <==>
         (x in g[i].outgoing && !(x.node == b && Edge(i, x.lbl) in g[b].incoming)) ||
         (Edge(i, x.lbl) in g[b].incoming && x.node in Ends(g[b].outgoing))
    {
      OutgoingAt(g, h1, h2, h, b, g[b].incoming, g[b].outgoing, i, x);
    }
  }

  /** What `remove_block(b)` does to the edges into every node: the
      entries from `b` that `b` lists as outgoing are dropped, and each
      sink of `b` gains every source entry `(s, l)` of `b`. */
  lemma SpliceIncoming(g: seq<Node>, b: nat, h: seq<Node>)
    requires Removable(g, b) && Splice(g, b) == Ok(h)
    ensures |h| == |g|
    ensures forall j, x :: 0 <= j < |g| ==>
      (x in h[j].incoming <==>
         (x in g[j].incoming && !(x.node == b && Edge(j, x.lbl) in g[b].outgoing)) ||
         (x in g[b].incoming && j in Ends(g[b].outgoing)))
  {
    var h1, h2 := SpliceParts(g, b, h);
    forall j, x | 0 <= j < |g|
      ensures x in h[j].incoming <==>
         (x in g[j].incoming && !(x.node == b && Edge(j, x.lbl) in g[b].outgoing)) ||
         (x in g[b].incoming && j in Ends(g[b].outgoing))
    {
      IncomingAt(g, h1, h2, h, b, g[b].incoming, g[b].outgoing, j, x);
    }
  }

  /** `remove_block(b)` changes no node's kind except the arms of a Branch
      source, which move from `b` to its single sink. */
  lemma SpliceKinds(g: seq<Node>, b: nat, h: seq<Node>)
    requires Removable(g, b) && Splice(g, b) == Ok(h)
    ensures |h| == |g|
    ensures forall i :: 0 <= i < |g| ==> h[i].kind == Rearmed(g[i].kind, i, g[b].incoming, g[b].outgoing)
  {
    var h1, h2 := SpliceParts(g, b, h);
  }

  /** The entries of `self.blocks`, as a set. */
  function Elems(bs: seq<nat>): set<nat>
  {
    set x | x in bs
  }

  /** The entries of `bs` are pairwise different, as in `self.blocks`. */
  predicate Distinct(bs: seq<nat>)
  {
    forall i, j :: 0 <= i < j < |bs| ==> bs[i] != bs[j]
  }

  /** The edge sets of the nodes in `live` are paired among themselves:
      every entry of a live node names a live node that holds the matching
      entry. A removed node keeps its own edge sets, so after a removal
      this holds only for the nodes still listed. */
  ghost predicate PairedOn(g: seq<Node>, live: set<nat>)
  {
    (forall i :: i in live ==> i < |g|) &&
    (forall i, e :: i in live && e in g[i].outgoing ==>
       e.node in live && Edge(i, e.lbl) in g[e.node].incoming) &&
    (forall i, e :: i in live && e in g[i].incoming ==>
       e.node in live && Edge(i, e.lbl) in g[e.node].outgoing)
  }

  /** A graph paired everywhere is paired on all of its nodes. */
  lemma PairedEverywhere(g: seq<Node>)
    requires Paired(g)
    ensures PairedOn(g, Elems(Range(0, |g|)))
  {
    var r := Range(0, |g|);
    assert |r| == |g| && forall k :: 0 <= k < |r| ==> r[k] == k;
    forall x: nat ensures x in Elems(r) <==> x < |g| {
      if x < |g| {
        assert r[x] == x;
      }
    }
  }

  /** One outgoing entry `x` of a remaining live node `i` after the
      removal of `b`, given what the loops did to `i`'s outgoing set and to
      the incoming set of `x`'s sink: its sink remains and pairs it. */
  lemma PairedOutAt(g: seq<Node>, h: seq<Node>, b: nat, live: set<nat>, i: nat, x: Edge)
    requires PairedOn(g, live) && b in live && i in live && i != b && |h| == |g|
    requires b !in Ends(g[b].outgoing)
    requires x in h[i].outgoing
    requires x in h[i].outgoing <==>
      (x in g[i].outgoing && !(x.node == b && Edge(i, x.lbl) in g[b].incoming)) ||
      (Edge(i, x.lbl) in g[b].incoming && x.node in Ends(g[b].outgoing))
    requires x.node < |g| ==> (Edge(i, x.lbl) in h[x.node].incoming <==>
      Edge(i, x.lbl) in g[x.node].incoming ||
      (Edge(i, x.lbl) in g[b].incoming && x.node in Ends(g[b].outgoing)))
    ensures x.node in live - {b} && Edge(i, x.lbl) in h[x.node].incoming
  {
    if x.node in Ends(g[b].outgoing) {
      var t :| t in g[b].outgoing && t.node == x.node;
    }
  }

  /** The same for one incoming entry `x` of a remaining live node `j`. */
  lemma PairedInAt(g: seq<Node>, h: seq<Node>, b: nat, live: set<nat>, j: nat, x: Edge)
    requires PairedOn(g, live) && b in live && j in live && j != b && |h| == |g|
    requires b !in Ends(g[b].incoming)
    requires x in h[j].incoming
    requires x in h[j].incoming <==>
      (x in g[j].incoming && !(x.node == b && Edge(j, x.lbl) in g[b].outgoing)) ||
      (x in g[b].incoming && j in Ends(g[b].outgoing))
    requires x.node < |g| ==> (Edge(j, x.lbl) in h[x.node].outgoing <==>
      Edge(j, x.lbl) in g[x.node].outgoing ||
      (Edge(x.node, x.lbl) in g[b].incoming && j in Ends(g[b].outgoing)))
    ensures x.node in live - {b} && Edge(j, x.lbl) in h[x.node].outgoing
  {
    if x in g[b].incoming {
      assert x.node in Ends(g[b].incoming);
    }
  }

  /** After `remove_block(b)` of a live block, the blocks that remain are
      still paired among themselves: the three loops take every entry
      naming `b` out of its neighbours and pair each source of `b` with
      each of its sinks. */
  lemma SplicePaired(g: seq<Node>, b: nat, h: seq<Node>, live: set<nat>)
    requires Removable(g, b) && PairedOn(g, live) && b in live && Splice(g, b) == Ok(h)
    ensures PairedOn(h, live - {b})
  {
    var inc, out := g[b].incoming, g[b].outgoing;
    var h1, h2 := SpliceParts(g, b, h);
    forall i, x | i in live - {b} && x in h[i].outgoing
      ensures x.node in live - {b} && Edge(i, x.lbl) in h[x.node].incoming
    {
      OutgoingAt(g, h1, h2, h, b, inc, out, i, x);
      if x.node < |g| {
        IncomingAt(g, h1, h2, h, b, inc, out, x.node, Edge(i, x.lbl));
      }
      PairedOutAt(g, h, b, live, i, x);
    }
    forall j, x | j in live - {b} && x in h[j].incoming
      ensures x.node in live - {b} && Edge(j, x.lbl) in h[x.node].outgoing
    {
      IncomingAt(g, h1, h2, h, b, inc, out, j, x);
      if x.node < |g| {
        OutgoingAt(g, h1, h2, h, b, inc, out, x.node, Edge(j, x.lbl));
      }
      PairedInAt(g, h, b, live, j, x);
    }
  }

  /** The removed block keeps its own edge sets, so a graph paired
      everywhere is no longer paired once a block with a sink is removed:
      that sink no longer lists the block. */
  lemma SpliceUnpairs(g: seq<Node>, b: nat, h: seq<Node>)
    requires Removable(g, b) && Paired(g) && Splice(g, b) == Ok(h) && g[b].outgoing != []
    ensures !Paired(h)
  {
    var inc, out := g[b].incoming, g[b].outgoing;
    var h1, h2 := SpliceParts(g, b, h);
    var e := out[0];
    OutgoingAt(g, h1, h2, h, b, inc, out, b, e);
    assert e in h[b].outgoing by {
      assert Edge(b, e.lbl).node == b;
    }
    IncomingAt(g, h1, h2, h, b, inc, out, e.node, Edge(b, e.lbl));
    assert Edge(b, e.lbl) !in h[e.node].incoming;
  }

  /** After `remove_block(b)` of a live block, the removed block keeps its
      kind and its edge sets, and no live block has an edge to or from it. */
  lemma SpliceDetaches(g: seq<Node>, b: nat, h: seq<Node>, live: set<nat>)
    requires Removable(g, b) && PairedOn(g, live) && b in live && Splice(g, b) == Ok(h)
    ensures |h| == |g| && h[b].kind == g[b].kind
    ensures forall x :: x in h[b].outgoing <==> x in g[b].outgoing
    ensures forall x :: x in h[b].incoming <==> x in g[b].incoming
    ensures forall i, x :: i in live && i != b && x in h[i].outgoing ==> x.node != b
    ensures forall j, x :: j in live && j != b && x in h[j].incoming ==> x.node != b
  {
    SpliceKeepsRemoved(g, b, h);
    SplicePaired(g, b, h, live);
    forall i, x | i in live && i != b && x in h[i].outgoing ensures x.node != b {
      assert i in live - {b};
    }
    forall j, x | j in live && j != b && x in h[j].incoming ensures x.node != b {
      assert j in live - {b};
    }
  }

  /** `remove_block(b)` leaves the removed block's own kind and edge sets
      as they were. */
  lemma SpliceKeepsRemoved(g: seq<Node>, b: nat, h: seq<Node>)
    requires Removable(g, b) && Splice(g, b) == Ok(h)
    ensures |h| == |g| && h[b].kind == g[b].kind
    ensures forall x :: x in h[b].outgoing <==> x in g[b].outgoing
    ensures forall x :: x in h[b].incoming <==> x in g[b].incoming
  {
    var inc, out := g[b].incoming, g[b].outgoing;
    var h1, h2 := SpliceParts(g, b, h);
    forall x ensures x in h[b].outgoing <==> x in g[b].outgoing {
      OutgoingAt(g, h1, h2, h, b, inc, out, b, x);
      assert x.node in Ends(out) ==> x.node != b;
      assert Edge(b, x.lbl).node in Ends(inc) ==> b != b;
    }
    forall x ensures x in h[b].incoming <==> x in g[b].incoming {
      IncomingAt(g, h1, h2, h, b, inc, out, b, x);
      assert Edge(b, x.lbl).node in Ends(out) ==> b != b;
    }
    RearmedNone(g[b].kind, b, out);
    assert Edge(b, TrueLabel).node !in Ends(inc) && Edge(b, FalseLabel).node !in Ends(inc);
  }

  /** For a live block whose edge lists hold no duplicates, the first two
      loops of `remove_block(b)` always find the entries they remove, so
      the removal fails only in the third loop: with AssertionError,
      exactly when some source of `b` is a Branch that cannot be
      relinked. */
  lemma SpliceOutcome(g: seq<Node>, b: nat, live: set<nat>)
    requires Removable(g, b) && PairedOn(g, live) && b in live
    requires NoDup(g[b].incoming) && NoDup(g[b].outgoing)
    requires b !in Ends(g[b].incoming) && b !in Ends(g[b].outgoing)
    ensures Splice(g, b).Err? <==> AnyBadArm(g, g[b].incoming, g[b].outgoing)
    ensures Splice(g, b).Err? ==> Splice(g, b).error == AssertionError
  {
    var inc, out := g[b].incoming, g[b].outgoing;
    DropFromSourcesOk(g, b, inc);
    var h1 := DropFromSources(g, b, inc).value;
    DropFromSourcesEdges(g, b, inc, h1);
    DropFromSinksOk(h1, b, out);
    var h2 := DropFromSinks(h1, b, out).value;
    DropFromSinksEdges(h1, b, out, h2);
    RelinkFails(h2, inc, out);
    forall e | e in inc ensures BadArm(h2, e, out) == BadArm(g, e, out) {
      assert h2[e.node].kind == h1[e.node].kind == g[e.node].kind;
    }
    assert AnyBadArm(h2, inc, out) == AnyBadArm(g, inc, out);
  }

  /** Once one of the three loops has failed on a prefix of its entries,
      the whole removal fails with that error. */
  lemma {:induction false} DropFromSourcesFails(g: seq<Node>, b: nat, s: seq<Edge>, k: nat)
    requires Within(s, |g|) && k <= |s| && DropFromSources(g, b, s[..k]).Err?
    ensures DropFromSources(g, b, s) == DropFromSources(g, b, s[..k])
    decreases |s|
  {
    if k < |s| {
      var pre := s[..|s| - 1];
      assert pre[..k] == s[..k];
      DropFromSourcesFails(g, b, pre, k);
    } else {
      assert s[..k] == s;
    }
  }

  lemma {:induction false} DropFromSinksFails(g: seq<Node>, b: nat, s: seq<Edge>, k: nat)
    requires Within(s, |g|) && k <= |s| && DropFromSinks(g, b, s[..k]).Err?
    ensures DropFromSinks(g, b, s) == DropFromSinks(g, b, s[..k])
    decreases |s|
  {
    if k < |s| {
      var pre := s[..|s| - 1];
      assert pre[..k] == s[..k];
      DropFromSinksFails(g, b, pre, k);
    } else {
      assert s[..k] == s;
    }
  }

  lemma {:induction false} RelinkPrefixFails(g: seq<Node>, inc: seq<Edge>, out: seq<Edge>, k: nat)
    requires Within(inc, |g|) && Within(out, |g|) && k <= |inc| && Relink(g, inc[..k], out).Err?
    ensures Relink(g, inc, out) == Relink(g, inc[..k], out)
    decreases |inc|
  {
    if k < |inc| {
      var pre := inc[..|inc| - 1];
      assert pre[..k] == inc[..k];
      RelinkPrefixFails(g, pre, out, k);
    } else {
      assert inc[..k] == inc;
    }
  }

  /** `remove_block(b)` leaves every edge and back-reference inside the arena. */
  lemma SpliceClosed(g: seq<Node>, b: nat, h: seq<Node>)
    requires Closed(g) && Removable(g, b) && Splice(g, b) == Ok(h)
    ensures |h| == |g| && Closed(h)
  {
    var h1, h2 := SpliceParts(g, b, h);
    var inc, out := g[b].incoming, g[b].outgoing;
    forall i | 0 <= i < |h| ensures NodeClosed(h[i], |h|) {
      assert NodeClosed(g[i], |g|);
      forall x | x in h[i].outgoing ensures x.node < |h| {
        OutgoingAt(g, h1, h2, h, b, inc, out, i, x);
      }
      forall x | x in h[i].incoming ensures x.node < |h| {
        IncomingAt(g, h1, h2, h, b, inc, out, i, x);
      }
    }
  }

  /** The two clean-up passes of `build`: `consolidate_empty_blocks`
      drops BasicBlocks without statements, `remove_if_trues` drops
      Branches on the constant `True`. */
  datatype Cleanup = EmptyBlocks | IfTrues

  /** Whether the pass removes a node of this kind. */
  predicate Doomed(p: Cleanup, k: Kind)
  {
    match p
    case EmptyBlocks => k == BlockKind([])
    case IfTrues => k.BranchKind? && k.cond == NameConstant(true)
  }

  /** Every entry of `bs` is a node of an arena of `n` nodes. */
  predicate Listed(bs: seq<nat>, n: nat)
  {
    forall i :: 0 <= i < |bs| ==> bs[i] < n
  }

  /** One clean-up pass over `self.blocks`: each doomed block, judged on
      the graph as the earlier removals left it, is removed; the others
      form the new `self.blocks`, in order. */
  function Sweep(g: seq<Node>, bs: seq<nat>, p: Cleanup): (r: Result<(seq<Node>, seq<nat>)>)
    requires Closed(g) && Listed(bs, |g|)
    ensures r.Ok? ==> |r.value.0| == |g| && Closed(r.value.0) && Listed(r.value.1, |g|)
    decreases |bs|
  {
    if bs == [] then Ok((g, []))
    else
      var acc :- Sweep(g, bs[..|bs| - 1], p);
      var b := bs[|bs| - 1];
      if Doomed(p, acc.0[b].kind) then
        assert NodeClosed(acc.0[b], |acc.0|);
        var h :- Splice(acc.0, b);
        SpliceClosed(acc.0, b, h);
        Ok((h, acc.1))
      else Ok((acc.0, acc.1 + [b]))
  }

  /** The blocks of `bs` that the pass keeps, judged on `g`. */
  function Kept(g: seq<Node>, bs: seq<nat>, p: Cleanup): (r: seq<nat>)
    requires Listed(bs, |g|)
  {
    if bs == [] then []
    else Kept(g, bs[..|bs| - 1], p) + (if Doomed(p, g[bs[|bs| - 1]].kind) then [] else [bs[|bs| - 1]])
  }

  /** Moving a Branch's arms never changes whether a pass removes it. */
  lemma DoomedRearmed(p: Cleanup, k: Kind, i: nat, inc: seq<Edge>, out: seq<Edge>)
    ensures Doomed(p, Rearmed(k, i, inc, out)) == Doomed(p, k)
  {
  }

  /** A removal keeps every node's doom. */
  lemma SpliceDoom(g: seq<Node>, b: nat, h: seq<Node>, p: Cleanup)
    requires Removable(g, b) && Splice(g, b) == Ok(h)
    ensures |h| == |g|
    ensures forall i :: 0 <= i < |g| ==> Doomed(p, h[i].kind) == Doomed(p, g[i].kind)
  {
    SpliceKinds(g, b, h);
    forall i | 0 <= i < |g| ensures Doomed(p, h[i].kind) == Doomed(p, g[i].kind) {
      DoomedRearmed(p, g[i].kind, i, g[b].incoming, g[b].outgoing);
    }
  }

  /** A pass that completes keeps exactly the blocks it does not remove,
      in their order in `self.blocks`, and every node is still doomed, by
      either pass, exactly when it was: no survivor is left for the pass. */
  lemma {:induction false} SweepKeeps(g: seq<Node>, bs: seq<nat>, p: Cleanup)
    requires Closed(g) && Listed(bs, |g|) && Sweep(g, bs, p).Ok?
    ensures Sweep(g, bs, p).value.1 == Kept(g, bs, p)
    ensures forall q, i :: 0 <= i < |g| ==> Doomed(q, Sweep(g, bs, p).value.0[i].kind) == Doomed(q, g[i].kind)
    decreases |bs|
  {
    if bs != [] {
      var pre := bs[..|bs| - 1];
      SweepKeeps(g, pre, p);
      var acc := Sweep(g, pre, p).value;
      var b := bs[|bs| - 1];
      if Doomed(p, acc.0[b].kind) {
        assert NodeClosed(acc.0[b], |acc.0|);
        SpliceDoom(acc.0, b, Splice(acc.0, b).value, EmptyBlocks);
        SpliceDoom(acc.0, b, Splice(acc.0, b).value, IfTrues);
      }
    }
  }

  /** Membership in what a pass keeps: a block of `bs` survives exactly
      when it is not doomed. */
  lemma {:induction false} KeptMembers(g: seq<Node>, bs: seq<nat>, p: Cleanup, b: nat)
    requires Listed(bs, |g|)
    ensures b in Kept(g, bs, p) <==> b in bs && !Doomed(p, g[b].kind)
    decreases |bs|
  {
    if bs != [] {
      var pre := bs[..|bs| - 1];
      KeptMembers(g, pre, p, b);
      assert bs == pre + [bs[|bs| - 1]];
    }
  }

  /** What a pass keeps of distinct blocks is distinct. */
  lemma {:induction false} KeptDistinct(g: seq<Node>, bs: seq<nat>, p: Cleanup)
    requires Listed(bs, |g|) && Distinct(bs)
    ensures Distinct(Kept(g, bs, p))
    decreases |bs|
  {
    if bs != [] {
      var pre, b := bs[..|bs| - 1], bs[|bs| - 1];
      KeptDistinct(g, pre, p);
      KeptMembers(g, pre, p, b);
      assert b !in pre;
    }
  }

  /** An entry of a distinct list occurs neither before nor after itself. */
  lemma DistinctAt(bs: seq<nat>, k: nat)
    requires Distinct(bs) && k < |bs|
    ensures bs[k] !in bs[..k] && bs[k] !in bs[k + 1..]
  {
    var before, after := bs[..k], bs[k + 1..];
    forall m | 0 <= m < |before| ensures before[m] != bs[k] {
      assert before[m] == bs[m];
    }
    forall m | 0 <= m < |after| ensures after[m] != bs[k] {
      assert after[m] == bs[k + 1 + m];
    }
  }

  /** One step of a pass on block `b`, which is neither kept so far nor
      still to come: whether the step removes `b` or keeps it, the kept
      blocks and those still to come remain paired. */
  lemma SweepStepPaired(a: seq<Node>, kept: seq<nat>, b: nat, rest: seq<nat>, p: Cleanup, r: (seq<Node>, seq<nat>))
    requires Closed(a) && b < |a| && b !in kept && b !in rest
    requires PairedOn(a, Elems(kept) + Elems([b] + rest))
    requires Doomed(p, a[b].kind) ==> Splice(a, b) == Ok(r.0) && r.1 == kept
    requires !Doomed(p, a[b].kind) ==> r == (a, kept + [b])
    ensures PairedOn(r.0, Elems(r.1) + Elems(rest))
  {
    var live := Elems(kept) + Elems([b] + rest);
    if Doomed(p, a[b].kind) {
      assert NodeClosed(a[b], |a|);
      SplicePaired(a, b, r.0, live);
      assert live - {b} == Elems(kept) + Elems(rest);
    } else {
      assert Elems(kept + [b]) + Elems(rest) == live;
    }
  }

  /** A pass keeps the listed blocks paired among themselves: before step
      `k`, the blocks kept so far and the blocks not yet visited are
      paired, so the block `bs[k]` the pass may remove next is one of
      them, as `SpliceOutcome` and `SpliceDetaches` ask. */
  lemma {:induction false} SweepPaired(g: seq<Node>, bs: seq<nat>, p: Cleanup, k: nat)
    requires Closed(g) && Listed(bs, |g|) && Distinct(bs) && PairedOn(g, Elems(bs))
    requires k <= |bs| && Sweep(g, bs[..k], p).Ok?
    ensures PairedOn(Sweep(g, bs[..k], p).value.0, Elems(Sweep(g, bs[..k], p).value.1) + Elems(bs[k..]))
    decreases k
  {
    if k == 0 {
      assert bs[..0] == [] && bs[0..] == bs;
    } else {
      var pre, b := bs[..k - 1], bs[k - 1];
      assert bs[..k][..k - 1] == pre && bs[..k][k - 1] == b;
      assert bs[k - 1..] == [b] + bs[k..];
      SweepPaired(g, bs, p, k - 1);
      var acc := Sweep(g, pre, p).value;
      DistinctAt(bs, k - 1);
      SweepKeeps(g, pre, p);
      KeptMembers(g, pre, p, b);
      SweepStepPaired(acc.0, acc.1, b, bs[k..], p, Sweep(g, bs[..k], p).value);
    }
  }

  /** A completed pass leaves the blocks it keeps distinct and paired
      among themselves. */
  lemma SweepKeepsPaired(g: seq<Node>, bs: seq<nat>, p: Cleanup)
    requires Closed(g) && Listed(bs, |g|) && Distinct(bs) && PairedOn(g, Elems(bs))
    requires Sweep(g, bs, p).Ok?
    ensures PairedOn(Sweep(g, bs, p).value.0, Elems(Sweep(g, bs, p).value.1))
    ensures Distinct(Sweep(g, bs, p).value.1)
  {
    assert bs[..|bs|] == bs;
    SweepPaired(g, bs, p, |bs|);
    assert Elems(bs[|bs|..]) == {};
    SweepKeeps(g, bs, p);
    KeptDistinct(g, bs, p);
  }

  /** Once a pass has failed on a prefix of `self.blocks`, it fails with
      that error. */
  lemma {:induction false} SweepFails(g: seq<Node>, bs: seq<nat>, p: Cleanup, k: nat)
    requires Closed(g) && Listed(bs, |g|) && k <= |bs| && Sweep(g, bs[..k], p).Err?
    ensures Sweep(g, bs, p) == Sweep(g, bs[..k], p)
    decreases |bs|
  {
    if k < |bs| {
      var pre := bs[..|bs| - 1];
      assert pre[..k] == bs[..k];
      SweepFails(g, pre, p, k);
    } else {
      assert bs[..k] == bs;
    }
  }
}
