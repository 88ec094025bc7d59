/** `ControlFlowGraph.build` of silica/cfg/control_flow_graph.py on values:
    the register declarations before the final loop, the loop processed
    from the Head and one fresh block, then the two clean-up passes. */
module Build {
  import opened Base
  import opened PyAst
  import opened Graph
  import opened Construction
  import opened Process
  import opened Simplify

  /** One statement before the final loop, which must declare a register:
      `name = Register(n, ...)`. The targets are looked at first (an empty
      target list raises IndexError, anything but one plain name fails the
      assertion), then the first argument's `n`. */
  function Declaration(s: Stmt): (r: Result<(string, int)>)
    ensures r.Ok? ==> s.Assign? && s.targets == [Name(r.value.0)] && s.value.Call? &&
                      s.value.func == Name("Register") && |s.value.args| > 0 &&
                      s.value.args[0] == Num(r.value.1)
  {
    if !(s.Assign? && s.value.Call? && s.value.func.Name? && s.value.func.id == "Register") then
      Err(NotImplementedError)
    else if s.targets == [] then Err(IndexError)
    else if !(s.targets[0].Name? && |s.targets| == 1) then Err(AssertionError)
    else if s.value.args == [] then Err(IndexError)
    else if !s.value.args[0].Num? then Err(AttributeError)
    else Ok((s.targets[0].id, s.value.args[0].n))
  }

  /** The loop over `initial_statements`, adding each declaration to
      `self.local_vars`; the first bad statement ends it. */
  function Declarations(ss: seq<Stmt>): Result<set<(string, int)>>
  {
    if ss == [] then Ok({})
    else
      var vars :- Declarations(ss[..|ss| - 1]);
      var d :- Declaration(ss[|ss| - 1]);
      Ok(vars + {d})
  }

  /** The declaration loop succeeds exactly when every statement is a
      declaration, and then `local_vars` holds exactly their pairs. */
  lemma {:induction false} DeclarationsOk(ss: seq<Stmt>)
    ensures Declarations(ss).Ok? <==> forall i :: 0 <= i < |ss| ==> Declaration(ss[i]).Ok?
    ensures Declarations(ss).Ok? ==>
      forall v :: v in Declarations(ss).value <==> exists i :: 0 <= i < |ss| && Declaration(ss[i]) == Ok(v)
    decreases |ss|
  {
    if ss != [] {
      var pre := ss[..|ss| - 1];
      DeclarationsOk(pre);
      assert forall i :: 0 <= i < |pre| ==> pre[i] == ss[i];
      if Declarations(ss).Ok? {
        forall v ensures v in Declarations(ss).value <==> exists i :: 0 <= i < |ss| && Declaration(ss[i]) == Ok(v) {
          if v in Declarations(pre).value {
            var i :| 0 <= i < |pre| && Declaration(pre[i]) == Ok(v);
            assert Declaration(ss[i]) == Ok(v);
          }
        }
      }
    }
  }

  /** When the declaration loop fails, it fails with the error of the first
      statement that is not a declaration. */
  lemma {:induction false} DeclarationsError(ss: seq<Stmt>, k: nat)
    requires k < |ss| && Declaration(ss[k]).Err?
    requires forall i :: 0 <= i < k ==> Declaration(ss[i]).Ok?
    ensures Declarations(ss) == Err(Declaration(ss[k]).error)
    decreases |ss|
  {
    var pre := ss[..|ss| - 1];
    if k < |ss| - 1 {
      DeclarationsError(pre, k);
    } else {
      DeclarationsOk(pre);
    }
  }

  /** The graph `build` starts from: the Head, linked to a fresh block,
      which is current; the next Yield id is 1. */
  function Start(): (r: Builder)
    ensures Built(r.g, r.c, r.yid) && r.yid == 1
  {
    BuiltStart();
    Builder(AddEdge([Node(HeadKind, [], []), EmptyBlock], 0, 1, Plain), 1, 1)
  }

  /** `build` up to the clean-up passes: the declarations are checked, the
      last statement must be a `while` (an empty body raises IndexError),
      and it is processed from `Start()`. */
  function Grow(f: FunctionDef): (r: Result<Builder>)
  {
    if f.body == [] then Err(IndexError)
    else
      var _ :- Declarations(f.body[..|f.body| - 1]);
      if !f.body[|f.body| - 1].While? then Err(AssertionError)
      else Ok(Step(Start(), f.body[|f.body| - 1]))
  }

  /** The numbers below `n` are nodes of an arena of `n` nodes. */
  lemma RangeListed(n: nat)
    ensures Listed(Range(0, n), n)
  {
  }

  /** `consolidate_empty_blocks`, then `remove_if_trues`. */
  function CleanUp(g: seq<Node>, bs: seq<nat>): (r: Result<(seq<Node>, seq<nat>)>)
    requires Closed(g) && Listed(bs, |g|)
    ensures r.Ok? ==> |r.value.0| == |g| && Closed(r.value.0) && Listed(r.value.1, |g|)
  {
    var a :- Sweep(g, bs, EmptyBlocks);
    Sweep(a.0, a.1, IfTrues)
  }

  /** `build`: `Grow`, then the clean-up passes over `self.blocks`, which
      lists every node in creation order. */
  function BuildGraph(f: FunctionDef): (r: Result<(seq<Node>, seq<nat>)>)
    ensures r.Ok? ==> Closed(r.value.0) && Listed(r.value.1, |r.value.0|)
  {
    var st :- Grow(f);
    StepBuilt(Start(), f.body[|f.body| - 1], st);
    RangeListed(|st.g|);
    CleanUp(st.g, Range(0, |st.g|))
  }

  /** `Grow` succeeds only on a body ending in a `while`, and then it is
      that loop processed from `Start()`. */
  lemma GrowStep(f: FunctionDef, st: Builder)
    requires Grow(f) == Ok(st)
    ensures f.body != [] && f.body[|f.body| - 1].While? && st == Step(Start(), f.body[|f.body| - 1])
  {
  }

  /** `build` on an empty body raises IndexError. */
  lemma BuildGraphEmpty(f: FunctionDef)
    requires f.body == []
    ensures BuildGraph(f) == Err(IndexError)
  {
  }

  /** `build` raises the error of the first statement before the final one
      that is not a register declaration. */
  lemma BuildGraphBadDeclaration(f: FunctionDef, k: nat)
    requires f.body != [] && k < |f.body| - 1 && Declaration(f.body[k]).Err?
    requires forall i :: 0 <= i < k ==> Declaration(f.body[i]).Ok?
    ensures BuildGraph(f) == Err(Declaration(f.body[k]).error)
  {
    var pre := f.body[..|f.body| - 1];
    assert pre[k] == f.body[k];
    DeclarationsError(pre, k);
  }

  /** `build` raises AssertionError when every earlier statement is a
      declaration but the final one is not a `while`. */
  lemma BuildGraphNotLoop(f: FunctionDef)
    requires f.body != [] && !f.body[|f.body| - 1].While?
    requires forall i :: 0 <= i < |f.body| - 1 ==> Declaration(f.body[i]).Ok?
    ensures BuildGraph(f) == Err(AssertionError)
  {
    var pre := f.body[..|f.body| - 1];
    DeclarationsOk(pre);
  }

  /** `build` succeeds only on a body of declarations followed by a
      `while`. */
  lemma BuildGraphShape(f: FunctionDef)
    requires BuildGraph(f).Ok?
    ensures f.body != [] && f.body[|f.body| - 1].While?
    ensures forall i :: 0 <= i < |f.body| - 1 ==> Declaration(f.body[i]).Ok?
  {
    var pre := f.body[..|f.body| - 1];
    DeclarationsOk(pre);
    forall i | 0 <= i < |f.body| - 1 ensures Declaration(f.body[i]).Ok? {
      assert pre[i] == f.body[i];
    }
  }

  /** Processing the final loop from `Start()` leaves a well-formed graph
      whose Head is node 0 and whose current block is a BasicBlock; every
      Branch has both arms, and the Yields carry the ids 1, 2, ... in
      creation order, one per `yield` in the loop. */
  lemma LoopBuilt(s: Stmt, st: Builder)
    requires s.While? && st == Step(Start(), s)
    ensures Built(st.g, st.c, st.yid) && BranchesComplete(st.g, 0)
    ensures st.yid == 1 + CountYields(s)
  {
    var s0 := Start();
    StepBuilt(s0, s, st);
    StepFrame(s0, s, st);
    forall i | 0 <= i < |s0.g| ensures !st.g[i].kind.BranchKind? {
      assert i == 0 || i == 1;
    }
  }

  /** Before the clean-up, the graph `build` grew is well formed. */
  lemma GrowBuilt(f: FunctionDef, st: Builder)
    requires Grow(f) == Ok(st)
    ensures Built(st.g, st.c, st.yid) && BranchesComplete(st.g, 0)
    ensures st.yid == 1 + CountYields(f.body[|f.body| - 1])
  {
    GrowStep(f, st);
    LoopBuilt(f.body[|f.body| - 1], st);
  }

  /** The numbers of `Range(lo, hi)` ascend. */
  lemma RangeAscending(n: nat)
    ensures forall i, j :: 0 <= i < j < |Range(0, n)| ==> Range(0, n)[i] < Range(0, n)[j]
  {
  }

  /** `BuildGraph` taken apart into the graph before the clean-up and the
      result of the first pass. */
  lemma BuildParts(f: FunctionDef, h: seq<Node>, bs: seq<nat>) returns (st: Builder, a: (seq<Node>, seq<nat>))
    requires BuildGraph(f) == Ok((h, bs))
    ensures Grow(f) == Ok(st) && Closed(st.g) && Listed(Range(0, |st.g|), |st.g|)
    ensures Sweep(st.g, Range(0, |st.g|), EmptyBlocks) == Ok(a)
    ensures Closed(a.0) && Listed(a.1, |a.0|) && Sweep(a.0, a.1, IfTrues) == Ok((h, bs))
  {
    st := Grow(f).value;
    GrowBuilt(f, st);
    RangeListed(|st.g|);
    a := Sweep(st.g, Range(0, |st.g|), EmptyBlocks).value;
  }

  /** Node `i` survives both passes exactly when neither pass dooms it in
      the graph before the clean-up. */
  lemma SurvivesAt(g: seq<Node>, a: (seq<Node>, seq<nat>), h: seq<Node>, bs: seq<nat>, i: nat)
    requires Closed(g) && Listed(Range(0, |g|), |g|) && Sweep(g, Range(0, |g|), EmptyBlocks) == Ok(a)
    requires Closed(a.0) && Listed(a.1, |a.0|) && Sweep(a.0, a.1, IfTrues) == Ok((h, bs)) && i < |g|
    ensures i in bs <==> !Doomed(EmptyBlocks, g[i].kind) && !Doomed(IfTrues, g[i].kind)
  {
    SweepKeeps(g, Range(0, |g|), EmptyBlocks);
    SweepKeeps(a.0, a.1, IfTrues);
    KeptMembers(g, Range(0, |g|), EmptyBlocks, i);
    KeptMembers(a.0, a.1, IfTrues, i);
    assert Range(0, |g|)[i] == i;
    assert Doomed(IfTrues, a.0[i].kind) == Doomed(IfTrues, g[i].kind);
  }

  /** After `build`, `self.blocks` lists exactly the nodes that are neither
      empty BasicBlocks nor Branches on `True` in the graph before the
      clean-up: the Head and every Yield survive. */
  lemma BuildKeeps(f: FunctionDef, h: seq<Node>, bs: seq<nat>)
    requires BuildGraph(f) == Ok((h, bs))
    ensures Grow(f).Ok? && |h| == |Grow(f).value.g|
    ensures forall i :: 0 <= i < |h| ==>
      (i in bs <==> !Doomed(EmptyBlocks, Grow(f).value.g[i].kind) && !Doomed(IfTrues, Grow(f).value.g[i].kind))
  {
    var st, a := BuildParts(f, h, bs);
    forall i | 0 <= i < |h|
      ensures i in bs <==> !Doomed(EmptyBlocks, st.g[i].kind) && !Doomed(IfTrues, st.g[i].kind)
    {
      SurvivesAt(st.g, a, h, bs, i);
    }
  }

  /** No survivor of `build` is an empty BasicBlock or a Branch on `True`:
      the passes change no node's kind but for moved Branch arms. */
  lemma BuildClean(f: FunctionDef, h: seq<Node>, bs: seq<nat>)
    requires BuildGraph(f) == Ok((h, bs))
    ensures forall i :: 0 <= i < |bs| ==> bs[i] < |h| && !Doomed(EmptyBlocks, h[bs[i]].kind) && !Doomed(IfTrues, h[bs[i]].kind)
  {
    var st, a := BuildParts(f, h, bs);
    SweepKeeps(a.0, a.1, IfTrues);
    forall k | 0 <= k < |bs|
      ensures bs[k] < |h| && !Doomed(EmptyBlocks, h[bs[k]].kind) && !Doomed(IfTrues, h[bs[k]].kind)
    {
      KeptMembers(a.0, a.1, IfTrues, bs[k]);
      SweepKeeps(st.g, Range(0, |st.g|), EmptyBlocks);
      KeptMembers(st.g, Range(0, |st.g|), EmptyBlocks, bs[k]);
    }
  }

  /** `self.blocks` keeps creation order through `build`. */
  lemma BuildOrdered(f: FunctionDef, h: seq<Node>, bs: seq<nat>)
    requires BuildGraph(f) == Ok((h, bs))
    ensures forall i, j :: 0 <= i < j < |bs| ==> bs[i] < bs[j]
  {
    var st, a := BuildParts(f, h, bs);
    SweepKeeps(st.g, Range(0, |st.g|), EmptyBlocks);
    SweepKeeps(a.0, a.1, IfTrues);
    RangeAscending(|st.g|);
    KeptAscending(st.g, Range(0, |st.g|), EmptyBlocks);
    KeptAscending(a.0, a.1, IfTrues);
  }

  /** After `build`, the blocks in `self.blocks` are paired among
      themselves: every edge of a listed block leads to a listed block
      and is recorded at both ends. Removed nodes keep their stale edges,
      so the whole arena is not paired (`SpliceUnpairs`). */
  lemma BuildPaired(f: FunctionDef, h: seq<Node>, bs: seq<nat>)
    requires BuildGraph(f) == Ok((h, bs))
    ensures PairedOn(h, Elems(bs)) && Distinct(bs)
  {
    var st, a := BuildParts(f, h, bs);
    GrowBuilt(f, st);
    PairedEverywhere(st.g);
    RangeAscending(|st.g|);
    SweepKeepsPaired(st.g, Range(0, |st.g|), EmptyBlocks);
    SweepKeepsPaired(a.0, a.1, IfTrues);
  }

  /** What a pass keeps of an ascending list is ascending. */
  lemma {:induction false} KeptAscending(g: seq<Node>, bs: seq<nat>, p: Cleanup)
    requires Listed(bs, |g|) && forall i, j :: 0 <= i < j < |bs| ==> bs[i] < bs[j]
    ensures forall i, j :: 0 <= i < j < |Kept(g, bs, p)| ==> Kept(g, bs, p)[i] < Kept(g, bs, p)[j]
    decreases |bs|
  {
    if bs != [] {
      var pre, last := bs[..|bs| - 1], bs[|bs| - 1];
      KeptAscending(g, pre, p);
      var k := Kept(g, pre, p);
      forall x | x in k ensures x < last {
        KeptMembers(g, pre, p, x);
        var m :| 0 <= m < |pre| && pre[m] == x;
        assert bs[m] == x;
      }
      assert Kept(g, bs, p) == k + (if Doomed(p, g[last].kind) then [] else [last]);
      assert forall i :: 0 <= i < |k| ==> k[i] in k;
    }
  }
}
