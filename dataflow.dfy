/** The module-level helpers of silica/cfg/control_flow_graph.py that read
    statements: `collect_constant_assigns`, `is_shift_expr`,
    `promote_live_variables` and `append_state_info`. */
module Dataflow {
  import opened Base
  import opened PyAst

  /** `name = <number literal>`, the only assignment that records a constant. */
  predicate AssignsConstant(s: Stmt, x: string, n: int)
  {
    s == Assign([Name(x)], Num(n))
  }

  /** A single-target number assignment whose target is not a plain name:
      the source then reads `.name` of the target, which Python's syntax
      nodes do not have. */
  predicate BadConstantTarget(s: Stmt)
  {
    s.Assign? && s.value.Num? && |s.targets| == 1 && !s.targets[0].Name?
  }

  /** `collect_constant_assigns(statements)`: the loop filling a dict with
      every `name = <number>` in order, a later one overriding an earlier;
      the first bad target raises AttributeError. */
  function ConstantAssigns(ss: seq<Stmt>): Result<map<string, int>>
  {
    if ss == [] then Ok(map[])
    else
      var m :- ConstantAssigns(ss[..|ss| - 1]);
      var s := ss[|ss| - 1];
      if s.Assign? && s.value.Num? && |s.targets| == 1 then
        if s.targets[0].Name? then Ok(m[s.targets[0].id := s.value.n]) else Err(AttributeError)
      else Ok(m)
  }

  /** The constants are exactly the last number literal assigned to each
      name: `x` has a constant when some statement assigns a number to it,
      and its value is assigned by a statement no later one overrides. */
  lemma {:induction false} ConstantAssignsLast(ss: seq<Stmt>, x: string)
    requires ConstantAssigns(ss).Ok?
    ensures x in ConstantAssigns(ss).value <==> exists k, n :: 0 <= k < |ss| && AssignsConstant(ss[k], x, n)
    ensures x in ConstantAssigns(ss).value ==>
      exists k :: 0 <= k < |ss| && AssignsConstant(ss[k], x, ConstantAssigns(ss).value[x]) &&
        forall j, n :: k < j < |ss| ==> !AssignsConstant(ss[j], x, n)
    decreases |ss|
  {
    if ss != [] {
      var pre, s := ss[..|ss| - 1], ss[|ss| - 1];
      ConstantAssignsLast(pre, x);
      var m := ConstantAssigns(pre).value;
      assert forall k :: 0 <= k < |pre| ==> pre[k] == ss[k];
      if s.Assign? && s.value.Num? && s.targets == [Name(x)] {
        assert AssignsConstant(ss[|ss| - 1], x, s.value.n);
      } else {
        if x in m {
          var k :| 0 <= k < |pre| && AssignsConstant(pre[k], x, m[x]) &&
            forall j, n :: k < j < |pre| ==> !AssignsConstant(pre[j], x, n);
          assert AssignsConstant(ss[k], x, ConstantAssigns(ss).value[x]);
        }
      }
    }
  }

  /** The loop fails exactly when some statement is a number assignment to
      one target that is not a plain name, and then with AttributeError. */
  lemma {:induction false} ConstantAssignsFails(ss: seq<Stmt>)
    ensures ConstantAssigns(ss).Err? <==> exists k :: 0 <= k < |ss| && BadConstantTarget(ss[k])
    ensures ConstantAssigns(ss).Err? ==> ConstantAssigns(ss).error == AttributeError
    decreases |ss|
  {
    if ss != [] {
      var pre := ss[..|ss| - 1];
      ConstantAssignsFails(pre);
      assert forall k :: 0 <= k < |pre| ==> pre[k] == ss[k];
      assert BadConstantTarget(ss[|ss| - 1]) ==> ConstantAssigns(pre).Err? || ConstantAssigns(ss).Err?;
    }
  }

  /** `is_shift_expr(node)`: an expression statement `a << b`. */
  predicate IsShiftExpr(s: Stmt)
  {
    s.ExprStmt? && s.expr.BinOp? && s.expr.op == LShift
  }
}
