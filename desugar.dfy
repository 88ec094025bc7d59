/** silica/transformations/desugar_yield_from_range.py: every statement
    `yield from range(...)` becomes a `for` loop over the same `range` call
    whose body is a single `yield`, and the fresh loop variable is recorded
    with the bit width of the range's bound. */
module Desugar {
  import opened Base
  import opened PyAst
  import opened Transforms

  // ---------------------------------------------------------------------
  // Loop variable names
  // ---------------------------------------------------------------------

  function Digit(d: nat): char
    requires d < 10
  {
    (48 + d) as char
  }

  function DigitValue(c: char): nat
  {
    if 48 <= c as int <= 57 then c as int - 48 else 0
  }

  /** The decimal numeral of `n`, as `"{}".format(n)` writes it. */
  function Decimal(n: nat): string
    decreases n
  {
    if n < 10 then [Digit(n)] else Decimal(n / 10) + [Digit(n % 10)]
  }

  /** Reading a decimal numeral back. */
  function ParseDecimal(s: string): nat
    decreases |s|
  {
    if s == [] then 0 else ParseDecimal(s[..|s| - 1]) * 10 + DigitValue(s[|s| - 1])
  }

  /** A numeral reads back as the number it was written from. */
  lemma {:induction false} DecimalRoundTrip(n: nat)
    ensures ParseDecimal(Decimal(n)) == n
    decreases n
  {
    if n >= 10 {
      DecimalRoundTrip(n / 10);
      var s := Decimal(n / 10);
      assert (s + [Digit(n % 10)])[..|s|] == s;
    }
  }

  /** The loop variable numbered `k`: `"____x{k}"`. */
  function LoopVarName(k: nat): string
  {
    "____x" + Decimal(k)
  }

  /** Different numbers give different loop variables. */
  lemma LoopVarNameInjective(a: nat, b: nat)
    ensures LoopVarName(a) == LoopVarName(b) ==> a == b
  {
    if LoopVarName(a) == LoopVarName(b) {
      assert Decimal(a) == LoopVarName(a)[5..];
      assert Decimal(b) == LoopVarName(b)[5..];
      DecimalRoundTrip(a);
      DecimalRoundTrip(b);
    }
  }

  // ---------------------------------------------------------------------
  // Widths
  // ---------------------------------------------------------------------

  /** Python's `int.bit_length()` of a non-negative number. */
  function BitLength(n: nat): nat
    decreases n
  {
    if n == 0 then 0 else 1 + BitLength(n / 2)
  }

  function Abs(n: int): nat
  {
    if n < 0 then -n else n
  }

  /** `bit_length()` is the number of binary digits: 0 for 0, and otherwise
      the `L` with `2^(L-1) <= n < 2^L` (so 4 needs 3 bits). */
  lemma {:induction false} BitLengthBounds(n: nat)
    ensures n == 0 <==> BitLength(n) == 0
    ensures n > 0 ==> Pow2(BitLength(n) - 1) <= n < Pow2(BitLength(n))
    decreases n
  {
    if n > 0 {
      BitLengthBounds(n / 2);
      if n / 2 > 0 {
        assert Pow2(BitLength(n) - 1) == 2 * Pow2(BitLength(n / 2) - 1);
      }
    }
  }

  /** The checks and the width for the argument `v` of a `yield from`:
      the assertion wants a call of the name `range` (a call of anything
      else that has no `id` raises AttributeError); the width is the bit
      length of the number that is the call's last argument (IndexError
      without arguments, AttributeError when it is not a number). */
  function RangeWidth(v: Expr): (r: Result<nat>)
    ensures r == Err(AssertionError) <==> !v.Call? || (v.func.Name? && v.func.id != "range")
    ensures r.Ok? <==>
      v.Call? && v.func == Name("range") && v.args != [] && v.args[|v.args| - 1].Num?
    ensures r.Ok? ==> r.value == BitLength(Abs(v.args[|v.args| - 1].n))
  {
    if !v.Call? then Err(AssertionError)
    else if !v.func.Name? then Err(AttributeError)
    else if v.func.id != "range" then Err(AssertionError)
    else if v.args == [] then Err(IndexError)
    else if !v.args[|v.args| - 1].Num? then Err(AttributeError)
    else Ok(BitLength(Abs(v.args[|v.args| - 1].n)))
  }

  // ---------------------------------------------------------------------
  // The rewrite, as a function of the next free loop variable number
  // ---------------------------------------------------------------------

  /** A recorded loop variable and its width. */
  type LoopVar = (string, nat)

  /** One statement visited with `next` the number the next loop variable
      gets: the statement it becomes and the loop variables it records, in
      order. An expression statement that is not a `yield from` is kept:
      visiting its expression changes nothing, as no statement nests inside
      an expression. */
  function DesugarStmt(s: Stmt, next: nat): Result<(Stmt, seq<LoopVar>)>
    decreases s, 0
  {
    match s
    case ExprStmt(e) =>
      if e.YieldFrom? then
        var w :- RangeWidth(e.value);
        Ok((For(Name(LoopVarName(next)), e.value, [ExprStmt(Yield)]), [(LoopVarName(next), w)]))
      else Ok((s, []))
    case If(t, b, o) =>
      var b' :- DesugarStmts(b, next);
      var o' :- DesugarStmts(o, next + |b'.1|);
      Ok((If(t, b'.0, o'.0), b'.1 + o'.1))
    case While(t, b) =>
      var b' :- DesugarStmts(b, next);
      Ok((While(t, b'.0), b'.1))
    case For(tg, it, b) =>
      var b' :- DesugarStmts(b, next);
      Ok((For(tg, it, b'.0), b'.1))
    case _ => Ok((s, []))
  }

  /** A statement list visited in order. */
  function DesugarStmts(ss: seq<Stmt>, next: nat): Result<(seq<Stmt>, seq<LoopVar>)>
    decreases ss, 1
  {
    if ss == [] then Ok(([], []))
    else
      var pre :- DesugarStmts(ss[..|ss| - 1], next);
      var s :- DesugarStmt(ss[|ss| - 1], next + |pre.1|);
      Ok((pre.0 + [s.0], pre.1 + s.1))
  }

  /** The number of `yield from` statements in `s`, nested ones included. */
  function YieldFroms(s: Stmt): nat
    decreases s, 0
  {
    match s
    case ExprStmt(e) => if e.YieldFrom? then 1 else 0
    case If(_, b, o) => AllYieldFroms(b) + AllYieldFroms(o)
    case While(_, b) => AllYieldFroms(b)
    case For(_, _, b) => AllYieldFroms(b)
    case _ => 0
  }

  function AllYieldFroms(ss: seq<Stmt>): nat
    decreases ss, 1
  {
    if ss == [] then 0 else AllYieldFroms(ss[..|ss| - 1]) + YieldFroms(ss[|ss| - 1])
  }

  /** Every `yield from` in `s`, nested ones included, has a `range` call
      that passes the checks. */
  ghost predicate RangesOk(s: Stmt)
    decreases s, 0
  {
    match s
    case ExprStmt(e) => e.YieldFrom? ==> RangeWidth(e.value).Ok?
    case If(_, b, o) => AllRangesOk(b) && AllRangesOk(o)
    case While(_, b) => AllRangesOk(b)
    case For(_, _, b) => AllRangesOk(b)
    case _ => true
  }

  ghost predicate AllRangesOk(ss: seq<Stmt>)
    decreases ss, 1
  {
    forall k :: 0 <= k < |ss| ==> RangesOk(ss[k])
  }

  /** `s'` is `s` with every `yield from range(...)` replaced by a `for`
      loop over the same call whose target is the name recorded for it in
      `vs` and whose body is `yield`; the width recorded with that name is
      the bit length the call's checks give. `vs` lists the rewrites in
      visiting order; everything else is kept. */
  ghost predicate Desugars(s: Stmt, s': Stmt, vs: seq<LoopVar>)
    decreases s, 0
  {
    match s
    case ExprStmt(e) =>
      if e.YieldFrom? then
        |vs| == 1 && s' == For(Name(vs[0].0), e.value, [ExprStmt(Yield)]) && RangeWidth(e.value) == Ok(vs[0].1)
      else s' == s && vs == []
    case If(t, b, o) =>
      var n := AllYieldFroms(b);
      s'.If? && s'.test == t && n <= |vs| && AllDesugar(b, s'.body, vs[..n]) && AllDesugar(o, s'.orelse, vs[n..])
    case While(t, b) => s'.While? && s'.test == t && AllDesugar(b, s'.body, vs)
    case For(tg, it, b) => s'.For? && s'.target == tg && s'.iter == it && AllDesugar(b, s'.body, vs)
    case _ => s' == s && vs == []
  }

  /** The same for a statement list: each statement's rewrites follow
      those of the statements before it. */
  ghost predicate AllDesugar(ss: seq<Stmt>, ss': seq<Stmt>, vs: seq<LoopVar>)
    decreases ss, 1
  {
    if ss == [] then ss' == [] && vs == []
    else
      var n := AllYieldFroms(ss[..|ss| - 1]);
      |ss'| == |ss| && n <= |vs| &&
      AllDesugar(ss[..|ss| - 1], ss'[..|ss| - 1], vs[..n]) && Desugars(ss[|ss| - 1], ss'[|ss| - 1], vs[n..])
  }

  /** The loop variables are numbered consecutively from `next`. */
  predicate Numbered(vs: seq<LoopVar>, next: nat)
  {
    forall j :: 0 <= j < |vs| ==> vs[j].0 == LoopVarName(next + j)
  }

  /** A successful visit of a statement rewrites it as `Desugars` says,
      with the loop variables it records, one per `yield from`. */
  lemma {:induction false} DesugarStmtRewrites(s: Stmt, next: nat)
    requires DesugarStmt(s, next).Ok?
    ensures var r := DesugarStmt(s, next).value;
      |r.1| == YieldFroms(s) && Desugars(s, r.0, r.1)
    decreases s, 0
  {
    match s
    case ExprStmt(e) =>
    case If(t, b, o) =>
      var b' := DesugarStmts(b, next).value;
      var o' := DesugarStmts(o, next + |b'.1|).value;
      DesugarStmtsRewrites(b, next);
      DesugarStmtsRewrites(o, next + |b'.1|);
      assert (b'.1 + o'.1)[..|b'.1|] == b'.1 && (b'.1 + o'.1)[|b'.1|..] == o'.1;
    case While(t, b) =>
      DesugarStmtsRewrites(b, next);
    case For(tg, it, b) =>
      DesugarStmtsRewrites(b, next);
    case _ =>
  }

  /** The same for a statement list. */
  lemma {:induction false} DesugarStmtsRewrites(ss: seq<Stmt>, next: nat)
    requires DesugarStmts(ss, next).Ok?
    ensures var r := DesugarStmts(ss, next).value;
      |r.1| == AllYieldFroms(ss) && AllDesugar(ss, r.0, r.1)
    decreases ss, 1
  {
    if ss != [] {
      var pre, last := ss[..|ss| - 1], ss[|ss| - 1];
      var p := DesugarStmts(pre, next).value;
      var l := DesugarStmt(last, next + |p.1|).value;
      DesugarStmtsRewrites(pre, next);
      DesugarStmtRewrites(last, next + |p.1|);
      assert (p.1 + l.1)[..|p.1|] == p.1 && (p.1 + l.1)[|p.1|..] == l.1;
      assert (p.0 + [l.0])[..|ss| - 1] == p.0;
    }
  }

  /** Two consecutively numbered runs make one. */
  lemma NumberedAppend(vs: seq<LoopVar>, ws: seq<LoopVar>, next: nat)
    requires Numbered(vs, next) && Numbered(ws, next + |vs|)
    ensures Numbered(vs + ws, next)
  {
    assert forall j :: |vs| <= j < |vs| + |ws| ==> (vs + ws)[j] == ws[j - |vs|];
  }

  /** The loop variables a successful visit records are numbered
      consecutively from `next`. */
  lemma {:induction false} DesugarStmtNumbered(s: Stmt, next: nat)
    requires DesugarStmt(s, next).Ok?
    ensures Numbered(DesugarStmt(s, next).value.1, next)
    decreases s, 0
  {
    match s {
      case ExprStmt(e) =>
      case If(t, b, o) =>
        var vb := DesugarStmts(b, next).value.1;
        DesugarStmtsNumbered(b, next);
        DesugarStmtsNumbered(o, next + |vb|);
        NumberedAppend(vb, DesugarStmts(o, next + |vb|).value.1, next);
      case While(t, b) =>
        DesugarStmtsNumbered(b, next);
      case For(tg, it, b) =>
        DesugarStmtsNumbered(b, next);
      case _ =>
    }
  }

  /** The same for a statement list. */
  lemma {:induction false} DesugarStmtsNumbered(ss: seq<Stmt>, next: nat)
    requires DesugarStmts(ss, next).Ok?
    ensures Numbered(DesugarStmts(ss, next).value.1, next)
    decreases ss, 1
  {
    if ss != [] {
      var pre, last := ss[..|ss| - 1], ss[|ss| - 1];
      var vp := DesugarStmts(pre, next).value.1;
      DesugarStmtsNumbered(pre, next);
      DesugarStmtNumbered(last, next + |vp|);
      NumberedAppend(vp, DesugarStmt(last, next + |vp|).value.1, next);
    }
  }

  /** Visiting a statement succeeds exactly when every `yield from` in it
      has a good `range` call. */
  lemma {:induction false} DesugarStmtChecks(s: Stmt, next: nat)
    ensures DesugarStmt(s, next).Ok? <==> RangesOk(s)
    decreases s, 0
  {
    match s {
      case ExprStmt(e) =>
      case If(t, b, o) =>
        DesugarStmtsChecks(b, next);
        if DesugarStmts(b, next).Ok? {
          DesugarStmtsChecks(o, next + |DesugarStmts(b, next).value.1|);
        }
      case While(t, b) =>
        DesugarStmtsChecks(b, next);
      case For(tg, it, b) =>
        DesugarStmtsChecks(b, next);
      case _ =>
    }
  }

  /** The same for a statement list. */
  lemma {:induction false} DesugarStmtsChecks(ss: seq<Stmt>, next: nat)
    ensures DesugarStmts(ss, next).Ok? <==> AllRangesOk(ss)
    decreases ss, 1
  {
    if ss != [] {
      var pre, last := ss[..|ss| - 1], ss[|ss| - 1];
      DesugarStmtsChecks(pre, next);
      assert forall k :: 0 <= k < |pre| ==> pre[k] == ss[k];
      if DesugarStmts(pre, next).Ok? {
        DesugarStmtChecks(last, next + |DesugarStmts(pre, next).value.1|);
      } else {
        assert !AllRangesOk(pre);
      }
    }
  }

  /** Visiting a statement succeeds exactly when every `yield from` in it
      has a good `range` call; it then rewrites each of them into a `for`
      over a fresh name recorded with the call's width, keeps everything
      else, and records one loop variable per rewrite, numbered
      consecutively from `next` in visiting order. */
  lemma DesugarStmtSpec(s: Stmt, next: nat)
    ensures DesugarStmt(s, next).Ok? <==> RangesOk(s)
    ensures DesugarStmt(s, next).Ok? ==>
      Desugars(s, DesugarStmt(s, next).value.0, DesugarStmt(s, next).value.1) &&
      Numbered(DesugarStmt(s, next).value.1, next)
  {
    DesugarStmtChecks(s, next);
    if DesugarStmt(s, next).Ok? {
      DesugarStmtRewrites(s, next);
      DesugarStmtNumbered(s, next);
    }
  }

  /** The same for a statement list, visited in order. */
  lemma DesugarStmtsSpec(ss: seq<Stmt>, next: nat)
    ensures DesugarStmts(ss, next).Ok? <==> AllRangesOk(ss)
    ensures DesugarStmts(ss, next).Ok? ==>
      AllDesugar(ss, DesugarStmts(ss, next).value.0, DesugarStmts(ss, next).value.1) &&
      Numbered(DesugarStmts(ss, next).value.1, next)
  {
    DesugarStmtsChecks(ss, next);
    if DesugarStmts(ss, next).Ok? {
      DesugarStmtsRewrites(ss, next);
      DesugarStmtsNumbered(ss, next);
    }
  }

  /** Consecutively numbered loop variables never share a name. */
  lemma NumberedDistinct(vs: seq<LoopVar>, next: nat)
    requires Numbered(vs, next)
    ensures forall i, j :: 0 <= i < j < |vs| ==> vs[i].0 != vs[j].0
  {
    forall i, j | 0 <= i < j < |vs| ensures vs[i].0 != vs[j].0 {
      LoopVarNameInjective(next + i, next + j);
    }
  }

  /** The set of recorded pairs. */
  function Recorded(vs: seq<LoopVar>): set<LoopVar>
  {
    set v | v in vs
  }

  // ---------------------------------------------------------------------
  // The visitor
  // ---------------------------------------------------------------------

  /** The class attribute `YieldFromRangeDesugarer.unique_id`, shared by all
      desugarers; it starts at -1 and is raised before each use. */
  class UniqueId {
    var value: int

    constructor()
      ensures value == -1
    {
      value := -1;
    }
  }

  class YieldFromRangeDesugarer {
    var loopvars: set<LoopVar>
    const ids: UniqueId

    /** A new desugarer has recorded nothing. */
    constructor(ids: UniqueId)
      ensures loopvars == {} && this.ids == ids
    {
      loopvars := {};
      this.ids := ids;
    }

    /** `gen_loopvar(width)`: the next number, its name, and the pair
        recorded. */
    method GenLoopvar(width: nat) returns (loopvar: string)
      requires ids.value >= -1
      modifies this, ids
      ensures ids.value == old(ids.value) + 1
      ensures loopvar == LoopVarName(ids.value)
      ensures loopvars == old(loopvars) + {(loopvar, width)}
    {
      ids.value := ids.value + 1;
      loopvar := LoopVarName(ids.value);
      loopvars := loopvars + {(loopvar, width)};
    }

    /** `visit_Expr(node)`: a `yield from range(...)` becomes the `for`
        loop and records its loop variable; any other expression statement
        is returned as it is. */
    method VisitExpr(node: Stmt) returns (r: Result<Stmt>)
      requires node.ExprStmt? && ids.value >= -1
      modifies this, ids
      ensures ids.value >= old(ids.value)
      ensures var spec := DesugarStmt(node, old(ids.value) + 1);
        (r.Ok? <==> spec.Ok?) && (r.Err? ==> r.error == spec.error) &&
        (r.Ok? ==> r.value == spec.value.0 && ids.value == old(ids.value) + |spec.value.1| &&
                   loopvars == old(loopvars) + Recorded(spec.value.1))
      ensures node.expr.YieldFrom? && r.Ok? ==>
        loopvars == old(loopvars) + {(LoopVarName(ids.value), BitLength(Abs(node.expr.value.args[|node.expr.value.args| - 1].n)))}
    {
      if node.expr.YieldFrom? {
        var call := node.expr.value;
        var w := RangeWidth(call);
        if w.Err? {
          return Err(w.error);
        }
        var loopvar := GenLoopvar(w.value);
        assert Recorded([(loopvar, w.value)]) == {(loopvar, w.value)};
        return Ok(For(Name(loopvar), call, [ExprStmt(Yield)]));
      }
      return Ok(node);
    }

    /** The generic visit of one statement: expression statements go to
        `visit_Expr`, compound statements have their bodies visited. */
    method VisitStmt(s: Stmt) returns (r: Result<Stmt>)
      requires ids.value >= -1
      modifies this, ids
      ensures ids.value >= old(ids.value)
      ensures var spec := DesugarStmt(s, old(ids.value) + 1);
        (r.Ok? <==> spec.Ok?) && (r.Err? ==> r.error == spec.error) &&
        (r.Ok? ==> r.value == spec.value.0 && ids.value == old(ids.value) + |spec.value.1| &&
                   loopvars == old(loopvars) + Recorded(spec.value.1))
      decreases s, 0
    {
      match s {
        case ExprStmt(_) =>
          r := VisitExpr(s);
        case If(t, b, o) =>
          var b' := VisitStmts(b);
          if b'.Err? {
            return Err(b'.error);
          }
          var o' := VisitStmts(o);
          if o'.Err? {
            return Err(o'.error);
          }
          r := Ok(If(t, b'.value, o'.value));
        case While(t, b) =>
          var b' := VisitStmts(b);
          if b'.Err? {
            return Err(b'.error);
          }
          r := Ok(While(t, b'.value));
        case For(tg, it, b) =>
          var b' := VisitStmts(b);
          if b'.Err? {
            return Err(b'.error);
          }
          r := Ok(For(tg, it, b'.value));
        case _ =>
          r := Ok(s);
      }
    }

    /** The generic visit of a statement list, in order. */
    method VisitStmts(ss: seq<Stmt>) returns (r: Result<seq<Stmt>>)
      requires ids.value >= -1
      modifies this, ids
      ensures ids.value >= old(ids.value)
      ensures var spec := DesugarStmts(ss, old(ids.value) + 1);
        (r.Ok? <==> spec.Ok?) && (r.Err? ==> r.error == spec.error) &&
        (r.Ok? ==> r.value == spec.value.0 && ids.value == old(ids.value) + |spec.value.1| &&
                   loopvars == old(loopvars) + Recorded(spec.value.1))
      decreases ss, 1
    {
      ghost var next: nat := ids.value + 1;
      ghost var vars0 := loopvars;
      var out: seq<Stmt> := [];
      var k := 0;
      while k < |ss|
        invariant 0 <= k <= |ss|
        invariant DesugarStmts(ss[..k], next).Ok?
        invariant out == DesugarStmts(ss[..k], next).value.0
        invariant ids.value == next - 1 + |DesugarStmts(ss[..k], next).value.1|
        invariant loopvars == vars0 + Recorded(DesugarStmts(ss[..k], next).value.1)
      {
        assert ss[..k + 1][..k] == ss[..k];
        var s := VisitStmt(ss[k]);
        if s.Err? {
          DesugarStmtsPrefixFails(ss, next, k + 1);
          return Err(s.error);
        }
        out := out + [s.value];
        k := k + 1;
      }
      assert ss[..k] == ss;
      return Ok(out);
    }
  }

  /** Once a prefix of a list fails, the whole list fails with that error. */
  lemma {:induction false} DesugarStmtsPrefixFails(ss: seq<Stmt>, next: nat, k: nat)
    requires k <= |ss| && DesugarStmts(ss[..k], next).Err?
    ensures DesugarStmts(ss, next) == DesugarStmts(ss[..k], next)
    decreases |ss|
  {
    if k < |ss| {
      var pre := ss[..|ss| - 1];
      assert pre[..k] == ss[..k];
      DesugarStmtsPrefixFails(pre, next, k);
    } else {
      assert ss[..k] == ss;
    }
  }

  /** `desugar_yield_from_range(tree)`: a fresh desugarer visits the
      function's body; the rewritten function and the loop variables it
      recorded are returned. */
  method DesugarYieldFromRange(f: FunctionDef, ids: UniqueId) returns (r: Result<(FunctionDef, set<LoopVar>)>)
    requires ids.value >= -1
    modifies ids
    ensures var spec := DesugarStmts(f.body, old(ids.value) + 1);
      (r.Ok? <==> spec.Ok?) && (r.Err? ==> r.error == spec.error) &&
      (r.Ok? ==> r.value == (f.(body := spec.value.0), Recorded(spec.value.1)) &&
                 ids.value == old(ids.value) + |spec.value.1|)
  {
    ghost var next: nat := ids.value + 1;
    var visitor := new YieldFromRangeDesugarer(ids);
    var body := visitor.VisitStmts(f.body);
    if body.Err? {
      return Err(body.error);
    }
    assert visitor.loopvars == {} + Recorded(DesugarStmts(f.body, next).value.1);
    r := Ok((f.(body := body.value), visitor.loopvars));
    assert r.value.1 == Recorded(DesugarStmts(f.body, next).value.1);
    assert r.value.0 == f.(body := DesugarStmts(f.body, next).value.0);
  }
}
