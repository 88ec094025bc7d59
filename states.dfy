/** `promote_live_variables` and `append_state_info` of
    silica/cfg/control_flow_graph.py: the per-path dataflow that turns each
    path between two yields into one state of the FSM. */
module States {
  import opened Base
  import opened PyAst
  import opened Graph
  import opened Transforms
  import opened Dataflow
  import opened Paths

  // ---------------------------------------------------------------------
  // promote_live_variables
  // ---------------------------------------------------------------------

  /** The path-local symbol table: each name to the expression last
      assigned to it on the path so far. */
  type SymbolTable = map<string, Expr>

  /** A statement keeps its form and its targets; only the expressions it
      reads may change. */
  predicate SameShape(s: Stmt, s': Stmt)
  {
    match s
    case Assign(ts, _) => s'.Assign? && s'.targets == ts
    case AugAssign(t, op, _) => s'.AugAssign? && s'.target == t && s'.aop == op
    case ExprStmt(_) => s'.ExprStmt?
    case _ => s' == s
  }

  /** One statement with the table's expressions put in for the names it
      reads, then constant-folded. */
  function Promoted(s: Stmt, table: SymbolTable): (r: Stmt)
    ensures SameShape(s, r)
  {
    ConstantFoldStmt(ReplaceSymbolsStmt(s, table))
  }

  /** `x = e` with exactly one target, the plain name `x`: the only
      statement the table records. */
  predicate Binds(s: Stmt, x: string)
  {
    s.Assign? && s.targets == [Name(x)]
  }

  /** The table after statement `s`. */
  function Record(s: Stmt, table: SymbolTable): SymbolTable
  {
    if s.Assign? && |s.targets| == 1 && s.targets[0].Name? then table[s.targets[0].id := s.value] else table
  }

  /** The statements of one BasicBlock promoted in order, each under the
      table the statements before it left, with the table at the end. */
  function PromoteStatements(ss: seq<Stmt>, table: SymbolTable): (r: (seq<Stmt>, SymbolTable))
    ensures |r.0| == |ss|
    decreases |ss|
  {
    if ss == [] then ([], table)
    else
      var pre := PromoteStatements(ss[..|ss| - 1], table);
      var s := Promoted(ss[|ss| - 1], pre.1);
      (pre.0 + [s], Record(s, pre.1))
  }

  /** Statement `k` is promoted under the table that statements `0..k-1`
      built: the table is threaded through the block in order. */
  lemma {:induction false} PromoteStatementsThreads(ss: seq<Stmt>, table: SymbolTable)
    ensures forall k :: 0 <= k < |ss| ==>
      PromoteStatements(ss, table).0[k] == Promoted(ss[k], PromoteStatements(ss[..k], table).1)
    decreases |ss|
  {
    if ss != [] {
      var pre := ss[..|ss| - 1];
      PromoteStatementsThreads(pre, table);
      forall k | 0 <= k < |ss|
        ensures PromoteStatements(ss, table).0[k] == Promoted(ss[k], PromoteStatements(ss[..k], table).1)
      {
        if k < |pre| {
          assert pre[..k] == ss[..k];
        } else {
          assert pre == ss[..k];
        }
      }
    }
  }

  /** One recorded statement: a single-name assignment to `x` binds `x`
      to its value; any other statement leaves `x` as it was. */
  lemma RecordAt(orig: Stmt, s: Stmt, t: SymbolTable, x: string)
    requires SameShape(orig, s)
    ensures Binds(orig, x) ==> s.Assign? && x in Record(s, t) && Record(s, t)[x] == s.value
    ensures !Binds(orig, x) ==> (x in Record(s, t) <==> x in t) && (x in t ==> Record(s, t)[x] == t[x])
  {
  }

  /** After a block, the table binds exactly the names it bound before and
      the names a single-name assignment of the block writes. */
  lemma {:induction false} PromoteStatementsBinds(ss: seq<Stmt>, table: SymbolTable, x: string)
    ensures x in PromoteStatements(ss, table).1 <==> x in table || exists k :: 0 <= k < |ss| && Binds(ss[k], x)
    decreases |ss|
  {
    if ss != [] {
      var pre, last := ss[..|ss| - 1], ss[|ss| - 1];
      PromoteStatementsBinds(pre, table, x);
      var p := PromoteStatements(pre, table);
      RecordAt(last, Promoted(last, p.1), p.1, x);
      assert forall k :: 0 <= k < |pre| ==> pre[k] == ss[k];
    }
  }

  /** Statement `k` is the last single-name assignment to `x` in `ss`. */
  predicate LastBinding(ss: seq<Stmt>, x: string, k: int)
  {
    0 <= k < |ss| && Binds(ss[k], x) && forall j :: k < j < |ss| ==> !Binds(ss[j], x)
  }

  /** A statement that does not bind `x` keeps the last binding of `x`. */
  lemma LastBindingSnoc(ss: seq<Stmt>, x: string, k: int)
    requires |ss| > 0 && LastBinding(ss[..|ss| - 1], x, k) && !Binds(ss[|ss| - 1], x)
    ensures LastBinding(ss, x, k)
  {
    assert forall j :: 0 <= j < |ss| - 1 ==> ss[..|ss| - 1][j] == ss[j];
  }

  /** A name the block assigns is bound to the promoted value of the last
      single-name assignment to it. */
  lemma {:induction false} PromoteStatementsLast(ss: seq<Stmt>, table: SymbolTable, x: string)
    requires exists k :: 0 <= k < |ss| && Binds(ss[k], x)
    ensures var r := PromoteStatements(ss, table);
      x in r.1 &&
      exists k :: LastBinding(ss, x, k) && r.0[k].Assign? && r.1[x] == r.0[k].value
    decreases |ss|
  {
    var pre, last := ss[..|ss| - 1], ss[|ss| - 1];
    var p := PromoteStatements(pre, table);
    var s := Promoted(last, p.1);
    var r := PromoteStatements(ss, table);
    assert r.0 == p.0 + [s] && r.1 == Record(s, p.1);
    RecordAt(last, s, p.1, x);
    if Binds(last, x) {
      assert r.0[|ss| - 1] == s;
      assert LastBinding(ss, x, |ss| - 1);
    } else {
      var k :| 0 <= k < |ss| && Binds(ss[k], x);
      assert pre[k] == ss[k];
      PromoteStatementsLast(pre, table, x);
      var k' :| LastBinding(pre, x, k') && p.0[k'].Assign? && p.1[x] == p.0[k'].value;
      LastBindingSnoc(ss, x, k');
      assert r.0[k'] == p.0[k'];
    }
  }

  /** A name the block never assigns keeps its old binding. */
  lemma {:induction false} PromoteStatementsKeeps(ss: seq<Stmt>, table: SymbolTable, x: string)
    requires forall k :: 0 <= k < |ss| ==> !Binds(ss[k], x)
    requires x in table
    ensures x in PromoteStatements(ss, table).1 && PromoteStatements(ss, table).1[x] == table[x]
    decreases |ss|
  {
    if ss != [] {
      var pre, last := ss[..|ss| - 1], ss[|ss| - 1];
      PromoteStatementsKeeps(pre, table, x);
      var p := PromoteStatements(pre, table);
      RecordAt(last, Promoted(last, p.1), p.1, x);
    }
  }

  /** A node keeps its origin, the arm it took and its form: a BasicBlock
      the number of its statements, a Branch its arms; a Yield or the Head
      is left as it is. */
  predicate Reshaped(n: PathNode, n': PathNode)
  {
    n'.origin == n.origin && n'.taken == n.taken &&
    match n.kind
    case BlockKind(ss) => n'.kind.BlockKind? && |n'.kind.statements| == |ss|
    case BranchKind(_, t, f) => n'.kind.BranchKind? && n'.kind.trueEdge == t && n'.kind.falseEdge == f
    case _ => n' == n
  }

  /** One node of a path: a BasicBlock's statements are promoted in turn,
      a Branch's condition is promoted under the current table. */
  function PromoteNode(n: PathNode, table: SymbolTable): (r: (PathNode, SymbolTable))
    ensures Reshaped(n, r.0)
    ensures !n.kind.BlockKind? ==> r.1 == table
  {
    match n.kind
    case BlockKind(ss) =>
      var b := PromoteStatements(ss, table);
      (n.(kind := BlockKind(b.0)), b.1)
    case BranchKind(c, t, f) =>
      (n.(kind := BranchKind(ConstantFold(ReplaceSymbols(c, table)), t, f)), table)
    case _ => (n, table)
  }

  /** The nodes of one path promoted in order, threading the table. */
  function PromoteNodes(p: Path, table: SymbolTable): (r: (Path, SymbolTable))
    ensures |r.0| == |p|
    decreases |p|
  {
    if p == [] then ([], table)
    else
      var pre := PromoteNodes(p[..|p| - 1], table);
      var n := PromoteNode(p[|p| - 1], pre.1);
      (pre.0 + [n.0], n.1)
  }

  /** Node `k` of a path is promoted under the table that nodes `0..k-1`
      built; every node keeps its shape. */
  lemma {:induction false} PromoteNodesThreads(p: Path, table: SymbolTable)
    ensures forall k :: 0 <= k < |p| ==>
      PromoteNodes(p, table).0[k] == PromoteNode(p[k], PromoteNodes(p[..k], table).1).0 &&
      Reshaped(p[k], PromoteNodes(p, table).0[k])
    decreases |p|
  {
    if p != [] {
      var pre := p[..|p| - 1];
      PromoteNodesThreads(pre, table);
      forall k | 0 <= k < |p|
        ensures PromoteNodes(p, table).0[k] == PromoteNode(p[k], PromoteNodes(p[..k], table).1).0
      {
        if k < |pre| {
          assert pre[..k] == p[..k];
        } else {
          assert pre == p[..k];
        }
      }
    }
  }

  /** A BasicBlock node holding a single-name assignment to `x`. */
  predicate BlockBinds(n: PathNode, x: string)
  {
    n.kind.BlockKind? && exists j :: 0 <= j < |n.kind.statements| && Binds(n.kind.statements[j], x)
  }

  /** Along a path, the table binds exactly the names bound on entry and
      the names some BasicBlock of the path assigns with a single-name
      assignment; conditions never bind. */
  lemma {:induction false} PromoteNodesTable(p: Path, table: SymbolTable, x: string)
    ensures x in PromoteNodes(p, table).1 <==> x in table || exists k :: 0 <= k < |p| && BlockBinds(p[k], x)
    decreases |p|
  {
    if p != [] {
      var pre, n := p[..|p| - 1], p[|p| - 1];
      PromoteNodesTable(pre, table, x);
      assert forall k :: 0 <= k < |pre| ==> pre[k] == p[k];
      if n.kind.BlockKind? {
        PromoteStatementsBinds(n.kind.statements, PromoteNodes(pre, table).1, x);
      }
    }
  }

  /** `promote_live_variables(paths)`: every path promoted from an empty
      table. */
  function PromotePaths(paths: seq<Path>): (r: seq<Path>)
    ensures |r| == |paths|
  {
    seq(|paths|, i requires 0 <= i < |paths| => PromoteNodes(paths[i], map[]).0)
  }

  /** Promotion keeps every path framed and every node's shape; a name
      no BasicBlock before node `k` assigns is never replaced in node `k`. */
  lemma PromotePathsShape(paths: seq<Path>)
    ensures forall i :: 0 <= i < |paths| ==>
      |PromotePaths(paths)[i]| == |paths[i]| &&
      (forall k :: 0 <= k < |paths[i]| ==> Reshaped(paths[i][k], PromotePaths(paths)[i][k])) &&
      (Framed(paths[i]) ==> Framed(PromotePaths(paths)[i]))
  {
    forall i | 0 <= i < |paths|
      ensures forall k :: 0 <= k < |paths[i]| ==> Reshaped(paths[i][k], PromotePaths(paths)[i][k])
    {
      PromoteNodesThreads(paths[i], map[]);
    }
  }

  /** The names replaced in node `k` of a path are exactly those a
      BasicBlock before it assigns: the table starts empty on every path. */
  lemma PromoteTableBefore(p: Path, k: nat, x: string)
    requires k <= |p|
    ensures x in PromoteNodes(p[..k], map[]).1 <==> exists j :: 0 <= j < k && BlockBinds(p[j], x)
  {
    PromoteNodesTable(p[..k], map[], x);
    assert forall j :: 0 <= j < k ==> p[..k][j] == p[j];
  }

  /** `block.statements = new_statements` for one BasicBlock: the loop
      over its statements, updating the table as it goes. */
  method PromoteBlock(ss: seq<Stmt>, table: SymbolTable) returns (out: seq<Stmt>, t: SymbolTable)
    ensures (out, t) == PromoteStatements(ss, table)
  {
    out, t := [], table;
    var k := 0;
    while k < |ss|
      invariant 0 <= k <= |ss|
      invariant (out, t) == PromoteStatements(ss[..k], table)
    {
      var s := ReplaceSymbolsStmt(ss[k], t);
      s := ConstantFoldStmt(s);
      if s.Assign? && |s.targets| == 1 && s.targets[0].Name? {
        t := t[s.targets[0].id := s.value];
      }
      out := out + [s];
      assert ss[..k + 1][..k] == ss[..k];
      k := k + 1;
    }
    assert ss[..k] == ss;
  }

  /** The loop over the nodes of one path, starting from an empty table. */
  method PromotePath(p: Path) returns (out: Path)
    ensures out == PromoteNodes(p, map[]).0
  {
    var table: SymbolTable := map[];
    out := [];
    var k := 0;
    while k < |p|
      invariant 0 <= k <= |p|
      invariant (out, table) == PromoteNodes(p[..k], map[])
    {
      var n := p[k];
      match n.kind {
        case BlockKind(ss) =>
          var ss', t' := PromoteBlock(ss, table);
          n, table := n.(kind := BlockKind(ss')), t';
        case BranchKind(c, tr, f) =>
          var c' := ReplaceSymbols(c, table);
          c' := ConstantFold(c');
          n := n.(kind := BranchKind(c', tr, f));
        case _ =>
      }
      out := out + [n];
      assert p[..k + 1][..k] == p[..k];
      k := k + 1;
    }
    assert p[..k] == p;
  }

  /** `promote_live_variables(paths)`: the loop over the paths. */
  method PromoteLiveVariables(paths: seq<Path>) returns (r: seq<Path>)
    ensures r == PromotePaths(paths)
  {
    r := [];
    var i := 0;
    while i < |paths|
      invariant 0 <= i <= |paths|
      invariant r == PromotePaths(paths[..i])
    {
      var p := PromotePath(paths[i]);
      r := r + [p];
      i := i + 1;
    }
    assert paths[..i] == paths;
  }

  // ---------------------------------------------------------------------
  // append_state_info
  // ---------------------------------------------------------------------

  /** The `State` appended to each path: the test that the FSM is at the
      path's starting yield, the conditions of the branches taken, and the
      statements run on the way to the next yield. */
  datatype State = State(yieldState: Expr, conds: seq<Expr>, statements: seq<Stmt>)

  /** A path with its `State` appended as its last element. */
  datatype StatePath = StatePath(nodes: Path, state: State)

  const YieldStateVar := "yield_state"

  /** `yield_state == k`. */
  function YieldStateTest(k: nat): Expr
  {
    Compare(Name(YieldStateVar), Eq, Num(k))
  }

  /** `yield_state = k`. */
  function YieldStateAssign(k: nat): Stmt
  {
    Assign([Name(YieldStateVar)], Num(k))
  }

  /** The yield a path starts from: 0 for the Head, else the Yield's id. */
  function OriginId(n: PathNode): nat
    requires n.kind.HeadKind? || n.kind.YieldKind?
  {
    if n.kind.HeadKind? then 0 else n.kind.yieldId
  }

  /** The condition a Branch copy contributes: its own when the path goes
      on through the true arm, its bitwise inversion when through the
      false arm. */
  function Guard(n: PathNode): Expr
    requires n.kind.BranchKind?
  {
    if n.taken == FalseLabel then UnaryOp(Invert, n.kind.cond) else n.kind.cond
  }

  /** The guards of the Branch copies among `ns`, in order. */
  function Guards(ns: Path): seq<Expr>
    decreases |ns|
  {
    if ns == [] then []
    else Guards(ns[..|ns| - 1]) + (if ns[|ns| - 1].kind.BranchKind? then [Guard(ns[|ns| - 1])] else [])
  }

  /** The number of Branch copies among `ns`. */
  function BranchCount(ns: Path): nat
    decreases |ns|
  {
    if ns == [] then 0
    else BranchCount(ns[..|ns| - 1]) + (if ns[|ns| - 1].kind.BranchKind? then 1 else 0)
  }

  /** One guard per Branch copy, in path order: the Branch at position `k`
      gives the guard numbered by the Branches before it. */
  lemma {:induction false} GuardsInOrder(ns: Path)
    ensures |Guards(ns)| == BranchCount(ns)
    ensures forall k :: 0 <= k < |ns| && ns[k].kind.BranchKind? ==>
      BranchCount(ns[..k]) < |Guards(ns)| && Guards(ns)[BranchCount(ns[..k])] == Guard(ns[k])
    decreases |ns|
  {
    if ns != [] {
      var pre := ns[..|ns| - 1];
      GuardsInOrder(pre);
      forall k | 0 <= k < |ns| && ns[k].kind.BranchKind?
        ensures BranchCount(ns[..k]) < |Guards(ns)| && Guards(ns)[BranchCount(ns[..k])] == Guard(ns[k])
      {
        if k < |pre| {
          assert pre[..k] == ns[..k] && pre[k] == ns[k];
        } else {
          assert pre == ns[..k];
        }
      }
    }
  }

  /** The state built by the first loop over a path: the yield test, the
      guards of nodes `1..` and the `yield_state` assignment to the id of
      the Yield the path ends at. */
  function InitialState(p: Path): State
    requires Framed(p)
  {
    State(YieldStateTest(OriginId(p[0])), Guards(p[1..]), [YieldStateAssign(p[|p| - 1].kind.yieldId)])
  }

  /** The first loop for one path. */
  method NewState(p: Path) returns (st: State)
    requires Framed(p)
    ensures st == InitialState(p)
  {
    var yieldId := if p[0].kind.HeadKind? then 0 else p[0].kind.yieldId;
    st := State(Compare(Name(YieldStateVar), Eq, Num(yieldId)), [], []);
    var i := 1;
    while i < |p|
      invariant 1 <= i <= |p|
      invariant st == State(YieldStateTest(OriginId(p[0])), Guards(p[1..i]), [])
    {
      if p[i].kind.BranchKind? {
        var cond := p[i].kind.cond;
        if p[i].taken == FalseLabel {
          cond := UnaryOp(Invert, cond);
        }
        st := st.(conds := st.conds + [cond]);
      }
      assert p[1..i + 1][..i - 1] == p[1..i];
      i := i + 1;
    }
    assert p[1..i] == p[1..];
    st := st.(statements := st.statements + [YieldStateAssign(p[|p| - 1].kind.yieldId)]);
  }

  /** The names a list of conditions adds to `state_vars`: all names of
      each condition that mentions a name outside `known`. */
  function CondVars(conds: seq<Expr>, known: set<string>): set<string>
    decreases |conds|
  {
    if conds == [] then {}
    else
      var c := conds[|conds| - 1];
      CondVars(conds[..|conds| - 1], known) + (if Names(c) <= known then {} else Names(c))
  }

  /** The names the conditions of all states add. */
  function StatesVars(states: seq<State>, known: set<string>): set<string>
    decreases |states|
  {
    if states == [] then {}
    else StatesVars(states[..|states| - 1], known) + CondVars(states[|states| - 1].conds, known)
  }

  /** `state_vars`: `yield_state` and the names the conditions add, with
      the inputs and outputs known. */
  function StateVars(states: seq<State>, outputs: set<string>, inputs: set<string>): set<string>
  {
    {YieldStateVar} + StatesVars(states, outputs + inputs)
  }

  lemma {:induction false} CondVarsMembers(conds: seq<Expr>, known: set<string>, x: string)
    ensures x in CondVars(conds, known) <==>
      exists j :: 0 <= j < |conds| && x in Names(conds[j]) && !(Names(conds[j]) <= known)
    decreases |conds|
  {
    if conds != [] {
      var pre := conds[..|conds| - 1];
      CondVarsMembers(pre, known, x);
      assert forall j :: 0 <= j < |pre| ==> pre[j] == conds[j];
    }
  }

  lemma {:induction false} StatesVarsMembers(states: seq<State>, known: set<string>, x: string)
    ensures x in StatesVars(states, known) <==>
      exists i, j :: 0 <= i < |states| && 0 <= j < |states[i].conds| &&
        x in Names(states[i].conds[j]) && !(Names(states[i].conds[j]) <= known)
    decreases |states|
  {
    if states != [] {
      var pre := states[..|states| - 1];
      StatesVarsMembers(pre, known, x);
      CondVarsMembers(states[|states| - 1].conds, known, x);
      assert forall i :: 0 <= i < |pre| ==> pre[i] == states[i];
    }
  }

  /** A name is a state variable exactly when it is `yield_state` or it is
      mentioned by a condition that mentions some name that is neither an
      input nor an output. In particular nothing else (not the registers
      declared in the preamble) ever becomes one. */
  lemma StateVarsMembers(states: seq<State>, outputs: set<string>, inputs: set<string>, x: string)
    ensures x in StateVars(states, outputs, inputs) <==>
      x == YieldStateVar ||
      exists i, j :: 0 <= i < |states| && 0 <= j < |states[i].conds| &&
        x in Names(states[i].conds[j]) && !(Names(states[i].conds[j]) <= outputs + inputs)
  {
    StatesVarsMembers(states, outputs + inputs, x);
  }

  /** The names one condition list adds, starting from `vars`. */
  method AddCondVars(vars: set<string>, conds: seq<Expr>, outputs: set<string>, inputs: set<string>)
    returns (r: set<string>)
    ensures r == vars + CondVars(conds, outputs + inputs)
  {
    r := vars;
    var j := 0;
    while j < |conds|
      invariant 0 <= j <= |conds|
      invariant r == vars + CondVars(conds[..j], outputs + inputs)
    {
      var names := Names(conds[j]);
      if !(names <= outputs + inputs) {
        r := r + names;
      }
      assert conds[..j + 1][..j] == conds[..j];
      j := j + 1;
    }
    assert conds[..j] == conds;
  }

  /** The second loop: `state_vars` over all the states. */
  method CollectStateVars(states: seq<State>, outputs: set<string>, inputs: set<string>)
    returns (vars: set<string>)
    ensures vars == StateVars(states, outputs, inputs)
  {
    vars := {YieldStateVar};
    var i := 0;
    while i < |states|
      invariant 0 <= i <= |states|
      invariant vars == {YieldStateVar} + StatesVars(states[..i], outputs + inputs)
    {
      vars := AddCondVars(vars, states[i].conds, outputs, inputs);
      assert states[..i + 1][..i] == states[..i];
      i := i + 1;
    }
    assert states[..i] == states;
  }

  /** The statements a state may hold: an assignment with a target, an
      augmented assignment, or a `<<` connection. */
  predicate Emittable(s: Stmt)
  {
    (s.Assign? && s.targets != []) || s.AugAssign? || IsShiftExpr(s)
  }

  /** The target the third loop reads off a statement: IndexError for an
      assignment without targets, NotImplementedError for a statement of
      any other form. */
  function StatementTarget(s: Stmt): (r: Result<Expr>)
    ensures r.Ok? <==> Emittable(s)
    ensures r.Err? ==> r.error == (if s.Assign? then IndexError else NotImplementedError)
  {
    if s.Assign? then (if s.targets == [] then Err(IndexError) else Ok(s.targets[0]))
    else if s.AugAssign? then Ok(s.target)
    else if IsShiftExpr(s) then Ok(s.expr.left)
    else Err(NotImplementedError)
  }

  /** The statements of a block checked in order; the first bad one raises. */
  function CheckStatements(ss: seq<Stmt>): Outcome
    decreases |ss|
  {
    if ss == [] then Done
    else
      var pre := CheckStatements(ss[..|ss| - 1]);
      if pre.Fail? then pre
      else match StatementTarget(ss[|ss| - 1])
        case Ok(_) => Done
        case Err(e) => Fail(e)
  }

  /** The check passes exactly when every statement is emittable, and
      otherwise raises the error of the first that is not. */
  lemma {:induction false} CheckStatementsFirst(ss: seq<Stmt>)
    ensures CheckStatements(ss).Done? <==> forall k :: 0 <= k < |ss| ==> Emittable(ss[k])
    ensures CheckStatements(ss).Fail? ==>
      exists k :: 0 <= k < |ss| && !Emittable(ss[k]) && (forall j :: 0 <= j < k ==> Emittable(ss[j])) &&
        CheckStatements(ss).error == (if ss[k].Assign? then IndexError else NotImplementedError)
    decreases |ss|
  {
    if ss != [] {
      var pre := ss[..|ss| - 1];
      CheckStatementsFirst(pre);
      assert forall k :: 0 <= k < |pre| ==> pre[k] == ss[k];
    }
  }

  /** Checking a concatenation checks the first part, then the second. */
  lemma {:induction false} CheckStatementsAppend(a: seq<Stmt>, b: seq<Stmt>)
    ensures CheckStatements(a + b) == if CheckStatements(a).Fail? then CheckStatements(a) else CheckStatements(b)
    decreases |b|
  {
    if b == [] {
      assert a + b == a;
    } else {
      var pre := b[..|b| - 1];
      CheckStatementsAppend(a, pre);
      assert (a + b)[..|a + b| - 1] == a + pre;
      assert b[..|b| - 1] == pre;
    }
  }

  /** The statements of the BasicBlocks among `ns`, in path order. */
  function BlockStatements(ns: Path): seq<Stmt>
    decreases |ns|
  {
    if ns == [] then []
    else
      var n := ns[|ns| - 1];
      BlockStatements(ns[..|ns| - 1]) + (if n.kind.BlockKind? then n.kind.statements else [])
  }

  /** The third loop's check over one path, block by block. */
  function CheckPath(ns: Path): Outcome
    decreases |ns|
  {
    if ns == [] then Done
    else
      var pre := CheckPath(ns[..|ns| - 1]);
      var n := ns[|ns| - 1];
      if pre.Fail? then pre
      else if n.kind.BlockKind? then CheckStatements(n.kind.statements)
      else Done
  }

  /** Checking a path block by block is checking its statements in order. */
  lemma {:induction false} CheckPathFlat(ns: Path)
    ensures CheckPath(ns) == CheckStatements(BlockStatements(ns))
    decreases |ns|
  {
    if ns != [] {
      var pre, n := ns[..|ns| - 1], ns[|ns| - 1];
      CheckPathFlat(pre);
      CheckStatementsAppend(BlockStatements(pre), if n.kind.BlockKind? then n.kind.statements else []);
      assert BlockStatements(pre) + [] == BlockStatements(pre);
    }
  }

  /** Once a prefix of a path fails the check, the path fails with it. */
  lemma {:induction false} CheckPathPrefix(ns: Path, k: nat)
    requires k <= |ns| && CheckPath(ns[..k]).Fail?
    ensures CheckPath(ns) == CheckPath(ns[..k])
    decreases |ns|
  {
    if k < |ns| {
      var pre := ns[..|ns| - 1];
      assert pre[..k] == ns[..k];
      CheckPathPrefix(pre, k);
    } else {
      assert ns[..k] == ns;
    }
  }

  /** The third loop's check over all paths; the first failing path raises. */
  function CheckPaths(paths: seq<Path>): Outcome
    decreases |paths|
  {
    if paths == [] then Done
    else
      var pre := CheckPaths(paths[..|paths| - 1]);
      if pre.Fail? then pre else CheckPath(paths[|paths| - 1])
  }

  /** All paths pass exactly when every statement of every BasicBlock on
      them is emittable; the only errors are IndexError and
      NotImplementedError. */
  lemma {:induction false} CheckPathsAll(paths: seq<Path>)
    ensures CheckPaths(paths).Done? <==>
      forall i :: 0 <= i < |paths| ==> forall s :: s in BlockStatements(paths[i]) ==> Emittable(s)
    ensures CheckPaths(paths).Fail? ==> CheckPaths(paths).error in {IndexError, NotImplementedError}
    decreases |paths|
  {
    if paths != [] {
      var pre, p := paths[..|paths| - 1], paths[|paths| - 1];
      CheckPathsAll(pre);
      assert forall i :: 0 <= i < |pre| ==> pre[i] == paths[i];
      CheckPathFlat(p);
      CheckStatementsFirst(BlockStatements(p));
    }
  }

  lemma {:induction false} CheckPathsPrefix(paths: seq<Path>, k: nat)
    requires k <= |paths| && CheckPaths(paths[..k]).Fail?
    ensures CheckPaths(paths) == CheckPaths(paths[..k])
    decreases |paths|
  {
    if k < |paths| {
      var pre := paths[..|paths| - 1];
      assert pre[..k] == paths[..k];
      CheckPathsPrefix(pre, k);
    } else {
      assert paths[..k] == paths;
    }
  }

  /** `append_state_info(paths, outputs, inputs)`: the paths, each with its
      state appended, and `state_vars`. The states are built and
      `state_vars` collected before any statement is checked. */
  function AppendStates(paths: seq<Path>, outputs: set<string>, inputs: set<string>)
    : Result<(seq<StatePath>, set<string>)>
    requires forall i :: 0 <= i < |paths| ==> Framed(paths[i])
  {
    var states := InitialStates(paths);
    var vars := StateVars(states, outputs, inputs);
    var c := CheckPaths(paths);
    if c.Fail? then Err(c.error)
    else
      Ok((seq(|paths|, i requires 0 <= i < |paths| =>
            StatePath(paths[i], states[i].(statements := states[i].statements + BlockStatements(paths[i])))),
          vars))
  }

  /** What `append_state_info` promises, path by path: the state tests the
      yield the path starts from (0 for the Head), lists one guard per
      Branch in path order, and runs `yield_state = <id of the Yield it
      ends at>` followed by every BasicBlock statement of the path in
      order; `state_vars` holds `yield_state` and the names of every
      condition that mentions something other than an input or output.
      It fails exactly when some such statement is not emittable. */
  lemma AppendStatesInfo(paths: seq<Path>, outputs: set<string>, inputs: set<string>)
    requires forall i :: 0 <= i < |paths| ==> Framed(paths[i])
    ensures var r := AppendStates(paths, outputs, inputs);
      (r.Ok? <==> forall i :: 0 <= i < |paths| ==> forall s :: s in BlockStatements(paths[i]) ==> Emittable(s)) &&
      (r.Err? ==> r.error in {IndexError, NotImplementedError})
    ensures var r := AppendStates(paths, outputs, inputs);
      r.Ok? ==> (|r.value.0| == |paths| &&
        forall i :: 0 <= i < |paths| ==>
          r.value.0[i].nodes == paths[i] &&
          r.value.0[i].state.yieldState == YieldStateTest(OriginId(paths[i][0])) &&
          r.value.0[i].state.conds == Guards(paths[i][1..]) &&
          r.value.0[i].state.statements ==
            [YieldStateAssign(paths[i][|paths[i]| - 1].kind.yieldId)] + BlockStatements(paths[i]))
    ensures var r := AppendStates(paths, outputs, inputs);
      r.Ok? ==> forall x :: (x in r.value.1 <==>
        x == YieldStateVar ||
        exists i, j :: 0 <= i < |paths| && 0 <= j < |r.value.0[i].state.conds| &&
          x in Names(r.value.0[i].state.conds[j]) && !(Names(r.value.0[i].state.conds[j]) <= outputs + inputs))
  {
    CheckPathsAll(paths);
    var states := InitialStates(paths);
    var r := AppendStates(paths, outputs, inputs);
    if r.Ok? {
      forall x ensures x in r.value.1 <==>
        x == YieldStateVar ||
        exists i, j :: 0 <= i < |paths| && 0 <= j < |r.value.0[i].state.conds| &&
          x in Names(r.value.0[i].state.conds[j]) && !(Names(r.value.0[i].state.conds[j]) <= outputs + inputs)
      {
        StateVarsMembers(states, outputs, inputs, x);
        assert forall i :: 0 <= i < |paths| ==> r.value.0[i].state.conds == states[i].conds;
      }
    }
  }

  /** The third loop for one block: its statements checked and appended. */
  method AddBlockStatements(ss: seq<Stmt>, st: State) returns (r: Result<State>)
    ensures CheckStatements(ss).Fail? ==> r == Err(CheckStatements(ss).error)
    ensures CheckStatements(ss).Done? ==> r == Ok(st.(statements := st.statements + ss))
  {
    var cur := st;
    var k := 0;
    while k < |ss|
      invariant 0 <= k <= |ss|
      invariant CheckStatements(ss[..k]) == Done
      invariant cur == st.(statements := st.statements + ss[..k])
    {
      assert ss[..k + 1][..k] == ss[..k];
      var target := StatementTarget(ss[k]);
      if target.Err? {
        assert CheckStatements(ss[..k + 1]) == Fail(target.error);
        if k + 1 < |ss| {
          CheckStatementsAppend(ss[..k + 1], ss[k + 1..]);
        }
        assert ss[..k + 1] + ss[k + 1..] == ss;
        return Err(target.error);
      }
      cur := cur.(statements := cur.statements + [ss[k]]);
      k := k + 1;
    }
    assert ss[..k] == ss;
    return Ok(cur);
  }

  /** The third loop for one path: the statements of its BasicBlocks. */
  method AddPathStatements(p: Path, st: State) returns (r: Result<State>)
    ensures CheckPath(p).Fail? ==> r == Err(CheckPath(p).error)
    ensures CheckPath(p).Done? ==> r == Ok(st.(statements := st.statements + BlockStatements(p)))
  {
    var cur := st;
    var k := 0;
    while k < |p|
      invariant 0 <= k <= |p|
      invariant CheckPath(p[..k]) == Done
      invariant cur == st.(statements := st.statements + BlockStatements(p[..k]))
    {
      assert p[..k + 1][..k] == p[..k];
      if p[k].kind.BlockKind? {
        var next := AddBlockStatements(p[k].kind.statements, cur);
        if next.Err? {
          CheckPathPrefix(p, k + 1);
          return Err(next.error);
        }
        cur := next.value;
      }
      k := k + 1;
    }
    assert p[..k] == p;
    return Ok(cur);
  }

  /** The states of the first loop, one per path. */
  function InitialStates(paths: seq<Path>): (r: seq<State>)
    requires forall i :: 0 <= i < |paths| ==> Framed(paths[i])
    ensures |r| == |paths| && forall i :: 0 <= i < |paths| ==> r[i] == InitialState(paths[i])
  {
    seq(|paths|, i requires 0 <= i < |paths| => InitialState(paths[i]))
  }

  /** The first loop: a fresh state for every path. */
  method NewStates(paths: seq<Path>) returns (states: seq<State>)
    requires forall i :: 0 <= i < |paths| ==> Framed(paths[i])
    ensures states == InitialStates(paths)
  {
    states := [];
    var i := 0;
    while i < |paths|
      invariant 0 <= i <= |paths|
      invariant states == InitialStates(paths)[..i]
    {
      var st := NewState(paths[i]);
      states := states + [st];
      i := i + 1;
    }
  }

  /** The third loop: every state completed with its path's statements. */
  method AddStatements(paths: seq<Path>, states: seq<State>) returns (r: Result<seq<StatePath>>)
    requires |states| == |paths|
    ensures CheckPaths(paths).Fail? ==> r == Err(CheckPaths(paths).error)
    ensures CheckPaths(paths).Done? ==> (r.Ok? && |r.value| == |paths| &&
      forall j :: 0 <= j < |paths| ==>
        r.value[j] == StatePath(paths[j], states[j].(statements := states[j].statements + BlockStatements(paths[j]))))
  {
    var done: seq<StatePath> := [];
    var i := 0;
    while i < |paths|
      invariant 0 <= i <= |paths|
      invariant CheckPaths(paths[..i]) == Done
      invariant |done| == i
      invariant forall j :: 0 <= j < i ==>
        done[j] == StatePath(paths[j], states[j].(statements := states[j].statements + BlockStatements(paths[j])))
    {
      assert paths[..i + 1][..i] == paths[..i];
      var st := AddPathStatements(paths[i], states[i]);
      if st.Err? {
        CheckPathsPrefix(paths, i + 1);
        return Err(st.error);
      }
      done := done + [StatePath(paths[i], st.value)];
      i := i + 1;
    }
    assert paths[..i] == paths;
    return Ok(done);
  }

  /** `append_state_info(paths, outputs, inputs)`: the three loops. */
  method AppendStateInfo(paths: seq<Path>, outputs: set<string>, inputs: set<string>)
    returns (r: Result<(seq<StatePath>, set<string>)>)
    requires forall i :: 0 <= i < |paths| ==> Framed(paths[i])
    ensures r == AppendStates(paths, outputs, inputs)
  {
    var states := NewStates(paths);
    var vars := CollectStateVars(states, outputs, inputs);
    var done := AddStatements(paths, states);
    if done.Err? {
      return Err(done.error);
    }
    ghost var spec := AppendStates(paths, outputs, inputs);
    assert spec.Ok? && done.value == spec.value.0;
    r := Ok((done.value, vars));
  }
}
